/**
  The in-memory reservation store: a map from reservation id to reservation
  record (ReservationCalendar in app/calendar.py). The Python class mutates
  its dictionary in place; here each operation takes the calendar and returns
  the calendar after the call together with the call's result.
 */
module ReservationCalendar {
  import opened Wrappers
  import opened ReservationIds
  import opened TimeSlots

  /** The two statuses the calendar ever writes into a record. */
  datatype Status = Confirmed | Cancelled {
    /** The status text the Python record carries. */
    function Name(): (s: string)
      ensures s == "confirmed" <==> Confirmed?
      ensures s == "cancelled" <==> Cancelled?
    {
      match this
      case Confirmed => "confirmed"
      case Cancelled => "cancelled"
    }
  }

  /** One reservation. The date is carried, never interpreted. */
  datatype Reservation = Reservation(
    reservationId: string,
    date: DateTime,
    partySize: int,
    customerName: string,
    phoneNumber: string,
    status: Status)

  /** a and b are the same reservation, whatever their statuses. */
  predicate SameDetails(a: Reservation, b: Reservation) {
    a.(status := Confirmed) == b.(status := Confirmed)
  }

  datatype Calendar = Calendar(reservations: map<string, Reservation>)

  /** The calendar after an operation, and what the operation returned. */
  datatype Transition<+T> = Transition(next: Calendar, output: T)

  /** Every record is stored under its own id. */
  predicate WellKeyed(cal: Calendar) {
    forall id :: id in cal.reservations ==> cal.reservations[id].reservationId == id
  }

  /** A new calendar holds no reservations. */
  function NewCalendar(): (cal: Calendar)
    ensures |cal.reservations| == 0
    ensures WellKeyed(cal)
  {
    Calendar(map[])
  }

  /**
    Stores a confirmed reservation under `id` and returns it. An id already
    present is overwritten: that entry alone changes.
   */
  function AddReservation(
    cal: Calendar, id: string, date: DateTime, partySize: int,
    customerName: string, phoneNumber: string): (t: Transition<Reservation>)
    ensures t.output.reservationId == id && t.output.status == Confirmed
    ensures t.output.date == date && t.output.partySize == partySize
    ensures t.output.customerName == customerName && t.output.phoneNumber == phoneNumber
    ensures t.next.reservations.Keys == cal.reservations.Keys + {id}
    ensures t.next.reservations[id] == t.output
    ensures forall k :: k in cal.reservations && k != id ==>
      t.next.reservations[k] == cal.reservations[k]
    ensures WellKeyed(cal) ==> WellKeyed(t.next)
  {
    var r := Reservation(id, date, partySize, customerName, phoneNumber, Confirmed);
    Transition(Calendar(cal.reservations[id := r]), r)
  }

  /** AddReservation with the id generated from the clock reading `now`. */
  function AddReservationAt(
    cal: Calendar, now: DateTime, date: DateTime, partySize: int,
    customerName: string, phoneNumber: string): (t: Transition<Reservation>)
    requires ValidClock(now)
    ensures ParseId(t.output.reservationId) == Some(ToStamp(now))
    ensures t.output.status == Confirmed
    ensures t.output.date == date && t.output.partySize == partySize
    ensures t.output.customerName == customerName && t.output.phoneNumber == phoneNumber
    ensures t.next.reservations.Keys == cal.reservations.Keys + {t.output.reservationId}
    ensures t.next.reservations[t.output.reservationId] == t.output
    ensures forall k :: k in cal.reservations && k != t.output.reservationId ==>
      t.next.reservations[k] == cal.reservations[k]
    ensures WellKeyed(cal) ==> WellKeyed(t.next)
  {
    AddReservation(cal, FormatId(now), date, partySize, customerName, phoneNumber)
  }

  /** The record stored under `id`, or None when there is none. */
  function GetReservation(cal: Calendar, id: string): (r: Option<Reservation>)
    ensures r.Some? <==> id in cal.reservations
    ensures r.Some? ==> r.value == cal.reservations[id]
  {
    if id in cal.reservations then Some(cal.reservations[id]) else None
  }

  /**
    Marks the record under `id` cancelled and reports whether there was one.
    Cancelling an already cancelled record reports true again.
   */
  function CancelReservation(cal: Calendar, id: string): (t: Transition<bool>)
    ensures t.output <==> id in cal.reservations
    ensures !t.output ==> t.next == cal
    ensures t.next.reservations.Keys == cal.reservations.Keys
    ensures t.output ==> t.next.reservations[id].status == Cancelled
    ensures t.output ==> SameDetails(t.next.reservations[id], cal.reservations[id])
    ensures forall k :: k in cal.reservations && k != id ==>
      t.next.reservations[k] == cal.reservations[k]
    ensures WellKeyed(cal) ==> WellKeyed(t.next)
  {
    if id in cal.reservations then
      var r := cal.reservations[id];
      Transition(Calendar(cal.reservations[id := r.(status := Cancelled)]), true)
    else
      Transition(cal, false)
  }

  /** Number of slots the availability query lists. */
  const SlotCount: nat := 12

  /**
    Minute of the day of the i-th listed slot: half-hourly from 11:00 for
    the lunch sitting (six slots), then half-hourly from 18:00 for dinner.
   */
  function SlotMinute(i: nat): (m: nat)
    requires i < SlotCount
    ensures m < MinutesPerDay
  {
    if i < 6 then 11 * 60 + 30 * i else 18 * 60 + 30 * (i - 6)
  }

  /**
    The bookable times for a date and party size. A placeholder: the same
    twelve times whatever the arguments and whatever is booked.
   */
  function GetAvailableTimes(cal: Calendar, date: DateTime, partySize: int): (times: seq<string>)
    ensures |times| == SlotCount
    ensures forall i :: 0 <= i < |times| ==> ParseTime(times[i]) == Some(SlotMinute(i))
    ensures StrictlyAscending(times)
  {
    ListedTimesParse();
    ListedTimes
  }

  const ListedTimes: seq<string> := [
    "11:00", "11:30", "12:00", "12:30", "13:00", "13:30",
    "18:00", "18:30", "19:00", "19:30", "20:00", "20:30" ]

  lemma ListedTimesParse()
    ensures |ListedTimes| == SlotCount
    ensures forall i :: 0 <= i < SlotCount ==> ParseTime(ListedTimes[i]) == Some(SlotMinute(i))
  {
    forall i | 0 <= i < SlotCount
      ensures ParseTime(ListedTimes[i]) == Some(SlotMinute(i))
    {
      if i < 6 {
        LunchTimeFormats(i);
      } else {
        DinnerTimeFormats(i);
      }
      ParseFormatTime(SlotMinute(i));
    }
  }

  lemma LunchTimeFormats(i: nat)
    requires i < 6
    ensures ListedTimes[i] == FormatTime(SlotMinute(i))
  {
    FormatTimeChars(SlotMinute(i));
  }

  lemma DinnerTimeFormats(i: nat)
    requires 6 <= i < SlotCount
    ensures ListedTimes[i] == FormatTime(SlotMinute(i))
  {
    FormatTimeChars(SlotMinute(i));
    assert SlotMinute(i) / 60 == 18 + (i - 6) / 2;
    assert SlotMinute(i) % 60 == 30 * (i % 2);
  }

  /** Whether a slot is free. A placeholder: every slot is. */
  function CheckAvailability(cal: Calendar, date: DateTime, time: string, partySize: int): (available: bool)
    ensures available
  {
    true
  }
}

/**
  The calendar as a state machine: one call of any of its five methods is a
  step, and a sequence of calls is a run. The properties here hold for every
  run, whatever the calls and their order.
 */
module CalendarMachine {
  import opened Wrappers
  import opened ReservationIds
  import opened ReservationCalendar

  /** A call of one of the calendar's methods, with its arguments. */
  datatype Op =
    | Add(id: string, date: DateTime, partySize: int, customerName: string, phoneNumber: string)
    | Get(id: string)
    | Cancel(id: string)
    | AvailableTimes(date: DateTime, partySize: int)
    | IsAvailable(date: DateTime, time: string, partySize: int)
  {
    /** The calls that only read the calendar. */
    predicate IsQuery() {
      Get? || AvailableTimes? || IsAvailable?
    }

    /** This call may replace the record stored under `key`. */
    predicate Overwrites(key: string) {
      Add? && id == key
    }

    /** This call may change the record stored under `key`: an add or a cancel of that id. */
    predicate Touches(key: string) {
      (Add? || Cancel?) && id == key
    }
  }

  /** What a call returns. */
  datatype Output =
    | Added(reservation: Reservation)
    | Found(found: Option<Reservation>)
    | CancelOutcome(cancelled: bool)
    | Times(times: seq<string>)
    | Availability(available: bool)

  /** One call. */
  function Apply(cal: Calendar, op: Op): (t: Transition<Output>)
    ensures op.IsQuery() ==> t.next == cal
    ensures cal.reservations.Keys <= t.next.reservations.Keys
    ensures WellKeyed(cal) ==> WellKeyed(t.next)
    ensures forall k :: k in cal.reservations && !op.Overwrites(k) ==>
      && SameDetails(cal.reservations[k], t.next.reservations[k])
      && (cal.reservations[k].status == Cancelled ==> t.next.reservations[k].status == Cancelled)
    ensures forall k :: k in cal.reservations && !op.Touches(k) ==>
      k in t.next.reservations && t.next.reservations[k] == cal.reservations[k]
  {
    match op
    case Add(id, date, partySize, customerName, phoneNumber) =>
      var s := AddReservation(cal, id, date, partySize, customerName, phoneNumber);
      Transition(s.next, Added(s.output))
    case Get(id) =>
      Transition(cal, Found(GetReservation(cal, id)))
    case Cancel(id) =>
      var s := CancelReservation(cal, id);
      Transition(s.next, CancelOutcome(s.output))
    case AvailableTimes(date, partySize) =>
      Transition(cal, Times(GetAvailableTimes(cal, date, partySize)))
    case IsAvailable(date, time, partySize) =>
      Transition(cal, Availability(CheckAvailability(cal, date, time, partySize)))
  }

  /**
    The calendar after a sequence of calls. Reservations are never removed,
    and every record stays stored under its own id.
   */
  function Run(cal: Calendar, ops: seq<Op>): (r: Calendar)
    ensures cal.reservations.Keys <= r.reservations.Keys
    ensures WellKeyed(cal) ==> WellKeyed(r)
    decreases |ops|
  {
    if |ops| == 0 then cal
    else Run(Apply(cal, ops[0]).next, ops[1..])
  }

  /** Some call in the run may replace the record stored under `key`. */
  predicate OverwrittenIn(ops: seq<Op>, key: string) {
    exists i :: 0 <= i < |ops| && ops[i].Overwrites(key)
  }

  /**
    A reservation that no add in the run overwrites keeps its details; its
    status can only go from confirmed to cancelled, never back.
   */
  lemma {:induction false} RunKeepsDetails(cal: Calendar, ops: seq<Op>, key: string)
    requires key in cal.reservations
    requires !OverwrittenIn(ops, key)
    ensures key in Run(cal, ops).reservations
    ensures SameDetails(cal.reservations[key], Run(cal, ops).reservations[key])
    ensures cal.reservations[key].status == Cancelled ==>
      Run(cal, ops).reservations[key].status == Cancelled
    decreases |ops|
  {
    if |ops| > 0 {
      var next := Apply(cal, ops[0]).next;
      assert !ops[0].Overwrites(key);
      assert !OverwrittenIn(ops[1..], key) by {
        forall i | 0 <= i < |ops[1..]| ensures !ops[1..][i].Overwrites(key) {
          assert ops[1..][i] == ops[i + 1];
        }
      }
      RunKeepsDetails(next, ops[1..], key);
    }
  }

  /** A run made only of queries leaves the calendar as it was. */
  lemma {:induction false} QueriesLeaveCalendar(cal: Calendar, ops: seq<Op>)
    requires forall i :: 0 <= i < |ops| ==> ops[i].IsQuery()
    ensures Run(cal, ops) == cal
    decreases |ops|
  {
    if |ops| > 0 {
      assert ops[0].IsQuery();
      assert Apply(cal, ops[0]).next == cal;
      assert forall i :: 0 <= i < |ops[1..]| ==> ops[1..][i] == ops[i + 1];
      QueriesLeaveCalendar(cal, ops[1..]);
    }
  }

  /** Some call in the run is an add or a cancel of `key`. */
  predicate TouchedIn(ops: seq<Op>, key: string) {
    exists i :: 0 <= i < |ops| && ops[i].Touches(key)
  }

  /**
    A reservation that no call in the run adds or cancels stays exactly as
    stored, status included: calls on other ids never reach it.
   */
  lemma {:induction false} RunLeavesUntouched(cal: Calendar, ops: seq<Op>, key: string)
    requires key in cal.reservations
    requires !TouchedIn(ops, key)
    ensures key in Run(cal, ops).reservations
    ensures Run(cal, ops).reservations[key] == cal.reservations[key]
    decreases |ops|
  {
    if |ops| > 0 {
      var next := Apply(cal, ops[0]).next;
      assert !ops[0].Touches(key);
      assert !TouchedIn(ops[1..], key) by {
        forall i | 0 <= i < |ops[1..]| ensures !ops[1..][i].Touches(key) {
          assert ops[1..][i] == ops[i + 1];
        }
      }
      RunLeavesUntouched(next, ops[1..], key);
    }
  }
}

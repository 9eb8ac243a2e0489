/**
  Properties relating the calendar's operations to one another: lookups
  after adds and cancels, overwriting on an id collision, and idempotent
  cancellation.
 */
module CalendarProperties {
  import opened Wrappers
  import opened ReservationIds
  import opened ReservationCalendar

  /**
    After an add, looking the id up returns the record the add returned:
    confirmed, carrying exactly the given details. Other ids look up as before.
   */
  lemma AddThenGet(
    cal: Calendar, id: string, date: DateTime, partySize: int,
    customerName: string, phoneNumber: string, other: string)
    ensures var t := AddReservation(cal, id, date, partySize, customerName, phoneNumber);
      && GetReservation(t.next, id) == Some(t.output)
      && GetReservation(t.next, id) == Some(Reservation(id, date, partySize, customerName, phoneNumber, Confirmed))
      && (other != id ==> GetReservation(t.next, other) == GetReservation(cal, other))
  {
  }

  /**
    Adding under an id already present replaces that one record and keeps
    the number of reservations; adding under a new id grows it by one.
   */
  lemma AddSize(
    cal: Calendar, id: string, date: DateTime, partySize: int,
    customerName: string, phoneNumber: string)
    ensures var t := AddReservation(cal, id, date, partySize, customerName, phoneNumber);
      && (id in cal.reservations ==> |t.next.reservations| == |cal.reservations|)
      && (id !in cal.reservations ==> |t.next.reservations| == |cal.reservations| + 1)
  {
    var t := AddReservation(cal, id, date, partySize, customerName, phoneNumber);
    if id !in cal.reservations {
      assert t.next.reservations.Keys == cal.reservations.Keys + {id};
      assert |t.next.reservations.Keys| == |cal.reservations.Keys| + 1;
    } else {
      assert t.next.reservations.Keys == cal.reservations.Keys;
    }
  }

  /**
    Two adds whose clock readings fall in the same second produce the same
    id: the second record replaces the first, leaving one entry for both.
   */
  lemma SameSecondAddsCollide(
    cal: Calendar, now1: DateTime, now2: DateTime,
    date1: DateTime, partySize1: int, customerName1: string, phoneNumber1: string,
    date2: DateTime, partySize2: int, customerName2: string, phoneNumber2: string)
    requires ValidClock(now1) && ValidClock(now2)
    requires ToStamp(now1) == ToStamp(now2)
    ensures var t1 := AddReservationAt(cal, now1, date1, partySize1, customerName1, phoneNumber1);
      var t2 := AddReservationAt(t1.next, now2, date2, partySize2, customerName2, phoneNumber2);
      && t1.output.reservationId == t2.output.reservationId
      && t2.next.reservations.Keys == cal.reservations.Keys + {t1.output.reservationId}
      && GetReservation(t2.next, t1.output.reservationId) == Some(t2.output)
  {
    FormatIdCollision(now1, now2);
  }

  /** Two adds in different seconds produce different ids, and both records are kept. */
  lemma DifferentSecondAddsKeepBoth(
    cal: Calendar, now1: DateTime, now2: DateTime,
    date1: DateTime, partySize1: int, customerName1: string, phoneNumber1: string,
    date2: DateTime, partySize2: int, customerName2: string, phoneNumber2: string)
    requires ValidClock(now1) && ValidClock(now2)
    requires ToStamp(now1) != ToStamp(now2)
    ensures var t1 := AddReservationAt(cal, now1, date1, partySize1, customerName1, phoneNumber1);
      var t2 := AddReservationAt(t1.next, now2, date2, partySize2, customerName2, phoneNumber2);
      && t1.output.reservationId != t2.output.reservationId
      && GetReservation(t2.next, t1.output.reservationId) == Some(t1.output)
      && GetReservation(t2.next, t2.output.reservationId) == Some(t2.output)
  {
    FormatIdCollision(now1, now2);
  }

  /**
    After cancelling a known id, the lookup returns the same reservation with
    status cancelled; after cancelling an unknown id, every lookup is as before.
   */
  lemma CancelThenGet(cal: Calendar, id: string, other: string)
    ensures var t := CancelReservation(cal, id);
      && (id in cal.reservations ==>
            GetReservation(t.next, id) == Some(cal.reservations[id].(status := Cancelled)))
      && (id !in cal.reservations ==> GetReservation(t.next, other) == GetReservation(cal, other))
      && (other != id ==> GetReservation(t.next, other) == GetReservation(cal, other))
  {
  }

  /**
    Cancelling twice is cancelling once: the second call returns what the
    first did (true for a known id, again) and changes nothing further.
   */
  lemma CancelIdempotent(cal: Calendar, id: string)
    ensures var t1 := CancelReservation(cal, id);
      var t2 := CancelReservation(t1.next, id);
      t2.output == t1.output && t2.next == t1.next
  {
  }

  /** Cancelling a known id succeeds whether or not it was already cancelled. */
  lemma CancelKnownAlwaysSucceeds(cal: Calendar, id: string)
    requires id in cal.reservations
    ensures CancelReservation(cal, id).output
    ensures CancelReservation(CancelReservation(cal, id).next, id).output
  {
  }

  /** The availability queries ignore their arguments. */
  lemma QueriesIgnoreArguments(
    cal1: Calendar, date1: DateTime, time1: string, partySize1: int,
    cal2: Calendar, date2: DateTime, time2: string, partySize2: int)
    ensures GetAvailableTimes(cal1, date1, partySize1) == GetAvailableTimes(cal2, date2, partySize2)
    ensures CheckAvailability(cal1, date1, time1, partySize1) == CheckAvailability(cal2, date2, time2, partySize2)
  {
  }
}

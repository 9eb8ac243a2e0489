# Reservation calendar model

A Dafny model of the in-memory reservation store of the voice reservation
assistant: `ReservationCalendar` in `app/calendar.py`. The store maps a
reservation id to a reservation record. The record holds the id, date, party
size, customer name, phone number and a status that starts as "confirmed". The
calendar offers five operations:

- add a reservation under an id generated from the clock;
- look a reservation up by id;
- cancel a reservation;
- list the available times (a placeholder);
- check whether a slot is available (a placeholder).

The Python class changes its dictionary in place. In the model the calendar is
an immutable value (`Calendar`, wrapping `map<string, Reservation>`). Each
operation returns a `Transition`: the calendar after the call, plus the call's
result. The clock is a parameter, never read. Lookups and the two availability
queries return no calendar at all, so "they do not modify the store" holds by
construction. `CalendarMachine` still states it for every run of calls.

Files:

- `wrappers.dfy`: the `Option` type that stands in for Python's `None`.
- `decimal.dfy`: zero-padded decimal digit strings and their values.
- `reservation_ids.dfy`: the id format `RES-` + `%Y%m%d%H%M%S`, and its parser.
- `time_slots.dfy`: "HH:MM" times, their parser, and ascending order of times.
- `calendar.dfy`: the record, the calendar and its five operations.
- `calendar_properties.dfy`: lemmas relating the operations to each other.
- `calendar_machine.dfy`: the operations as steps of a state machine, with
  properties of every run.

Two behaviours of the code are worth knowing, and the model keeps both:

- Cancelling a known id a second time returns `true` again and changes nothing.
- Ids are not unique. Two adds whose clock readings fall in the same second get
  the same id, and the later record replaces the earlier one.

## Model

| member | source | states |
|---|---|---|
| ReservationCalendar.NewCalendar | app/calendar.py:19-20 | a new calendar holds no reservations, and every record in it is stored under its own id |
| ReservationCalendar.Status.Name | app/calendar.py:13 | a status reads "confirmed" exactly when it is the initial status and "cancelled" exactly when it is the one cancel writes (line 50) |
| ReservationCalendar.AddReservation | app/calendar.py:22-41 | the returned record is confirmed and carries exactly the given id, date, party size, name and phone; it is the record now stored under the id; the id set grows by that id alone; every other entry is unchanged (an existing entry under the id is replaced); records stay stored under their own ids |
| ReservationCalendar.AddReservationAt | app/calendar.py:30-41 | the id reads back as the clock reading's second, so by FormatParseId it is exactly the "RES-" formatting of that second; the returned record is confirmed and carries exactly the given date, party size, name and phone; it is stored under that id, the id set grows by it alone, every other entry is unchanged, and records stay stored under their own ids |
| ReservationCalendar.GetReservation | app/calendar.py:43-45 | a record is returned exactly when the id is present, and it is the stored one; otherwise None |
| ReservationCalendar.CancelReservation | app/calendar.py:47-52 | returns true exactly when the id is known; for an unknown id the calendar is unchanged; for a known id that record's status becomes cancelled, its other fields stay, every other entry and the id set stay |
| ReservationCalendar.GetAvailableTimes | app/calendar.py:54-65 | always twelve entries whatever the calendar, date and party size; entry i is the HH:MM text of the i-th half-hour slot, 11:00 to 13:30 for lunch and then 18:00 to 20:30 for dinner; every entry is a well-formed time and the list is strictly ascending |
| ReservationCalendar.CheckAvailability | app/calendar.py:67-76 | every slot is reported available |
| ReservationIds.FormatId | app/calendar.py:30 | the id is 18 characters long and parses back to the clock reading's year, month, day, hour, minute and second |
| ReservationIds.ParseFormatStamp | app/calendar.py:30 | formatting a time stamp as an id and parsing it back gives the same stamp |
| ReservationIds.FormatParseId | app/calendar.py:30 | any text that parses as an id is exactly the formatting of the stamp it parses to |
| ReservationIds.FormatIdCollision | app/calendar.py:30 | two clock readings give the same id if and only if they agree down to the second |
| TimeSlots.ParseFormatTime | app/calendar.py:62-65 | formatting a minute of the day as HH:MM and parsing it back gives the same minute; this backs GetAvailableTimes' contract, which names each listed text by the minute it parses to |
| TimeSlots.FormatParseTime | app/calendar.py:62-65 | any text that parses as HH:MM is exactly the formatting of the minute it names, so the minutes in GetAvailableTimes' contract fix each listed text exactly |
| CalendarProperties.AddThenGet | app/calendar.py:30-45 | after an add, looking up its id returns the record the add returned, confirmed and with the given details; lookups of other ids are as before |
| CalendarProperties.AddSize | app/calendar.py:40 | an add under a present id keeps the number of reservations; under a new id it grows by one |
| CalendarProperties.SameSecondAddsCollide | app/calendar.py:30-40 | two adds in the same clock second get the same id, and only the second record remains under it |
| CalendarProperties.DifferentSecondAddsKeepBoth | app/calendar.py:30-40 | two adds in different seconds get different ids, and both records can be looked up |
| CalendarProperties.CancelThenGet | app/calendar.py:43-52 | after cancelling a known id, the lookup returns the same record with status cancelled; cancelling an unknown id changes no lookup; other ids look up as before |
| CalendarProperties.CancelIdempotent | app/calendar.py:49-52 | a second cancel of the same id returns what the first returned and leaves the calendar as the first left it |
| CalendarProperties.CancelKnownAlwaysSucceeds | app/calendar.py:49-51 | cancelling a known id returns true, and cancelling it again returns true again |
| CalendarProperties.QueriesIgnoreArguments | app/calendar.py:54-76 | the two availability queries give the same answer for any calendar, date, time and party size |
| CalendarMachine.Apply | app/calendar.py:22-76 | a lookup or availability query leaves the calendar unchanged; no call removes an id; records stay stored under their own ids; a record that the call does not overwrite keeps its details, and a cancelled one stays cancelled; a record whose id the call neither adds nor cancels stays exactly as stored |
| CalendarMachine.Run | app/calendar.py:16-76 | over any sequence of calls, no reservation is ever removed, and every record stays stored under its own id |
| CalendarMachine.RunKeepsDetails | app/calendar.py:40-50 | over any run with no add under its id, a reservation keeps its id, date, party size, name and phone, and once cancelled it stays cancelled |
| CalendarMachine.RunLeavesUntouched | app/calendar.py:40-50 | over any run with no add and no cancel of its id, a reservation stays exactly as stored, status included |
| CalendarMachine.QueriesLeaveCalendar | app/calendar.py:43-76 | a run of lookups and availability queries leaves the calendar exactly as it was |

## Left out

- The clock: `datetime.now()` is not read. The model takes the clock reading as a parameter (`AddReservationAt`), or the finished id (`AddReservation`).
- AddReservationAt: requires a clock reading with a four-digit year and in-range fields. strftime's `%Y` padding for years below 1000 differs between platforms.
- Field validation: the date is an opaque value that is carried but never interpreted, and party size, name and phone are taken as given. The model does not cover type checking or coercion of the record's fields.
- Object identity: in Python, the record that `add_reservation` returns is the same object as the stored one, so a later cancel also changes the status seen through that reference. The model uses values, so the returned record is a snapshot from the moment of the add.
- Status as free text: the record's status may hold any string. The model has only the two values the calendar ever writes, "confirmed" and "cancelled" (`Status.Name` gives the text).
- `app/agent.py`: the language-model agent and its tool stubs. These are calls into an external library and service.
- `app/main.py`: web routes that return fixed responses.
- `app/config.py`: loading settings from the environment.
- Tests, the live network script and packaging metadata.

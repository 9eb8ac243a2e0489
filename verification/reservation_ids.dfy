/**
  Reservation identifiers. The calendar names each new reservation
  "RES-" followed by the current clock reading in the strftime format
  %Y%m%d%H%M%S (app/calendar.py:30). The clock itself is outside the model:
  the reading is a parameter.
 */
module ReservationIds {
  import opened Wrappers
  import opened Decimal

  /** A calendar date and wall-clock time, with the fields of Python's datetime. */
  datatype DateTime = DateTime(
    year: int, month: int, day: int,
    hour: int, minute: int, second: int, microsecond: int)

  /** Clock readings the id format covers: four-digit years and in-range fields. */
  predicate ValidClock(t: DateTime) {
    && 1000 <= t.year <= 9999
    && 1 <= t.month <= 12
    && 1 <= t.day <= 31
    && 0 <= t.hour <= 23
    && 0 <= t.minute <= 59
    && 0 <= t.second <= 59
    && 0 <= t.microsecond <= 999999
  }

  /** The part of a clock reading an id keeps: everything down to the whole second. */
  datatype Stamp = Stamp(year: nat, month: nat, day: nat, hour: nat, minute: nat, second: nat)

  /** Every field fits its fixed-width slot in the id. */
  predicate Fits(st: Stamp) {
    st.year < 10000 && st.month < 100 && st.day < 100
    && st.hour < 100 && st.minute < 100 && st.second < 100
  }

  const Prefix: string := "RES-"

  /** Length of an id: the prefix and fourteen digits. */
  const IdLength: nat := 18

  function ToStamp(t: DateTime): (st: Stamp)
    requires ValidClock(t)
    ensures Fits(st)
  {
    Stamp(t.year, t.month, t.day, t.hour, t.minute, t.second)
  }

  function FormatStamp(st: Stamp): (id: string)
    requires Fits(st)
    ensures |id| == IdLength
    ensures id[..4] == Prefix
    ensures AllDigits(id[4..])
  {
    Prefix + Digits(st.year, 4) + Digits(st.month, 2) + Digits(st.day, 2)
    + Digits(st.hour, 2) + Digits(st.minute, 2) + Digits(st.second, 2)
  }

  /** The id generated at clock reading `now`. */
  function FormatId(now: DateTime): (id: string)
    requires ValidClock(now)
    ensures |id| == IdLength
    ensures ParseId(id) == Some(ToStamp(now))
  {
    ParseFormatStamp(ToStamp(now));
    FormatStamp(ToStamp(now))
  }

  /** Reads an id back into the second it was generated in; None for anything else. */
  function ParseId(id: string): Option<Stamp> {
    if |id| == IdLength && id[..4] == Prefix && AllDigits(id[4..]) then
      assert forall i :: 4 <= i < IdLength ==> IsDigit(id[i]) by {
        forall i | 4 <= i < IdLength ensures IsDigit(id[i]) {
          assert id[4..][i - 4] == id[i];
        }
      }
      Some(Stamp(ValueOf(id[4..8]), ValueOf(id[8..10]), ValueOf(id[10..12]),
                 ValueOf(id[12..14]), ValueOf(id[14..16]), ValueOf(id[16..18])))
    else None
  }

  /** Formatting then parsing a stamp gives the stamp back. */
  lemma ParseFormatStamp(st: Stamp)
    requires Fits(st)
    ensures ParseId(FormatStamp(st)) == Some(st)
  {
    var y, mo, d := Digits(st.year, 4), Digits(st.month, 2), Digits(st.day, 2);
    var h, mi, s := Digits(st.hour, 2), Digits(st.minute, 2), Digits(st.second, 2);
    var id := FormatStamp(st);
    assert id == Prefix + y + mo + d + h + mi + s;
    assert id[4..8] == y;
    assert id[8..10] == mo;
    assert id[10..12] == d;
    assert id[12..14] == h;
    assert id[14..16] == mi;
    assert id[16..18] == s;
    ValueOfDigits(st.year, 4);
    ValueOfDigits(st.month, 2);
    ValueOfDigits(st.day, 2);
    ValueOfDigits(st.hour, 2);
    ValueOfDigits(st.minute, 2);
    ValueOfDigits(st.second, 2);
  }

  /** Whatever parses as an id is exactly the formatting of what it parses to. */
  lemma FormatParseId(id: string)
    requires ParseId(id).Some?
    ensures Fits(ParseId(id).value)
    ensures FormatStamp(ParseId(id).value) == id
  {
    var st := ParseId(id).value;
    var y, mo, d := id[4..8], id[8..10], id[10..12];
    var h, mi, s := id[12..14], id[14..16], id[16..18];
    DigitSlices(id);
    assert st == Stamp(ValueOf(y), ValueOf(mo), ValueOf(d), ValueOf(h), ValueOf(mi), ValueOf(s));
    DigitsOfValue(y);
    DigitsOfValue(mo);
    DigitsOfValue(d);
    DigitsOfValue(h);
    DigitsOfValue(mi);
    DigitsOfValue(s);
    SplitId(id);
  }

  lemma DigitSlices(id: string)
    requires |id| == IdLength && AllDigits(id[4..])
    ensures AllDigits(id[4..8]) && AllDigits(id[8..10]) && AllDigits(id[10..12])
    ensures AllDigits(id[12..14]) && AllDigits(id[14..16]) && AllDigits(id[16..18])
  {
    assert forall i :: 4 <= i < IdLength ==> IsDigit(id[i]) by {
      forall i | 4 <= i < IdLength ensures IsDigit(id[i]) {
        assert id[4..][i - 4] == id[i];
      }
    }
  }

  lemma SplitId(id: string)
    requires |id| == IdLength
    ensures id == id[..4] + id[4..8] + id[8..10] + id[10..12] + id[12..14] + id[14..16] + id[16..18]
  {
  }

  /**
    Two clock readings give the same id exactly when they fall in the same
    second: microseconds are dropped, every other field is kept.
   */
  lemma FormatIdCollision(a: DateTime, b: DateTime)
    requires ValidClock(a) && ValidClock(b)
    ensures FormatId(a) == FormatId(b) <==> ToStamp(a) == ToStamp(b)
  {
  }
}

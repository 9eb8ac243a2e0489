/**
  Times of day as the calendar's availability query writes them: "HH:MM",
  two zero-padded digits each, on a 24-hour clock.
 */
module TimeSlots {
  import opened Wrappers
  import opened Decimal

  const MinutesPerDay: nat := 24 * 60

  /** The "HH:MM" text of a minute of the day. */
  function FormatTime(minutes: nat): (s: string)
    requires minutes < MinutesPerDay
    ensures |s| == 5
  {
    Digits(minutes / 60, 2) + ":" + Digits(minutes % 60, 2)
  }

  /** FormatTime spelled out character by character. */
  lemma FormatTimeChars(minutes: nat)
    requires minutes < MinutesPerDay
    ensures FormatTime(minutes) == [
      DigitChar(minutes / 60 / 10), DigitChar(minutes / 60 % 10), ':',
      DigitChar(minutes % 60 / 10), DigitChar(minutes % 60 % 10)]
  {
    assert Digits(minutes / 60, 2) == [DigitChar(minutes / 60 / 10), DigitChar(minutes / 60 % 10)];
    assert Digits(minutes % 60, 2) == [DigitChar(minutes % 60 / 10), DigitChar(minutes % 60 % 10)];
  }

  /** The minute of the day an "HH:MM" text names; None if it is not one. */
  function ParseTime(s: string): Option<nat> {
    if |s| == 5 && s[2] == ':' && AllDigits(s[..2]) && AllDigits(s[3..])
       && ValueOf(s[..2]) < 24 && ValueOf(s[3..]) < 60
    then Some(60 * ValueOf(s[..2]) + ValueOf(s[3..]))
    else None
  }

  /** Formatting then parsing a minute of the day gives it back. */
  lemma ParseFormatTime(minutes: nat)
    requires minutes < MinutesPerDay
    ensures ParseTime(FormatTime(minutes)) == Some(minutes)
  {
    var s := FormatTime(minutes);
    assert s[..2] == Digits(minutes / 60, 2);
    assert s[3..] == Digits(minutes % 60, 2);
    ValueOfDigits(minutes / 60, 2);
    ValueOfDigits(minutes % 60, 2);
  }

  /** Whatever parses as a time is exactly the formatting of the minute it names. */
  lemma FormatParseTime(s: string)
    requires ParseTime(s).Some?
    ensures ParseTime(s).value < MinutesPerDay
    ensures FormatTime(ParseTime(s).value) == s
  {
    var h, m := ValueOf(s[..2]), ValueOf(s[3..]);
    var t := 60 * h + m;
    assert ParseTime(s) == Some(t);
    assert h < 24 && m < 60;
    assert t < MinutesPerDay;
    DivModSixty(h, m);
    DigitsOfValue(s[..2]);
    DigitsOfValue(s[3..]);
    calc {
      FormatTime(t);
      Digits(h, 2) + ":" + Digits(m, 2);
      s[..2] + ":" + s[3..];
      { assert s == s[..2] + [s[2]] + s[3..]; }
      s;
    }
  }

  lemma DivModSixty(h: nat, m: nat)
    requires m < 60
    ensures (60 * h + m) / 60 == h
    ensures (60 * h + m) % 60 == m
  {
  }

  /** a names an earlier time of day than b, both being well-formed. */
  predicate Before(a: string, b: string) {
    ParseTime(a).Some? && ParseTime(b).Some? && ParseTime(a).value < ParseTime(b).value
  }

  /** Every element is a well-formed time and each is earlier than all that follow. */
  predicate StrictlyAscending(times: seq<string>) {
    && (forall i :: 0 <= i < |times| ==> ParseTime(times[i]).Some?)
    && (forall i, j :: 0 <= i < j < |times| ==> Before(times[i], times[j]))
  }
}

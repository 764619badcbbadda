/**
 * Calendar dates as (year, month, day) triples, instants as a date plus a
 * time of day, and JavaScript's `toISOString` rendering of an instant.
 * The month is 0-based, as JavaScript's `getMonth` returns it; all instants
 * are read in UTC.
 */
module Dates {
  import opened Wrappers
  import opened Text

  /** `month` is 0..11 (JavaScript's `getMonth`), `day` is 1..31 (`getDate`). */
  datatype Date = Date(year: nat, month: nat, day: nat)

  /** The dates a JavaScript `Date` can report. */
  predicate WellFormed(d: Date) {
    d.month < 12 && 1 <= d.day <= 31
  }

  /** Years `toISOString` writes with exactly four digits. */
  predicate FourDigitYear(d: Date) {
    d.year <= 9999
  }

  datatype DateTime = DateTime(date: Date, hour: nat, minute: nat, second: nat, millis: nat)

  /** The year field of `toISOString`: four digits, or a sign and six digits outside 0..9999. */
  function IsoYear(y: nat): string {
    if y <= 9999 then Pad(y, 4) else "+" + Pad(y, 6)
  }

  /** The `YYYY-MM-DD` part of `toISOString` (the month written 1-based). */
  function IsoDate(d: Date): string {
    IsoYear(d.year) + "-" + Pad(d.month + 1, 2) + "-" + Pad(d.day, 2)
  }

  /** The `HH:mm:ss.sssZ` part of `toISOString`. */
  function IsoTime(t: DateTime): string {
    Pad(t.hour, 2) + ":" + Pad(t.minute, 2) + ":" + Pad(t.second, 2) + "." + Pad(t.millis, 3) + "Z"
  }

  /** A time of day a JavaScript `Date` can report. */
  predicate ValidTime(t: DateTime) {
    t.hour < 24 && t.minute < 60 && t.second < 60 && t.millis < 1000
  }

  /**
   * `toISOString`: `YYYY-MM-DDTHH:mm:ss.sssZ`, always in UTC. For a four-digit
   * year it is the familiar 24-character string.
   */
  function ToIsoString(t: DateTime): (s: string)
    ensures |s| > 0 && s[|s| - 1] == 'Z'
    ensures WellFormed(t.date) && FourDigitYear(t.date) && ValidTime(t) ==> |s| == 24
  {
    if WellFormed(t.date) && FourDigitYear(t.date) && ValidTime(t) then
      IsoDateLength(t.date);
      IsoTimeLength(t);
      IsoDate(t.date) + "T" + IsoTime(t)
    else
      IsoDate(t.date) + "T" + IsoTime(t)
  }

  lemma {:induction false} IsoDateLength(d: Date)
    requires WellFormed(d) && FourDigitYear(d)
    ensures |IsoDate(d)| == 10
  {
    assert IsoDate(d) == Pad(d.year, 4) + "-" + Pad(d.month + 1, 2) + "-" + Pad(d.day, 2);
    Pow10Small();
    PadRoundTrip(d.year, 4);
    PadRoundTrip(d.month + 1, 2);
    PadRoundTrip(d.day, 2);
  }

  lemma {:induction false} IsoTimeLength(t: DateTime)
    requires ValidTime(t)
    ensures |IsoTime(t)| == 13
  {
    assert IsoTime(t) == Pad(t.hour, 2) + ":" + Pad(t.minute, 2) + ":" + Pad(t.second, 2) + "." + Pad(t.millis, 3) + "Z";
    Pow10Small();
    PadRoundTrip(t.hour, 2);
    PadRoundTrip(t.minute, 2);
    PadRoundTrip(t.second, 2);
    PadRoundTrip(t.millis, 3);
  }

  /** `t.toISOString().split("T")[0]`, as the pages compute a day key. */
  function IsoDayKey(t: DateTime): (s: string)
    ensures s == IsoDate(t.date)
  {
    NoSeparatorInIsoDate(t.date);
    BeforeFirstOf(IsoDate(t.date), 'T', IsoTime(t));
    BeforeFirst(ToIsoString(t), 'T')
  }

  lemma {:induction false} NoSeparatorInIsoDate(d: Date)
    ensures 'T' !in IsoDate(d)
  {
  }

  /** Reads a `YYYY-MM-DD` text back into a date. */
  function ParseIsoDate(s: string): Option<Date> {
    if |s| == 10 && s[4] == '-' && s[7] == '-'
       && AllDigits(s[..4]) && AllDigits(s[5..7]) && AllDigits(s[8..])
       && DigitsValue(s[5..7]) >= 1
    then Some(Date(DigitsValue(s[..4]), DigitsValue(s[5..7]) - 1, DigitsValue(s[8..])))
    else None
  }

  lemma {:induction false} ParseDashed(a: string, b: string, c: string)
    requires |a| == 4 && |b| == 2 && |c| == 2
    requires AllDigits(a) && AllDigits(b) && AllDigits(c) && DigitsValue(b) >= 1
    ensures ParseIsoDate(a + "-" + b + "-" + c)
            == Some(Date(DigitsValue(a), DigitsValue(b) - 1, DigitsValue(c)))
  {
    var s := a + "-" + b + "-" + c;
    assert s[..4] == a && s[5..7] == b && s[8..] == c;
  }

  lemma {:induction false} IsoDateRoundTrip(d: Date)
    requires WellFormed(d) && FourDigitYear(d)
    ensures ParseIsoDate(IsoDate(d)) == Some(d)
  {
    var y, m, dd := Pad(d.year, 4), Pad(d.month + 1, 2), Pad(d.day, 2);
    assert IsoDate(d) == y + "-" + m + "-" + dd;
    Pow10Small();
    PadRoundTrip(d.year, 4);
    PadRoundTrip(d.month + 1, 2);
    PadRoundTrip(d.day, 2);
    ParseDashed(y, m, dd);
  }

  /** Two dates in the four-digit range have the same ISO day key exactly when they are equal. */
  lemma {:induction false} IsoDateInjective(a: Date, b: Date)
    requires WellFormed(a) && FourDigitYear(a) && WellFormed(b) && FourDigitYear(b)
    ensures IsoDate(a) == IsoDate(b) <==> a == b
  {
    IsoDateRoundTrip(a);
    IsoDateRoundTrip(b);
  }
}

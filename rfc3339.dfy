/**
 * The `date-time` form of section 5.6 of RFC 3339, as Go's time.Parse(time.RFC3339, s)
 * checks it on its strict path: "YYYY-MM-DDThh:mm:ss", an optional fraction of a second
 * (".d+"), then "Z" or "+hh:mm" / "-hh:mm". The day must exist in its month, seconds stop
 * at 59 (no leap second), and the letters T and Z are upper-case.
 */
module Rfc3339 {
  import opened Wrappers

  predicate IsDigit(c: char) { '0' <= c <= '9' }

  predicate AllDigits(s: string) { forall i :: 0 <= i < |s| ==> IsDigit(s[i]) }

  function DigitValue(c: char): nat
    requires IsDigit(c)
  {
    c as int - '0' as int
  }

  function DigitChar(d: nat): (c: char)
    requires d < 10
    ensures IsDigit(c) && DigitValue(c) == d
  {
    ('0' as int + d) as char
  }

  /** The two-digit number written at positions i and i + 1. */
  function Num2(s: string, i: nat): nat
    requires i + 2 <= |s| && IsDigit(s[i]) && IsDigit(s[i + 1])
  {
    DigitValue(s[i]) * 10 + DigitValue(s[i + 1])
  }

  /** The four-digit number written at positions i to i + 3. */
  function Num4(s: string, i: nat): nat
    requires i + 4 <= |s| && IsDigit(s[i]) && IsDigit(s[i + 1]) && IsDigit(s[i + 2]) && IsDigit(s[i + 3])
  {
    Num2(s, i) * 100 + Num2(s, i + 2)
  }

  function IsLeapYear(year: nat): bool
  {
    year % 4 == 0 && (year % 100 != 0 || year % 400 == 0)
  }

  function DaysIn(month: nat, year: nat): nat
  {
    if month == 2 then (if IsLeapYear(year) then 29 else 28)
    else if month == 4 || month == 6 || month == 9 || month == 11 then 30
    else 31
  }

  /** The time-offset: "Z", or a signed hours-and-minutes offset from UTC. */
  datatype Offset = Utc | Numeric(negative: bool, hours: nat, minutes: nat)

  /** A parsed timestamp: the calendar fields, the fraction digits as written, and the offset. */
  datatype DateTime = DateTime(
    year: nat, month: nat, day: nat,
    hour: nat, minute: nat, second: nat,
    fraction: string,
    offset: Offset)

  /** Go's zero time.Time, January 1 of year 1, 00:00:00 UTC: what an absent time field holds. */
  const ZeroTime := DateTime(1, 1, 1, 0, 0, 0, "", Utc)

  predicate ValidOffset(o: Offset)
  {
    o.Numeric? ==> o.hours <= 23 && o.minutes <= 59
  }

  /** The timestamps the grammar can denote. */
  predicate Valid(t: DateTime)
  {
    && t.year <= 9999
    && 1 <= t.month <= 12
    && 1 <= t.day <= DaysIn(t.month, t.year)
    && t.hour <= 23 && t.minute <= 59 && t.second <= 59
    && AllDigits(t.fraction)
    && ValidOffset(t.offset)
  }

  function Pad2(n: nat): (s: string)
    requires n < 100
    ensures |s| == 2 && AllDigits(s)
  {
    [DigitChar(n / 10), DigitChar(n % 10)]
  }

  /** The first 19 characters of the text of t: "YYYY-MM-DDThh:mm:ss". */
  function Stamp(t: DateTime): (s: string)
    requires Valid(t)
    ensures |s| == 19
  {
    var y1, y2 := Pad2(t.year / 100), Pad2(t.year % 100);
    var mo, d := Pad2(t.month), Pad2(t.day);
    var h, mi, se := Pad2(t.hour), Pad2(t.minute), Pad2(t.second);
    [y1[0], y1[1], y2[0], y2[1], '-', mo[0], mo[1], '-', d[0], d[1], 'T',
     h[0], h[1], ':', mi[0], mi[1], ':', se[0], se[1]]
  }

  function FractionText(fraction: string): string
  {
    if fraction == "" then "" else "." + fraction
  }

  function OffsetText(o: Offset): (s: string)
    requires ValidOffset(o)
  {
    match o
    case Utc => "Z"
    case Numeric(negative, hours, minutes) =>
      var h, m := Pad2(hours), Pad2(minutes);
      [if negative then '-' else '+', h[0], h[1], ':', m[0], m[1]]
  }

  /**
   * The RFC 3339 text of a timestamp, fraction digits as written. This is the model's own
   * text form, the inverse of Parse; it is not time.Format, which writes no fraction.
   */
  function Format(t: DateTime): string
    requires Valid(t)
  {
    Stamp(t) + FractionText(t.fraction) + OffsetText(t.offset)
  }

  /** The length of the run of digits at the start of s. */
  function DigitRun(s: string): (n: nat)
    ensures n <= |s| && AllDigits(s[..n]) && (n < |s| ==> !IsDigit(s[n]))
  {
    if |s| == 0 || !IsDigit(s[0]) then 0
    else
      var n := 1 + DigitRun(s[1..]);
      assert s[..n] == [s[0]] + s[1..][..n - 1];
      n
  }

  /** How many characters of `rest` the fraction takes: its dot and its digits, or nothing. */
  function FractionLength(rest: string): (n: nat)
    ensures n <= |rest|
  {
    if |rest| >= 2 && rest[0] == '.' && IsDigit(rest[1]) then 1 + DigitRun(rest[1..]) else 0
  }

  predicate StampShape(s: string)
    requires |s| >= 19
  {
    && IsDigit(s[0]) && IsDigit(s[1]) && IsDigit(s[2]) && IsDigit(s[3]) && s[4] == '-'
    && IsDigit(s[5]) && IsDigit(s[6]) && s[7] == '-'
    && IsDigit(s[8]) && IsDigit(s[9]) && s[10] == 'T'
    && IsDigit(s[11]) && IsDigit(s[12]) && s[13] == ':'
    && IsDigit(s[14]) && IsDigit(s[15]) && s[16] == ':'
    && IsDigit(s[17]) && IsDigit(s[18])
  }

  function ParseOffset(z: string): Option<Offset>
  {
    if z == "Z" then Some(Utc)
    else if |z| == 6 && (z[0] == '+' || z[0] == '-') && IsDigit(z[1]) && IsDigit(z[2]) && z[3] == ':'
            && IsDigit(z[4]) && IsDigit(z[5]) && Num2(z, 1) <= 23 && Num2(z, 4) <= 59
    then Some(Numeric(z[0] == '-', Num2(z, 1), Num2(z, 4)))
    else None
  }

  /** The six calendar and clock numbers of a "YYYY-MM-DDThh:mm:ss" prefix. */
  datatype Fields = Fields(year: nat, month: nat, day: nat, hour: nat, minute: nat, second: nat)

  function StampFields(s: string): Fields
    requires |s| >= 19 && StampShape(s)
  {
    Fields(Num4(s, 0), Num2(s, 5), Num2(s, 8), Num2(s, 11), Num2(s, 14), Num2(s, 17))
  }

  predicate InRange(f: Fields)
  {
    1 <= f.month <= 12 && 1 <= f.day <= DaysIn(f.month, f.year) && f.hour <= 23 && f.minute <= 59 && f.second <= 59
  }

  /** time.Parse(time.RFC3339, s): the timestamp s denotes, or None when s is not of that form. */
  function Parse(s: string): (r: Option<DateTime>)
    ensures r.Some? ==> Valid(r.value)
  {
    if |s| < 19 || !StampShape(s) then None
    else
      var f := StampFields(s);
      if !InRange(f) then None
      else
        var rest := s[19..];
        var n := FractionLength(rest);
        var offset := ParseOffset(rest[n..]);
        if offset.None? then None
        else
          assert n > 0 ==> rest[1..n] == rest[1..][..n - 1];
          Some(DateTime(f.year, f.month, f.day, f.hour, f.minute, f.second,
                           if n == 0 then "" else rest[1..n], offset.value))
  }

  // ----- Round trip -----

  lemma Pad2Num2(n: nat)
    requires n < 100
    ensures Num2(Pad2(n), 0) == n
  {
  }

  lemma Num2Pad2(s: string, i: nat)
    requires i + 2 <= |s| && IsDigit(s[i]) && IsDigit(s[i + 1])
    ensures Num2(s, i) < 100 && Pad2(Num2(s, i)) == s[i..i + 2]
  {
    var a, b := DigitValue(s[i]), DigitValue(s[i + 1]);
    assert (a * 10 + b) / 10 == a && (a * 10 + b) % 10 == b;
    assert DigitChar(a) == s[i] && DigitChar(b) == s[i + 1];
  }

  lemma {:induction false} DigitRunStops(f: string, z: string)
    requires AllDigits(f) && (|z| == 0 || !IsDigit(z[0]))
    ensures DigitRun(f + z) == |f|
    decreases |f|
  {
    if |f| > 0 {
      assert (f + z)[1..] == f[1..] + z;
      DigitRunStops(f[1..], z);
    }
  }

  lemma OffsetRoundTrip(o: Offset)
    requires ValidOffset(o)
    ensures ParseOffset(OffsetText(o)) == Some(o)
  {
    if o.Numeric? {
      Pad2Num2(o.hours);
      Pad2Num2(o.minutes);
    }
  }

  lemma TailRoundTrip(fraction: string, o: Offset)
    requires AllDigits(fraction) && ValidOffset(o)
    ensures var rest := FractionText(fraction) + OffsetText(o);
            var n := FractionLength(rest);
            n == |FractionText(fraction)| && rest[n..] == OffsetText(o)
            && (if n == 0 then "" else rest[1..n]) == fraction
  {
    var rest := FractionText(fraction) + OffsetText(o);
    if fraction != "" {
      assert rest[1..] == fraction + OffsetText(o);
      DigitRunStops(fraction, OffsetText(o));
      assert rest[1..1 + |fraction|] == fraction;
    }
  }

  lemma YearDigits(y: nat)
    requires y <= 9999
    ensures y / 100 < 100 && (y / 100) * 100 + y % 100 == y
  {
  }

  /** Two characters that spell Pad2(n) read back as n. */
  lemma Num2Of(s: string, i: nat, n: nat)
    requires n < 100 && i + 2 <= |s| && s[i] == Pad2(n)[0] && s[i + 1] == Pad2(n)[1]
    ensures IsDigit(s[i]) && IsDigit(s[i + 1]) && Num2(s, i) == n
  {
    Pad2Num2(n);
  }

  /** The stamp of t, followed by anything, reads back as t's six numbers. */
  lemma StampRoundTrip(t: DateTime, tail: string)
    requires Valid(t)
    ensures var s := Stamp(t) + tail;
            StampShape(s) && StampFields(s) == Fields(t.year, t.month, t.day, t.hour, t.minute, t.second)
  {
    var s := Stamp(t) + tail;
    var st := Stamp(t);
    assert forall i :: 0 <= i < 19 ==> s[i] == st[i];
    YearDigits(t.year);
    Num2Of(s, 0, t.year / 100);
    Num2Of(s, 2, t.year % 100);
    Num2Of(s, 5, t.month);
    Num2Of(s, 8, t.day);
    Num2Of(s, 11, t.hour);
    Num2Of(s, 14, t.minute);
    Num2Of(s, 17, t.second);
  }

  /** A well-shaped stamp is the stamp of the numbers read from it. */
  lemma StampOfFields(s: string, t: DateTime)
    requires |s| >= 19 && StampShape(s) && Valid(t)
    requires StampFields(s) == Fields(t.year, t.month, t.day, t.hour, t.minute, t.second)
    ensures Stamp(t) == s[..19]
  {
    Num2Pad2(s, 0);
    Num2Pad2(s, 2);
    Num2Pad2(s, 5);
    Num2Pad2(s, 8);
    Num2Pad2(s, 11);
    Num2Pad2(s, 14);
    Num2Pad2(s, 17);
    assert t.year / 100 == Num2(s, 0) && t.year % 100 == Num2(s, 2);
  }

  /** Parse accepts a text whose stamp, fraction and offset each read back as t's. */
  lemma ParseAccepts(s: string, t: DateTime, n: nat)
    requires Valid(t) && |s| >= 19 && StampShape(s)
    requires StampFields(s) == Fields(t.year, t.month, t.day, t.hour, t.minute, t.second)
    requires FractionLength(s[19..]) == n
    requires (if n == 0 then "" else s[19..][1..n]) == t.fraction
    requires ParseOffset(s[19..][n..]) == Some(t.offset)
    ensures Parse(s) == Some(t)
  {
  }

  /** Parsing the text of a timestamp gives that timestamp back. */
  lemma ParseFormat(t: DateTime)
    requires Valid(t)
    ensures Parse(Format(t)) == Some(t)
  {
    var tail := FractionText(t.fraction) + OffsetText(t.offset);
    var s := Stamp(t) + tail;
    assert Format(t) == s;
    StampRoundTrip(t, tail);
    assert s[19..] == tail;
    TailRoundTrip(t.fraction, t.offset);
    OffsetRoundTrip(t.offset);
    ParseAccepts(s, t, FractionLength(tail));
  }

  /** Whatever Parse accepts is a valid timestamp whose text is exactly the input. */
  lemma FormatParse(s: string)
    requires Parse(s).Some?
    ensures Valid(Parse(s).value) && Format(Parse(s).value) == s
  {
    var t := Parse(s).value;
    var rest := s[19..];
    var n := FractionLength(rest);
    assert AllDigits(t.fraction) by {
      if n > 0 {
        assert t.fraction == rest[1..][..n - 1];
      }
    }
    assert FractionText(t.fraction) == rest[..n];
    var z := rest[n..];
    assert ParseOffset(z) == Some(t.offset);
    if z != "Z" {
      Num2Pad2(z, 1);
      Num2Pad2(z, 4);
    }
    assert OffsetText(t.offset) == z;
    StampOfFields(s, t);
    assert s == s[..19] + rest[..n] + z;
  }
}

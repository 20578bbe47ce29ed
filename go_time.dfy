/**
 * Integer model of Go's `time.Time`, `time.Duration`, the `time.Parse` layouts the log tools use,
 * and the 64-bit arithmetic on durations.
 *
 * A `Time` counts nanoseconds since January 1, year 1, 00:00:00 UTC, the instant Go's zero
 * `time.Time{}` denotes, so the zero time is 0. A `Duration` is a signed nanosecond count.
 */
module GoTime {
  import opened Wrappers

  type Time = int
  type Duration = int

  const ZeroTime: Time := 0
  const Second: Duration := 1_000_000_000
  const MinDuration: Duration := -0x8000_0000_0000_0000
  const MaxDuration: Duration := 0x7fff_ffff_ffff_ffff

  /** The values a Go `int64` (and so a `time.Duration`) can hold. */
  predicate IsInt64(x: int) {
    MinDuration <= x <= MaxDuration
  }

  /** `t.Sub(u)`: the exact difference when it fits in an int64, otherwise saturated. */
  function Sub(t: Time, u: Time): (d: Duration)
    ensures IsInt64(d)
    ensures IsInt64(t - u) ==> d == t - u
    ensures !IsInt64(t - u) ==> d == if t < u then MinDuration else MaxDuration
  {
    if t - u < MinDuration then MinDuration
    else if t - u > MaxDuration then MaxDuration
    else t - u
  }

  /** Two's-complement wrap-around of an integer into the int64 range (Go's `+` on int64). */
  function Wrap64(x: int): (r: int)
    ensures IsInt64(r)
    ensures (r - x) % 0x1_0000_0000_0000_0000 == 0
    ensures IsInt64(x) ==> r == x
  {
    (x + 0x8000_0000_0000_0000) % 0x1_0000_0000_0000_0000 - 0x8000_0000_0000_0000
  }

  /** Go's integer division, which truncates toward zero (Dafny's `/` is Euclidean). */
  function Quot(a: int, b: int): (q: int)
    requires b > 0
    ensures a >= 0 ==> q * b <= a < (q + 1) * b
    ensures a < 0 ==> (q - 1) * b < a <= q * b
  {
    if a >= 0 then a / b else -((-a) / b)
  }

  // ---------------------------------------------------------------------------------------------
  // Calendar arithmetic (proleptic Gregorian calendar, as Go's `time.Date` uses)

  predicate IsLeapYear(y: int) {
    y % 4 == 0 && (y % 100 != 0 || y % 400 == 0)
  }

  /** Go's `daysIn`. */
  function DaysIn(month: int, year: int): (n: int)
    ensures 28 <= n <= 31
  {
    if month == 2 then (if IsLeapYear(year) then 29 else 28)
    else if month == 4 || month == 6 || month == 9 || month == 11 then 30
    else 31
  }

  /** Days in the months of `year` before `month`. */
  function DaysBeforeMonth(month: int, year: int): (n: nat)
    decreases month
  {
    if month <= 1 then 0 else DaysBeforeMonth(month - 1, year) + DaysIn(month - 1, year)
  }

  /** Days from January 1, year 1 to January 1 of `year`, for `year >= 1`. */
  function DaysBeforeYear(year: int): (n: int)
    requires year >= 1
    ensures n >= 365 * (year - 1)
  {
    var y := year - 1;
    assert y / 100 <= y / 4 by { DivMonotone(y, 4, 100); }
    365 * y + y / 4 - y / 100 + y / 400
  }

  lemma DivMonotone(y: nat, a: int, b: int)
    requires 0 < a <= b
    ensures y / b <= y / a
  {
    var qa, qb := y / a, y / b;
    assert qb * a <= qb * b <= y by { assert qb >= 0; }
    assert y < (qa + 1) * a;
    MulCancel(qb, qa + 1, a);
  }

  lemma MulCancel(x: int, y: int, a: int)
    requires a > 0 && x * a < y * a
    ensures x < y
  {
  }

  /** The clock fields of a time of day in UTC. */
  datatype DateTime = DateTime(year: int, month: int, day: int, hour: int, minute: int, second: int, nanosecond: int)

  /** The field values Go's `time.Parse` accepts (its range and day-of-month checks). */
  predicate InRange(d: DateTime) {
    && d.year >= 1
    && 1 <= d.month <= 12
    && 1 <= d.day <= DaysIn(d.month, d.year)
    && 0 <= d.hour < 24
    && 0 <= d.minute < 60
    && 0 <= d.second < 60
    && 0 <= d.nanosecond < Second
  }

  /** `time.Date(...)` in UTC, as nanoseconds since the zero time. */
  function ToTime(d: DateTime): (t: Time)
    requires InRange(d)
    ensures t >= (d.year - 1) * 365 * 86400 * Second
  {
    var days := DaysBeforeYear(d.year) + DaysBeforeMonth(d.month, d.year) + d.day - 1;
    ((days * 24 + d.hour) * 60 + d.minute) * 60 * Second + d.second * Second + d.nanosecond
  }

  // ---------------------------------------------------------------------------------------------
  // Layouts

  /** Whether the date reads month/day/year (`01/02/06`) or year/month/day (`06/01/02`). */
  datatype DateOrder = MonthDayYear | YearMonthDay

  /**
   * What may follow the seconds: exactly `digits` fractional digits (layout `.0`, `.00`, `.000`),
   * or, for a layout without a fraction or with `.999`, an optional fraction of any length.
   */
  datatype Fraction = Exact(digits: nat) | Optional

  /** A layout `<date> 15:04:05<fraction>` with a two-digit year. */
  datatype Layout = Layout(order: DateOrder, fraction: Fraction)

  predicate IsDigit(c: char) { '0' <= c <= '9' }

  predicate AllDigits(s: string) { forall i :: 0 <= i < |s| ==> IsDigit(s[i]) }

  /** The decimal value of a string of digits. */
  function DigitsValue(s: string): (v: nat)
    requires AllDigits(s)
  {
    if |s| == 0 then 0 else DigitsValue(s[..|s| - 1]) * 10 + (s[|s| - 1] as int - '0' as int)
  }

  function Pow10(k: nat): (p: nat)
    ensures p >= 1
  {
    if k == 0 then 1 else 10 * Pow10(k - 1)
  }

  lemma DigitsValueBound(s: string)
    requires AllDigits(s)
    ensures DigitsValue(s) < Pow10(|s|)
  {
    if |s| > 0 {
      DigitsValueBound(s[..|s| - 1]);
    }
  }

  /** Go's `parseNanoseconds`: the first nine fractional digits, scaled to nanoseconds. */
  function FractionNanos(digits: string): (ns: nat)
    requires AllDigits(digits)
    ensures ns < Second
  {
    var k := if |digits| > 9 then 9 else |digits|;
    var v := DigitsValue(digits[..k]);
    DigitsValueBound(digits[..k]);
    ScaledBelowSecond(v, k);
    v * Pow10(9 - k)
  }

  /** A number of `k <= 9` digits, scaled up to nine digits, is less than a second in nanoseconds. */
  lemma ScaledBelowSecond(v: nat, k: nat)
    requires k <= 9 && v < Pow10(k)
    ensures v * Pow10(9 - k) < Second
  {
    Pow10Add(k, 9 - k);
    MulStrict(v, Pow10(k), Pow10(9 - k));
    assert Pow10(9) == Second;
  }

  lemma Pow10Add(a: nat, b: nat)
    ensures Pow10(a) * Pow10(b) == Pow10(a + b)
  {
    if a > 0 {
      Pow10Add(a - 1, b);
    }
  }

  lemma MulStrict(v: nat, p: nat, q: nat)
    requires v < p && q >= 1
    ensures v * q < p * q
  {
  }

  predicate IsFractionSeparator(c: char) { c == '.' || c == ',' }

  /** The two-digit number at `s[i..i + 2]`, if both characters are digits. */
  function TwoDigits(s: string, i: nat): Option<nat> {
    if i + 2 <= |s| && IsDigit(s[i]) && IsDigit(s[i + 1])
    then Some((s[i] as int - '0' as int) * 10 + (s[i + 1] as int - '0' as int))
    else None
  }

  /** Index of the first non-space character of `s` at or after `i`. */
  function SkipSpaces(s: string, i: nat): (j: nat)
    requires i <= |s|
    decreases |s| - i
    ensures i <= j <= |s|
    ensures forall k :: i <= k < j ==> s[k] == ' '
    ensures j < |s| ==> s[j] != ' '
  {
    if i < |s| && s[i] == ' ' then SkipSpaces(s, i + 1) else i
  }

  /** Go's two-digit year: 69..99 are 1969..1999, 00..68 are 2000..2068. */
  function FullYear(yy: nat): int {
    if yy >= 69 then 1900 + yy else 2000 + yy
  }

  /**
   * The nanoseconds a fraction text stands for under `f`, or None when Go rejects it.
   * `text` is whatever follows the seconds field.
   */
  function ParseFraction(f: Fraction, text: string): (r: Option<nat>)
    ensures r.Some? ==> r.value < Second
    ensures f.Optional? && text == "" ==> r == Some(0)
  {
    match f
    case Exact(n) =>
      if |text| == n + 1 && IsFractionSeparator(text[0]) && AllDigits(text[1..])
      then Some(FractionNanos(text[1..])) else None
    case Optional =>
      if text == "" then Some(0)
      else if |text| >= 2 && IsFractionSeparator(text[0]) && AllDigits(text[1..])
      then Some(FractionNanos(text[1..])) else None
  }

  /**
   * `time.Parse(layout, s)` for the layouts `<date> 15:04:05<fraction>`: two-digit month, day and
   * year separated by '/', one or more spaces (a layout space matches a run of spaces), an hour of
   * one or two digits, two-digit minutes and seconds, then the fraction; nothing may follow.
   */
  function Parse(layout: Layout, s: string): (r: Option<Time>)
    ensures r.Some? ==> r.value > ZeroTime
  {
    var a, b, c := TwoDigits(s, 0), TwoDigits(s, 3), TwoDigits(s, 6);
    if a.None? || b.None? || c.None? || |s| < 9 || s[2] != '/' || s[5] != '/' || s[8] != ' ' then None
    else
      var h := SkipSpaces(s, 8);
      if h >= |s| || !IsDigit(s[h]) then None
      else
        var hourEnd := if h + 1 < |s| && IsDigit(s[h + 1]) then h + 2 else h + 1;
        var hour := if hourEnd == h + 2 then TwoDigits(s, h).value else s[h] as int - '0' as int;
        var mi, se := TwoDigits(s, hourEnd + 1), TwoDigits(s, hourEnd + 4);
        if hourEnd + 6 > |s| || s[hourEnd] != ':' || mi.None? || s[hourEnd + 3] != ':' || se.None? then None
        else
          var frac := ParseFraction(layout.fraction, s[hourEnd + 6..]);
          var (month, day, yy) := if layout.order == MonthDayYear then (a.value, b.value, c.value)
                                  else (b.value, c.value, a.value);
          var d := DateTime(FullYear(yy), month, day, hour, mi.value, se.value, frac.GetOr(0));
          if frac.None? || !InRange(d) then None else Some(ToTime(d))
  }
}

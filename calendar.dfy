/**
 * The proleptic Gregorian calendar that JavaScript's `Date` uses, over day numbers
 * (days since 1970-01-01) and instants (milliseconds since 1970-01-01T00:00:00Z).
 * It supplies the `getUTC*` fields, `toISOString()` and the local-time constructor
 * `new Date(year, monthIndex, day)` with its month and day overflow.
 */
module Calendar {
  import opened Text

  const SecondMs := 1000
  const MinuteMs := 60_000
  const HourMs := 3_600_000
  const DayMs := 86_400_000
  /** The fixed offset of Japan Standard Time, UTC+09:00. */
  const JstOffsetMs := 32_400_000

  predicate IsLeap(y: int) {
    y % 4 == 0 && (y % 100 != 0 || y % 400 == 0)
  }

  function DaysInYear(y: int): int {
    if IsLeap(y) then 366 else 365
  }

  function DaysInMonth(y: int, m: int): (n: int)
    requires 1 <= m <= 12
    ensures 28 <= n <= 31
  {
    if m == 2 then (if IsLeap(y) then 29 else 28)
    else if m == 4 || m == 6 || m == 9 || m == 11 then 30
    else 31
  }

  /** Days of year `y` before the first day of month `m` (`m == 13` gives the whole year). */
  function MonthStart(y: int, m: int): int
    requires 1 <= m <= 13
  {
    [0, 31, 59, 90, 120, 151, 181, 212, 243, 273, 304, 334, 365][m - 1]
    + (if m > 2 && IsLeap(y) then 1 else 0)
  }

  lemma MonthStartStep(y: int, m: int)
    requires 1 <= m <= 12
    ensures MonthStart(y, m + 1) == MonthStart(y, m) + DaysInMonth(y, m)
    ensures MonthStart(y, 1) == 0 && MonthStart(y, 13) == DaysInYear(y)
  {
  }

  /** The day number of January 1st of year `y`. */
  function YearStart(y: int): int
    decreases if y >= 1970 then y - 1970 else 1970 - y
  {
    if y == 1970 then 0
    else if y > 1970 then YearStart(y - 1) + DaysInYear(y - 1)
    else YearStart(y + 1) - DaysInYear(y)
  }

  lemma YearStartStep(y: int)
    ensures YearStart(y + 1) == YearStart(y) + DaysInYear(y)
  {
  }

  datatype Civil = Civil(year: int, month: int, day: int)

  predicate ValidCivil(c: Civil) {
    1 <= c.month <= 12 && 1 <= c.day <= DaysInMonth(c.year, c.month)
  }

  /** The day number of a valid calendar date. */
  function DaysFromCivil(c: Civil): int
    requires 1 <= c.month <= 12
  {
    YearStart(c.year) + MonthStart(c.year, c.month) + c.day - 1
  }

  function YearUp(z: int, y: int): (r: int)
    requires YearStart(y) <= z
    ensures YearStart(r) <= z < YearStart(r + 1)
    decreases z - YearStart(y)
  {
    YearStartStep(y);
    if z < YearStart(y + 1) then y else YearUp(z, y + 1)
  }

  function YearDown(z: int, y: int): (r: int)
    requires z < YearStart(y + 1)
    ensures YearStart(r) <= z < YearStart(r + 1)
    decreases YearStart(y + 1) - z
  {
    YearStartStep(y);
    if YearStart(y) <= z then y else YearDown(z, y - 1)
  }

  /** The year that contains day `z`. */
  function YearOf(z: int): (y: int)
    ensures YearStart(y) <= z < YearStart(y + 1)
  {
    if z >= 0 then YearUp(z, 1970) else YearDown(z, 1969)
  }

  /** The month of year `y` that contains day-of-year `doy`, searching from month `m`. */
  function MonthOf(y: int, doy: int, m: int): (r: int)
    requires 1 <= m <= 12 && MonthStart(y, m) <= doy < DaysInYear(y)
    ensures m <= r <= 12 && MonthStart(y, r) <= doy < MonthStart(y, r + 1)
    decreases 12 - m
  {
    MonthStartStep(y, m);
    if m == 12 || doy < MonthStart(y, m + 1) then m else MonthOf(y, doy, m + 1)
  }

  /** The calendar date of day number `z`: a valid date that maps back to `z`. */
  function CivilFromDays(z: int): (c: Civil)
    ensures ValidCivil(c) && DaysFromCivil(c) == z
  {
    var y := YearOf(z);
    YearStartStep(y);
    var m := MonthOf(y, z - YearStart(y), 1);
    MonthStartStep(y, m);
    Civil(y, m, z - YearStart(y) - MonthStart(y, m) + 1)
  }

  /** Distinct days have distinct calendar dates. */
  lemma CivilFromDaysInjective(a: int, b: int)
    requires a != b
    ensures CivilFromDays(a) != CivilFromDays(b)
  {
  }

  /**
   * `new Date(year, monthIndex, day)` in local time: month and day may overflow
   * (month index 12 is January of the next year, day 0 the last day of the previous
   * month). Gives the day number of the resulting local date.
   */
  function DaysFromLocalParts(year: int, monthIndex: int, day: int): int {
    var y := year + monthIndex / 12;
    var m := monthIndex % 12 + 1;
    YearStart(y) + MonthStart(y, m) + day - 1
  }

  /** Within range, the local constructor names exactly the date it was given. */
  lemma DaysFromLocalPartsInRange(c: Civil)
    requires ValidCivil(c)
    ensures CivilFromDays(DaysFromLocalParts(c.year, c.month - 1, c.day)) == c
  {
    var z := DaysFromLocalParts(c.year, c.month - 1, c.day);
    assert z == DaysFromCivil(c);
    YearStartStep(c.year);
    MonthStartStep(c.year, c.month);
    var y := YearOf(z);
    YearUnique(z, y, c.year);
    var m := MonthOf(y, z - YearStart(y), 1);
    MonthUnique(y, z - YearStart(y), m, c.month);
  }

  lemma YearStartMonotone(a: int, b: int)
    requires a <= b
    ensures YearStart(a) <= YearStart(b)
    decreases b - a
  {
    if a < b {
      YearStartStep(a);
      YearStartMonotone(a + 1, b);
    }
  }

  lemma YearUnique(z: int, y1: int, y2: int)
    requires YearStart(y1) <= z < YearStart(y1 + 1)
    requires YearStart(y2) <= z < YearStart(y2 + 1)
    ensures y1 == y2
  {
    if y1 < y2 { YearStartMonotone(y1 + 1, y2); }
    if y2 < y1 { YearStartMonotone(y2 + 1, y1); }
  }

  lemma MonthUnique(y: int, doy: int, m1: int, m2: int)
    requires 1 <= m1 <= 12 && 1 <= m2 <= 12
    requires MonthStart(y, m1) <= doy < MonthStart(y, m1 + 1)
    requires MonthStart(y, m2) <= doy < MonthStart(y, m2 + 1)
    ensures m1 == m2
  {
  }

  /** The broken-down UTC fields of an instant (`getUTCFullYear()` … `getUTCMilliseconds()`). */
  datatype DateTime = DateTime(date: Civil, hour: int, minute: int, second: int, millis: int)

  predicate ValidDateTime(t: DateTime) {
    ValidCivil(t.date) && 0 <= t.hour < 24 && 0 <= t.minute < 60
    && 0 <= t.second < 60 && 0 <= t.millis < 1000
  }

  /** The day number of an instant, in UTC. */
  function DayOf(t: int): int {
    t / DayMs
  }

  function UtcFields(t: int): (f: DateTime)
    ensures ValidDateTime(f)
    ensures DaysFromCivil(f.date) == DayOf(t)
    ensures t == DayOf(t) * DayMs + f.hour * HourMs + f.minute * MinuteMs + f.second * SecondMs + f.millis
  {
    var r := t % DayMs;
    var a := r % HourMs;
    var b := a % MinuteMs;
    DateTime(CivilFromDays(t / DayMs), r / HourMs, a / MinuteMs, b / SecondMs, b % SecondMs)
  }

  /** The wall-clock fields of an instant in Japan Standard Time. */
  function JstFields(t: int): (f: DateTime)
    ensures ValidDateTime(f)
  {
    UtcFields(t + JstOffsetMs)
  }

  /** The JST day number of an instant. */
  function JstDay(t: int): int {
    DayOf(t + JstOffsetMs)
  }

  /** The instant of 00:00 JST on JST day `d`. */
  function JstMidnight(d: int): int {
    d * DayMs - JstOffsetMs
  }

  lemma JstDayBounds(t: int)
    ensures JstMidnight(JstDay(t)) <= t < JstMidnight(JstDay(t)) + DayMs
  {
  }

  /** The year as `toISOString()` writes it: four digits, or a sign and six digits outside 0..9999. */
  function IsoYear(y: int): string {
    if 0 <= y <= 9999 then PadStart(Decimal(y), 4, '0')
    else (if y < 0 then "-" else "+") + PadStart(Decimal(if y < 0 then -y else y), 6, '0')
  }

  /** `YYYY-MM-DD` of a calendar date, as the first part of `toISOString()`. */
  function IsoDate(c: Civil): string
    requires ValidCivil(c)
  {
    IsoYear(c.year) + "-" + Pad2(c.month) + "-" + Pad2(c.day)
  }

  /** `new Date(t).toISOString()`. */
  function IsoString(t: int): (s: string)
    ensures |s| >= 10
  {
    var f := UtcFields(t);
    IsoDate(f.date) + "T" + Pad2(f.hour) + ":" + Pad2(f.minute) + ":" + Pad2(f.second)
    + "." + PadStart(Decimal(f.millis), 3, '0') + "Z"
  }

  /** `new Date(t).toISOString().slice(0, 10)`: the UTC date key used to match ledger records. */
  function IsoDateKey(t: int): string {
    Prefix(IsoString(t), 10)
  }

  /** `toISOString()` starts with the date, then `T`, the hour, `:` and the minute. */
  lemma IsoStringStart(u: int)
    ensures var f := UtcFields(u);
      var x := IsoDate(f.date) + "T" + Pad2(f.hour) + ":" + Pad2(f.minute);
      |IsoString(u)| >= |x| && IsoString(u)[..|x|] == x
  {
    var f := UtcFields(u);
    var x := IsoDate(f.date) + "T" + Pad2(f.hour) + ":" + Pad2(f.minute);
    ChainPrefix(x, ":", Pad2(f.second), ".", PadStart(Decimal(f.millis), 3, '0'), "Z");
  }

  lemma IsoYearShape(y: int)
    requires 0 <= y <= 9999
    ensures |IsoYear(y)| == 4 && AllDigits(IsoYear(y)) && DigitsValue(IsoYear(y)) == y
  {
    var d := Decimal(y);
    DigitsRoundTrip(y);
    DigitsLength(y, 4);
    assert Pow10(4) == 10000;
    var p := IsoYear(y);
    assert p[4 - |d|..] == d;
    assert p == p[..4 - |d|] + d;
    LeadingZeros(p[..4 - |d|], d);
  }

  lemma {:induction false} LeadingZeros(z: string, d: string)
    requires forall i | 0 <= i < |z| :: z[i] == '0'
    requires AllDigits(d)
    ensures AllDigits(z + d) && DigitsValue(z + d) == DigitsValue(d)
    decreases |d|
  {
    if d == [] {
      assert z + d == z;
      ZerosValue(z);
    } else {
      var s := z + d;
      assert s[..|s| - 1] == z + d[..|d| - 1];
      LeadingZeros(z, d[..|d| - 1]);
    }
  }

  lemma {:induction false} ZerosValue(z: string)
    requires forall i | 0 <= i < |z| :: z[i] == '0'
    ensures AllDigits(z) && DigitsValue(z) == 0
  {
    if z != [] { ZerosValue(z[..|z| - 1]); }
  }

  /** Within years 0..9999 the date key has the fixed shape `YYYY-MM-DD`. */
  lemma IsoDateShape(c: Civil)
    requires ValidCivil(c) && 0 <= c.year <= 9999
    ensures |IsoDate(c)| == 10
    ensures IsoDate(c)[4] == '-' && IsoDate(c)[7] == '-'
    ensures IsoDate(c)[..4] == IsoYear(c.year)
    ensures IsoDate(c)[5..7] == Pad2(c.month) && IsoDate(c)[8..] == Pad2(c.day)
  {
    IsoYearShape(c.year);
    Pad2Shape(c.month);
    Pad2Shape(c.day);
    DashJoinShape(IsoYear(c.year), Pad2(c.month), Pad2(c.day));
  }

  /** Within years 0..9999 distinct dates have distinct keys. */
  lemma IsoDateInjective(a: Civil, b: Civil)
    requires ValidCivil(a) && 0 <= a.year <= 9999
    requires ValidCivil(b) && 0 <= b.year <= 9999
    requires IsoDate(a) == IsoDate(b)
    ensures a == b
  {
    IsoDateShape(a);
    IsoDateShape(b);
    IsoYearShape(a.year);
    IsoYearShape(b.year);
    Pad2Shape(a.month);
    Pad2Shape(b.month);
    Pad2Shape(a.day);
    Pad2Shape(b.day);
  }

  /** The key `toISOString().slice(0, 10)` of an instant is the ISO date of its UTC day. */
  lemma IsoDateKeyIsDate(t: int)
    requires 0 <= UtcFields(t).date.year <= 9999
    ensures IsoDateKey(t) == IsoDate(UtcFields(t).date)
  {
    var f := UtcFields(t);
    IsoDateShape(f.date);
    IsoStringStart(t);
    TenOfStart(IsoString(t), IsoDate(f.date), "T", Pad2(f.hour), ":", Pad2(f.minute));
  }

  /** A text that starts with a ten-character `d` followed by more pieces has `d` as its first ten. */
  lemma TenOfStart(s: string, d: string, a: string, b: string, c: string, e: string)
    requires |d| == 10
    requires |s| >= |d + a + b + c + e| && s[..|d + a + b + c + e|] == d + a + b + c + e
    ensures Prefix(s, 10) == d
  {
    var x := d + a + b + c + e;
    assert forall i | 0 <= i < 10 :: s[i] == x[i] == d[i];
  }

  /** `toISOString().slice(0, 10)` of any instant of UTC day `d`. */
  function DayKey(d: int): string {
    IsoDate(CivilFromDays(d))
  }

  /** Days whose year has four digits, where date keys have their fixed shape. */
  predicate FourDigitDay(d: int) {
    1000 <= CivilFromDays(d).year <= 9999
  }

  /** Years do not go backwards: a later day lies in the same or a later year. */
  lemma YearMonotone(a: int, b: int)
    requires a <= b
    ensures CivilFromDays(a).year <= CivilFromDays(b).year
  {
    var ya, yb := CivilFromDays(a).year, CivilFromDays(b).year;
    if yb < ya {
      YearStartMonotone(yb + 1, ya);
    }
  }

  /** A day between two four-digit-year days is itself in a four-digit year. */
  lemma FourDigitBetween(a: int, m: int, b: int)
    requires a <= m <= b && FourDigitDay(a) && FourDigitDay(b)
    ensures FourDigitDay(m)
  {
    YearMonotone(a, m);
    YearMonotone(m, b);
  }

  /** The date key of an instant is the key of its UTC day. */
  lemma IsoDateKeyOfDay(t: int)
    requires FourDigitDay(DayOf(t))
    ensures IsoDateKey(t) == DayKey(DayOf(t))
  {
    IsoDateKeyIsDate(t);
  }

  /** Distinct days have distinct keys. */
  lemma DayKeyInjective(a: int, b: int)
    requires FourDigitDay(a) && FourDigitDay(b) && a != b
    ensures DayKey(a) != DayKey(b)
  {
    CivilFromDaysInjective(a, b);
    if DayKey(a) == DayKey(b) {
      IsoDateInjective(CivilFromDays(a), CivilFromDays(b));
    }
  }
}

/**
 * `formatDate` of src/app/utils/date.ts: an instant shown as the Japan Standard Time
 * wall clock, `YYYY-MM-DD HH:mm`. The order list page carries an identical copy.
 */
module JstDate {
  import opened Text
  import opened Calendar

  /** The year as `String(getUTCFullYear())`: unpadded. */
  function FormatJst(t: int): string {
    var f := JstFields(t);
    Decimal(f.date.year) + "-" + Pad2(f.date.month) + "-" + Pad2(f.date.day)
    + " " + Pad2(f.hour) + ":" + Pad2(f.minute)
  }

  /** The number of whole JST minutes since the epoch: what the rendering keeps of an instant. */
  function JstMinute(t: int): int {
    (t + JstOffsetMs) / MinuteMs
  }

  predicate FourDigitYear(t: int) {
    1000 <= JstFields(t).date.year <= 9999
  }

  lemma YearDigits(y: int)
    requires 1000 <= y <= 9999
    ensures |Decimal(y)| == 4 && AllDigits(Decimal(y)) && DigitsValue(Decimal(y)) == y
  {
    assert Pow10(3) == 1000 && Pow10(4) == 10000;
    DigitsLengthExact(y, 4);
    DigitsRoundTrip(y);
  }

  /**
   * For four-digit years the text is 16 characters shaped `YYYY-MM-DD HH:mm`, and its
   * zero-padded fields read back as the JST calendar month (1..12), day, hour (0..23)
   * and minute (0..59) of the instant.
   */
  lemma FormatJstShape(t: int)
    requires FourDigitYear(t)
    ensures var s, f := FormatJst(t), JstFields(t);
      |s| == 16 && s[4] == '-' && s[7] == '-' && s[10] == ' ' && s[13] == ':'
      && AllDigits(s[..4]) && AllDigits(s[5..7]) && AllDigits(s[8..10])
      && AllDigits(s[11..13]) && AllDigits(s[14..])
      && DigitsValue(s[..4]) == f.date.year
      && DigitsValue(s[5..7]) == f.date.month && 1 <= f.date.month <= 12
      && DigitsValue(s[8..10]) == f.date.day && 1 <= f.date.day <= 31
      && DigitsValue(s[11..13]) == f.hour && 0 <= f.hour <= 23
      && DigitsValue(s[14..]) == f.minute && 0 <= f.minute <= 59
  {
    var f := JstFields(t);
    YearDigits(f.date.year);
    Pad2Shape(f.date.month);
    Pad2Shape(f.date.day);
    Pad2Shape(f.hour);
    Pad2Shape(f.minute);
    Layout(Decimal(f.date.year), Pad2(f.date.month), Pad2(f.date.day), Pad2(f.hour), Pad2(f.minute));
  }

  /** Where the five fields sit in `Y-M-D H:m`. */
  lemma Layout(y: string, mo: string, d: string, h: string, mi: string)
    requires |y| == 4 && |mo| == 2 && |d| == 2 && |h| == 2 && |mi| == 2
    ensures var s := y + "-" + mo + "-" + d + " " + h + ":" + mi;
      |s| == 16 && s[4] == '-' && s[7] == '-' && s[10] == ' ' && s[13] == ':'
      && s[..4] == y && s[5..7] == mo && s[8..10] == d && s[11..13] == h && s[14..] == mi
  {
  }

  /** The JST minute number is built from the day, hour and minute fields. */
  lemma JstMinuteFields(t: int)
    ensures var f := JstFields(t);
      JstMinute(t) == DayOf(t + JstOffsetMs) * 1440 + f.hour * 60 + f.minute
  {
    var u := t + JstOffsetMs;
    var f := UtcFields(u);
    var q := DayOf(u) * 1440 + f.hour * 60 + f.minute;
    var r := f.second * SecondMs + f.millis;
    assert u == q * 60_000 + r;
  }

  /** Day, hour and minute fields are recovered from the minute number. */
  lemma MinuteSplit(d1: int, h1: int, m1: int, d2: int, h2: int, m2: int)
    requires 0 <= h1 < 24 && 0 <= m1 < 60 && 0 <= h2 < 24 && 0 <= m2 < 60
    requires d1 * 1440 + h1 * 60 + m1 == d2 * 1440 + h2 * 60 + m2
    ensures d1 == d2 && h1 == h2 && m1 == m2
  {
    var n := d1 * 1440 + h1 * 60 + m1;
    assert n / 1440 == d1 && n / 1440 == d2;
    assert (h1 * 60 + m1) / 60 == h1 && (h2 * 60 + m2) / 60 == h2;
  }

  /**
   * Two instants with four-digit years render to the same text exactly when they fall
   * in the same JST minute: the rendering loses seconds and milliseconds and nothing else.
   */
  lemma FormatJstSameMinute(t1: int, t2: int)
    requires FourDigitYear(t1) && FourDigitYear(t2)
    ensures FormatJst(t1) == FormatJst(t2) <==> JstMinute(t1) == JstMinute(t2)
  {
    if FormatJst(t1) == FormatJst(t2) {
      SameTextSameMinute(t1, t2);
    }
    if JstMinute(t1) == JstMinute(t2) {
      SameMinuteSameText(t1, t2);
    }
  }

  lemma SameTextSameMinute(t1: int, t2: int)
    requires FourDigitYear(t1) && FourDigitYear(t2) && FormatJst(t1) == FormatJst(t2)
    ensures JstMinute(t1) == JstMinute(t2)
  {
    SameTextSameFields(t1, t2);
    JstMinuteFields(t1);
    JstMinuteFields(t2);
  }

  lemma SameTextSameFields(t1: int, t2: int)
    requires FourDigitYear(t1) && FourDigitYear(t2) && FormatJst(t1) == FormatJst(t2)
    ensures JstFields(t1).hour == JstFields(t2).hour && JstFields(t1).minute == JstFields(t2).minute
    ensures DayOf(t1 + JstOffsetMs) == DayOf(t2 + JstOffsetMs)
  {
    var f1, f2 := JstFields(t1), JstFields(t2);
    FormatJstShape(t1);
    FormatJstShape(t2);
    assert f1.date == f2.date;
    assert DaysFromCivil(f1.date) == DayOf(t1 + JstOffsetMs);
    assert DaysFromCivil(f2.date) == DayOf(t2 + JstOffsetMs);
  }

  lemma SameMinuteSameText(t1: int, t2: int)
    requires JstMinute(t1) == JstMinute(t2)
    ensures FormatJst(t1) == FormatJst(t2)
  {
    var f1, f2 := JstFields(t1), JstFields(t2);
    JstMinuteFields(t1);
    JstMinuteFields(t2);
    MinuteSplit(DayOf(t1 + JstOffsetMs), f1.hour, f1.minute, DayOf(t2 + JstOffsetMs), f2.hour, f2.minute);
    assert f1.date == f2.date;
  }
}

/**
 * The completed orders page (src/app/completed-orders/page.tsx): the orders read from the
 * `orders` table newest first are converted, only completed and cancelled ones are kept,
 * and a date filter narrows them to one JST day.
 *
 * `createdAt` is the instant its stored ISO text denotes. The page's `setHours(getHours() + 9)`
 * adds nine hours to that instant, which is exact in a browser running in Japan Standard
 * Time (a zone without daylight saving).
 */
module CompletedOrdersPage {
  import opened Text
  import opened Calendar
  import opened JsValues
  import JstDate

  /** `formatDate`: nine hours later, `toISOString()` cut to the minute, `T` turned into a space. */
  function FormatDate(t: int): (r: string)
    ensures 10 <= |r| <= 16
  {
    ReplaceFirst(Prefix(IsoString(t + JstOffsetMs), 16), 'T', ' ')
  }

  /** `formatDateOnly`: nine hours later, the date part of `toISOString()`. */
  function FormatDateOnly(t: int): (r: string)
    ensures |r| == 10
  {
    Prefix(IsoString(t + JstOffsetMs), 10)
  }

  lemma {:induction false} ReplaceFirstSkips(p: string, s: string, a: char, b: char)
    requires a !in p
    ensures ReplaceFirst(p + s, a, b) == p + ReplaceFirst(s, a, b)
  {
    if p == [] {
      assert p + s == s;
    } else {
      assert (p + s)[1..] == p[1..] + s;
      ReplaceFirstSkips(p[1..], s, a, b);
    }
  }

  lemma NoLetterInPadded(s: string, w: nat)
    requires 'T' !in s
    ensures 'T' !in PadStart(s, w, '0')
  {
    var r := PadStart(s, w, '0');
    forall i | 0 <= i < |r|
      ensures r[i] != 'T'
    {
      if i >= |r| - |s| {
        assert r[i] == r[|r| - |s|..][i - (|r| - |s|)];
      }
    }
  }

  lemma NoLetterInDecimal(n: int)
    ensures 'T' !in Decimal(n)
  {
    var d := Digits(if n < 0 then -n else n);
    assert forall i | 0 <= i < |d| :: IsDigit(d[i]);
  }

  lemma NoLetterInIsoYear(y: int)
    ensures 'T' !in IsoYear(y) && |IsoYear(y)| >= 4
  {
    var m := if y < 0 then -y else y;
    NoLetterInDecimal(m);
    NoLetterInPadded(Decimal(m), 4);
    NoLetterInPadded(Decimal(m), 6);
  }

  lemma NoLetterInPad2(n: nat)
    ensures 'T' !in Pad2(n) && |Pad2(n)| >= 2
  {
    NoLetterInDecimal(n);
    NoLetterInPadded(Decimal(n), 2);
  }

  /** A date as `toISOString()` writes it has no `T`: the separator comes right after it. */
  lemma NoLetterInIsoDate(c: Civil)
    requires ValidCivil(c)
    ensures 'T' !in IsoDate(c) && |IsoDate(c)| >= 10
  {
    NoLetterInIsoYear(c.year);
    NoLetterInPad2(c.month);
    NoLetterInPad2(c.day);
  }

  /** Cutting at 16 and replacing the first `T` leaves ten leading characters without `T` alone. */
  lemma ReplaceKeepsHead(s: string, x: string)
    requires |s| >= |x| >= 10 && s[..|x|] == x && 'T' !in x[..10]
    ensures Prefix(s, 10) == Prefix(ReplaceFirst(Prefix(s, 16), 'T', ' '), 10)
  {
    var p := Prefix(s, 16);
    assert s[..10] == x[..10];
    assert p == s[..10] + p[10..];
    ReplaceFirstSkips(s[..10], p[10..], 'T', ' ');
    assert ReplaceFirst(p, 'T', ' ')[..10] == s[..10];
  }

  /** The first ten characters of `toISOString()` hold no `T`. */
  lemma IsoHeadHasNoLetter(f: DateTime)
    requires ValidDateTime(f)
    ensures var x := IsoDate(f.date) + "T" + Pad2(f.hour) + ":" + Pad2(f.minute);
      |x| >= 10 && 'T' !in x[..10]
  {
    NoLetterInIsoDate(f.date);
    NoLetterInHead(IsoDate(f.date), "T", Pad2(f.hour), ":", Pad2(f.minute));
  }

  /** Pieces appended after a text of at least ten characters without `T` leave the first ten free of it. */
  lemma NoLetterInHead(d: string, a: string, b: string, c: string, e: string)
    requires |d| >= 10 && 'T' !in d
    ensures |d + a + b + c + e| >= 10 && 'T' !in (d + a + b + c + e)[..10]
  {
    var x := d + a + b + c + e;
    assert forall i | 0 <= i < 10 :: x[..10][i] == d[i];
  }

  /** The date-only text is always the first ten characters of the date-and-time text. */
  lemma DateOnlyIsPrefix(t: int)
    ensures FormatDateOnly(t) == Prefix(FormatDate(t), 10)
  {
    IsoHeadKept(t + JstOffsetMs);
  }

  lemma IsoHeadKept(u: int)
    ensures Prefix(IsoString(u), 10) == Prefix(ReplaceFirst(Prefix(IsoString(u), 16), 'T', ' '), 10)
  {
    var f := UtcFields(u);
    var x := IsoDate(f.date) + "T" + Pad2(f.hour) + ":" + Pad2(f.minute);
    IsoStringStart(u);
    IsoHeadHasNoLetter(f);
    ReplaceKeepsHead(IsoString(u), x);
  }

  lemma FourDigitIsoYear(y: int)
    requires 1000 <= y <= 9999
    ensures IsoYear(y) == Decimal(y) && |Decimal(y)| == 4
  {
    JstDate.YearDigits(y);
  }

  /** In date-T-hour:minute with no `T` in the date, the separator is the `T` replaced. */
  lemma ReplaceInLayout(d: string, h: string, mi: string)
    requires 'T' !in d
    ensures ReplaceFirst(d + "T" + h + ":" + mi, 'T', ' ') == d + " " + h + ":" + mi
  {
    var rest := h + ":" + mi;
    assert d + "T" + h + ":" + mi == d + ("T" + rest);
    ReplaceFirstSkips(d, "T" + rest, 'T', ' ');
    assert ("T" + rest)[1..] == rest;
    assert d + (" " + rest) == d + " " + h + ":" + mi;
  }

  /** With a four-digit year, replacing the `T` of date-T-hour:minute gives the JST layout. */
  lemma SeparatorReplaced(f: DateTime)
    requires ValidDateTime(f) && 1000 <= f.date.year <= 9999
    ensures var x := IsoDate(f.date) + "T" + Pad2(f.hour) + ":" + Pad2(f.minute);
      |x| == 16
      && ReplaceFirst(x, 'T', ' ')
         == Decimal(f.date.year) + "-" + Pad2(f.date.month) + "-" + Pad2(f.date.day)
            + " " + Pad2(f.hour) + ":" + Pad2(f.minute)
  {
    FourDigitIsoYear(f.date.year);
    NoLetterInIsoDate(f.date);
    IsoDateShape(f.date);
    Pad2Shape(f.hour);
    Pad2Shape(f.minute);
    ReplaceInLayout(IsoDate(f.date), Pad2(f.hour), Pad2(f.minute));
  }

  lemma MinuteTextAt(u: int)
    requires 1000 <= UtcFields(u).date.year <= 9999
    ensures var f := UtcFields(u);
      ReplaceFirst(Prefix(IsoString(u), 16), 'T', ' ')
      == Decimal(f.date.year) + "-" + Pad2(f.date.month) + "-" + Pad2(f.date.day)
         + " " + Pad2(f.hour) + ":" + Pad2(f.minute)
  {
    var f := UtcFields(u);
    IsoStringStart(u);
    SeparatorReplaced(f);
  }

  /**
   * For four-digit years the page's own formatter writes the same text as the shared JST
   * formatter: `YYYY-MM-DD HH:mm`.
   */
  lemma FormatDateIsJst(t: int)
    requires JstDate.FourDigitYear(t)
    ensures FormatDate(t) == JstDate.FormatJst(t)
  {
    MinuteTextAt(t + JstOffsetMs);
  }

  /**
   * The date filter compares with the JST calendar date of the order: for years 0..9999 the
   * date-only text is the ISO date of the JST day.
   */
  lemma DateOnlyIsJstDay(t: int)
    requires 0 <= JstFields(t).date.year <= 9999
    ensures FormatDateOnly(t) == DayKey(JstDay(t))
  {
    IsoDateKeyIsDate(t + JstOffsetMs);
  }

  datatype DrinkType = Ice | Hot

  /** A row of the `orders` table, with the columns the page reads. */
  datatype Row = Row(id: Json, createdAt: int, drinkType: Json, menu: Json, price: Json, status: Json)

  datatype Order = Order(id: Json, createdAt: int, drinkType: DrinkType, menu: Json, price: Json, status: Json)

  /** The `map` step: `drink_type === "ice" ? "ice" : "hot"`; everything else is copied. */
  function ToOrder(r: Row): (o: Order)
    ensures o.drinkType == Ice <==> r.drinkType == Str("ice")
    ensures o.id == r.id && o.createdAt == r.createdAt && o.status == r.status
    ensures o.menu == r.menu && o.price == r.price
  {
    Order(r.id, r.createdAt, if r.drinkType == Str("ice") then Ice else Hot, r.menu, r.price, r.status)
  }

  predicate Finished(status: Json) {
    status == Str("completed") || status == Str("cancelled")
  }

  /** `converted`: the rows mapped, keeping the completed and cancelled ones. */
  function Converted(rows: seq<Row>): (r: seq<Order>)
    ensures |r| <= |rows|
    ensures forall o :: o in r <==> exists row | row in rows :: Finished(row.status) && o == ToOrder(row)
  {
    if rows == [] then []
    else
      var rest := Converted(rows[1..]);
      assert forall row :: row in rows <==> row == rows[0] || row in rows[1..];
      if Finished(rows[0].status) then [ToOrder(rows[0])] + rest else rest
  }

  /** `filteredOrders`: all orders for an empty filter, else those of the filter's JST date. */
  function Shown(orders: seq<Order>, filterDate: string): (r: seq<Order>)
    ensures filterDate == "" ==> r == orders
    ensures filterDate != "" ==> forall o :: o in r <==> o in orders && FormatDateOnly(o.createdAt) == filterDate
    ensures |r| <= |orders|
  {
    if filterDate == "" then orders else OnDate(orders, filterDate, FormatDateOnly)
  }

  /** The orders whose creation instant has the given date text under `dateOf`. */
  function OnDate(orders: seq<Order>, filterDate: string, dateOf: int -> string): (r: seq<Order>)
    ensures forall o :: o in r <==> o in orders && dateOf(o.createdAt) == filterDate
    ensures |r| <= |orders|
  {
    if orders == [] then []
    else
      var rest := OnDate(orders[1..], filterDate, dateOf);
      assert forall o :: o in orders <==> o == orders[0] || o in orders[1..];
      if dateOf(orders[0].createdAt) == filterDate then [orders[0]] + rest else rest
  }

  /** Newest first, as `order("createdAt", { ascending: false })` returns them. */
  predicate NewestFirstRows(rows: seq<Row>) {
    forall i, j | 0 <= i < j < |rows| :: rows[i].createdAt >= rows[j].createdAt
  }

  predicate NewestFirst(orders: seq<Order>) {
    forall i, j | 0 <= i < j < |orders| :: orders[i].createdAt >= orders[j].createdAt
  }

  /** The conversion keeps the rows newest first. */
  lemma {:induction false} ConvertedNewestFirst(rows: seq<Row>)
    requires NewestFirstRows(rows)
    ensures NewestFirst(Converted(rows))
  {
    if rows != [] {
      ConvertedNewestFirst(rows[1..]);
      var rest := Converted(rows[1..]);
      forall o | o in rest
        ensures rows[0].createdAt >= o.createdAt
      {
        var row :| row in rows[1..] && Finished(row.status) && o == ToOrder(row);
        var k :| 0 <= k < |rows[1..]| && rows[1..][k] == row;
        assert rows[k + 1] == row;
      }
    }
  }

  /** The date filter keeps the orders newest first. */
  lemma {:induction false} ShownNewestFirst(orders: seq<Order>, filterDate: string)
    requires NewestFirst(orders)
    ensures NewestFirst(Shown(orders, filterDate))
  {
    if filterDate != "" {
      OnDateNewestFirst(orders, filterDate, FormatDateOnly);
    }
  }

  lemma {:induction false} OnDateNewestFirst(orders: seq<Order>, filterDate: string, dateOf: int -> string)
    requires NewestFirst(orders)
    ensures NewestFirst(OnDate(orders, filterDate, dateOf))
  {
    if orders != [] {
      OnDateNewestFirst(orders[1..], filterDate, dateOf);
      var rest := OnDate(orders[1..], filterDate, dateOf);
      forall o | o in rest
        ensures orders[0].createdAt >= o.createdAt
      {
        var k :| 0 <= k < |orders[1..]| && orders[1..][k] == o;
        assert orders[k + 1] == o;
      }
    }
  }
}

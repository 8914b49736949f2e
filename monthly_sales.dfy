/**
 * The integer part of the monthly sales page (src/app/monthly-sales/page.tsx): per month of
 * a year, and per day of a month, the number of early-shift and late-shift orders and the
 * cash taken. The averages drawn from these figures are floating point and not modelled.
 *
 * Orders are the rows the page fetches; their JST wall-clock fields are those of
 * `dayjs.utc(createdAt).tz('Asia/Tokyo')`, and a JST date (`format('YYYY-MM-DD')`) is
 * represented by its JST day number.
 */
module MonthlySales {
  import opened Calendar

  datatype SalesOrder = SalesOrder(createdAt: int, status: string, paymentMethod: string, price: int)

  function Jst(o: SalesOrder): DateTime {
    JstFields(o.createdAt)
  }

  /** `hour < 16 || (hour === 16 && minute <= 50)`: the early shift runs up to 16:50:59. */
  predicate EarlyAt(f: DateTime) {
    f.hour < 16 || (f.hour == 16 && f.minute <= 50)
  }

  /** An instant is early when less than 16 h 51 min of its JST day have passed. */
  lemma EarlyIffBeforeCutoff(t: int)
    ensures EarlyAt(JstFields(t)) <==> (t + JstOffsetMs) % DayMs < 16 * HourMs + 51 * MinuteMs
  {
    var r := (t + JstOffsetMs) % DayMs;
    var f := JstFields(t);
    assert f.hour == r / HourMs && f.minute == (r % HourMs) / MinuteMs;
  }

  /** Number of orders satisfying `p`. */
  function Count(orders: seq<SalesOrder>, p: SalesOrder -> bool): nat {
    if orders == [] then 0
    else Count(orders[..|orders| - 1], p) + (if p(orders[|orders| - 1]) then 1 else 0)
  }

  /** Sum of the prices of the orders satisfying `p`. */
  function PriceSum(orders: seq<SalesOrder>, p: SalesOrder -> bool): int {
    if orders == [] then 0
    else PriceSum(orders[..|orders| - 1], p) + (if p(orders[|orders| - 1]) then orders[|orders| - 1].price else 0)
  }

  predicate IsCash(o: SalesOrder) {
    o.status == "completed" && o.paymentMethod == "現金"
  }

  // ---------------------------------------------------------------- monthly view

  datatype MonthStat = MonthStat(
    year: int, month: int,
    earlyCount: nat, earlyDays: set<int>,
    lateCount: nat, lateDays: set<int>,
    totalDays: set<int>,
    cashTotal: int, cashDays: set<int>)

  function EmptyMonth(year: int, month: int): MonthStat {
    MonthStat(year, month, 0, {}, 0, {}, {}, 0, {})
  }

  /** The twelve buckets `${year}-1` … `${year}-12`, in month order. */
  function InitialMonths(year: int): (r: seq<MonthStat>)
    ensures |r| == 12 && forall i | 0 <= i < 12 :: r[i] == EmptyMonth(year, i + 1)
  {
    seq(12, i => EmptyMonth(year, i + 1))
  }

  /** One order added to its month's bucket. */
  function Bump(s: MonthStat, o: SalesOrder): MonthStat {
    var day := JstDay(o.createdAt);
    var s1 := if EarlyAt(Jst(o)) then s.(earlyCount := s.earlyCount + 1, earlyDays := s.earlyDays + {day})
              else s.(lateCount := s.lateCount + 1, lateDays := s.lateDays + {day});
    var s2 := s1.(totalDays := s1.totalDays + {day});
    if IsCash(o) then s2.(cashTotal := s2.cashTotal + o.price, cashDays := s2.cashDays + {day}) else s2
  }

  /** The body of the `forEach`: orders of other years are skipped. */
  function CountOrder(stats: seq<MonthStat>, year: int, o: SalesOrder): (r: seq<MonthStat>)
    requires |stats| == 12
    ensures |r| == 12
  {
    var f := Jst(o);
    if f.date.year != year then stats
    else stats[f.date.month - 1 := Bump(stats[f.date.month - 1], o)]
  }

  function Monthly(orders: seq<SalesOrder>, year: int): (r: seq<MonthStat>)
    ensures |r| == 12
  {
    if orders == [] then InitialMonths(year)
    else CountOrder(Monthly(orders[..|orders| - 1], year), year, orders[|orders| - 1])
  }

  predicate InMonth(o: SalesOrder, year: int, month: int) {
    Jst(o).date.year == year && Jst(o).date.month == month
  }

  predicate EarlyIn(o: SalesOrder, year: int, month: int) {
    InMonth(o, year, month) && EarlyAt(Jst(o))
  }

  predicate LateIn(o: SalesOrder, year: int, month: int) {
    InMonth(o, year, month) && !EarlyAt(Jst(o))
  }

  predicate CashIn(o: SalesOrder, year: int, month: int) {
    InMonth(o, year, month) && IsCash(o)
  }

  /** The bucket of month `m` after one more order: bumped exactly when the order is in that month. */
  lemma MonthlyStep(orders: seq<SalesOrder>, year: int, m: int)
    requires 1 <= m <= 12 && orders != []
    ensures var o, s := orders[|orders| - 1], Monthly(orders[..|orders| - 1], year)[m - 1];
      Monthly(orders, year)[m - 1] == if InMonth(o, year, m) then Bump(s, o) else s
  {
  }

  /** Month `m`'s bucket is labelled with its year and month. */
  lemma {:induction false} MonthlyLabels(orders: seq<SalesOrder>, year: int, m: int)
    requires 1 <= m <= 12
    ensures Monthly(orders, year)[m - 1].year == year && Monthly(orders, year)[m - 1].month == m
  {
    if orders != [] {
      MonthlyStep(orders, year, m);
      MonthlyLabels(orders[..|orders| - 1], year, m);
    }
  }

  /**
   * Every order of JST month `m` is counted, whatever its status, as early or as late.
   */
  lemma {:induction false} MonthlyCounts(orders: seq<SalesOrder>, year: int, m: int)
    requires 1 <= m <= 12
    ensures var s := Monthly(orders, year)[m - 1];
      s.earlyCount == Count(orders, o => EarlyIn(o, year, m))
      && s.lateCount == Count(orders, o => LateIn(o, year, m))
      && s.earlyCount + s.lateCount == Count(orders, o => InMonth(o, year, m))
  {
    if orders != [] {
      MonthlyStep(orders, year, m);
      MonthlyCounts(orders[..|orders| - 1], year, m);
    }
  }

  /** Month `m`'s cash total sums the prices of its completed 現金 orders. */
  lemma {:induction false} MonthlyCash(orders: seq<SalesOrder>, year: int, m: int)
    requires 1 <= m <= 12
    ensures Monthly(orders, year)[m - 1].cashTotal == PriceSum(orders, o => CashIn(o, year, m))
  {
    if orders != [] {
      MonthlyStep(orders, year, m);
      MonthlyCash(orders[..|orders| - 1], year, m);
    }
  }

  /** Month `m`'s set of trading days holds exactly the JST dates of its orders. */
  lemma {:induction false} MonthlyDays(orders: seq<SalesOrder>, year: int, m: int)
    requires 1 <= m <= 12
    ensures Monthly(orders, year)[m - 1].totalDays == DaysIn(orders, year, m)
  {
    if orders != [] {
      var init, last := orders[..|orders| - 1], orders[|orders| - 1];
      MonthlyStep(orders, year, m);
      MonthlyDays(init, year, m);
      assert orders == init + [last];
      DaysInSnoc(init, last, year, m);
    }
  }

  /** The JST dates of the orders of month `m`. */
  function DaysIn(orders: seq<SalesOrder>, year: int, m: int): set<int> {
    set o | o in orders && InMonth(o, year, m) :: JstDay(o.createdAt)
  }

  lemma DaysInSnoc(init: seq<SalesOrder>, last: SalesOrder, year: int, m: int)
    ensures DaysIn(init + [last], year, m)
      == DaysIn(init, year, m) + (if InMonth(last, year, m) then {JstDay(last.createdAt)} else {})
  {
    assert forall o :: o in init + [last] <==> o in init || o == last;
  }

  /** The page's two loops: create the twelve buckets, then add every order. */
  method FetchMonthly(orders: seq<SalesOrder>, year: int) returns (stats: seq<MonthStat>)
    ensures stats == Monthly(orders, year)
  {
    stats := [];
    var month := 1;
    while month <= 12
      invariant 1 <= month <= 13
      invariant stats == InitialMonths(year)[..month - 1]
    {
      stats := stats + [EmptyMonth(year, month)];
      month := month + 1;
    }
    var i := 0;
    while i < |orders|
      invariant 0 <= i <= |orders|
      invariant stats == Monthly(orders[..i], year)
    {
      assert orders[..i + 1][..i] == orders[..i];
      stats := CountOrder(stats, year, orders[i]);
      i := i + 1;
    }
    assert orders[..i] == orders;
  }

  // ---------------------------------------------------------------- daily view

  datatype DayStat = DayStat(earlyCount: nat, lateCount: nat, cashTotal: int)

  datatype DayRow = DayRow(day: int, earlyCount: nat, lateCount: nat, totalCount: nat, cashTotal: int)

  /** One zeroed entry per day `1..daysInMonth`. */
  function InitialDays(year: int, month: int): (r: seq<DayStat>)
    requires 1 <= month <= 12
    ensures |r| == DaysInMonth(year, month)
  {
    seq(DaysInMonth(year, month), i => DayStat(0, 0, 0))
  }

  /** The body of the `forEach`: only completed orders of a day of the month count. */
  function CountDay(stats: seq<DayStat>, year: int, month: int, o: SalesOrder): (r: seq<DayStat>)
    requires 1 <= month <= 12 && |stats| == DaysInMonth(year, month)
    ensures |r| == |stats|
  {
    var f := Jst(o);
    if o.status != "completed" || !InMonth(o, year, month) then stats
    else stats[f.date.day - 1 := BumpDay(stats[f.date.day - 1], o)]
  }

  /** One completed order added to its day's entry. */
  function BumpDay(s: DayStat, o: SalesOrder): DayStat {
    var s1 := if EarlyAt(Jst(o)) then s.(earlyCount := s.earlyCount + 1) else s.(lateCount := s.lateCount + 1);
    if o.paymentMethod == "現金" then s1.(cashTotal := s1.cashTotal + o.price) else s1
  }

  function Daily(orders: seq<SalesOrder>, year: int, month: int): (r: seq<DayStat>)
    requires 1 <= month <= 12
    ensures |r| == DaysInMonth(year, month)
  {
    if orders == [] then InitialDays(year, month)
    else CountDay(Daily(orders[..|orders| - 1], year, month), year, month, orders[|orders| - 1])
  }

  predicate OnDay(o: SalesOrder, year: int, month: int, d: int) {
    o.status == "completed" && InMonth(o, year, month) && Jst(o).date.day == d
  }

  /** Day `d`'s entry counts the completed orders of that JST date, early and late apart. */
  lemma {:induction false} DailyCounts(orders: seq<SalesOrder>, year: int, month: int, d: int)
    requires 1 <= month <= 12 && 1 <= d <= DaysInMonth(year, month)
    ensures var s := Daily(orders, year, month)[d - 1];
      s.earlyCount == Count(orders, o => OnDay(o, year, month, d) && EarlyAt(Jst(o)))
      && s.lateCount == Count(orders, o => OnDay(o, year, month, d) && !EarlyAt(Jst(o)))
      && s.cashTotal == PriceSum(orders, o => OnDay(o, year, month, d) && o.paymentMethod == "現金")
  {
    if orders != [] {
      DailyStep(orders, year, month, d);
      DailyCounts(orders[..|orders| - 1], year, month, d);
    }
  }

  /** Day `d`'s entry after one more order: bumped exactly when the order is a completed one of that day. */
  lemma DailyStep(orders: seq<SalesOrder>, year: int, month: int, d: int)
    requires 1 <= month <= 12 && 1 <= d <= DaysInMonth(year, month) && orders != []
    ensures var o, s := orders[|orders| - 1], Daily(orders[..|orders| - 1], year, month)[d - 1];
      Daily(orders, year, month)[d - 1] == if OnDay(o, year, month, d) then BumpDay(s, o) else s
  {
  }

  /** Orders that are not completed never change the daily view. */
  lemma NotCompletedIgnored(orders: seq<SalesOrder>, o: SalesOrder, year: int, month: int)
    requires 1 <= month <= 12 && o.status != "completed"
    ensures Daily(orders + [o], year, month) == Daily(orders, year, month)
  {
    assert (orders + [o])[..|orders|] == orders;
  }

  function RowOf(d: int, s: DayStat): DayRow {
    DayRow(d, s.earlyCount, s.lateCount, s.earlyCount + s.lateCount, s.cashTotal)
  }

  /**
   * The page's three loops: zero the days, add every order, then emit one row per day of
   * the month, in order, with the total as early plus late.
   */
  method FetchDaily(orders: seq<SalesOrder>, year: int, month: int) returns (rows: seq<DayRow>)
    requires 1 <= month <= 12
    ensures |rows| == DaysInMonth(year, month)
    ensures forall i | 0 <= i < |rows| :: rows[i] == RowOf(i + 1, Daily(orders, year, month)[i])
    ensures forall i | 0 <= i < |rows| :: rows[i].day == i + 1 && rows[i].totalCount == rows[i].earlyCount + rows[i].lateCount
  {
    var daysInMonth := DaysInMonth(year, month);
    var stats: seq<DayStat> := [];
    var d := 1;
    while d <= daysInMonth
      invariant 1 <= d <= daysInMonth + 1
      invariant stats == InitialDays(year, month)[..d - 1]
    {
      stats := stats + [DayStat(0, 0, 0)];
      d := d + 1;
    }
    assert stats == InitialDays(year, month);
    var i := 0;
    while i < |orders|
      invariant 0 <= i <= |orders|
      invariant stats == Daily(orders[..i], year, month)
    {
      assert orders[..i + 1][..i] == orders[..i];
      stats := CountDay(stats, year, month, orders[i]);
      i := i + 1;
    }
    assert orders[..i] == orders;
    rows := [];
    d := 1;
    while d <= daysInMonth
      invariant 1 <= d <= daysInMonth + 1 && |rows| == d - 1
      invariant forall k | 0 <= k < d - 1 :: rows[k] == RowOf(k + 1, stats[k])
    {
      rows := rows + [RowOf(d, stats[d - 1])];
      d := d + 1;
    }
  }
}

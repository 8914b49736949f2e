/**
 * The ranking page (src/app/ranking/page.tsx): the completed orders of a day or a month,
 * the five best-selling menus (overall, ice only, hot only), and in monthly mode the five
 * busiest days with each day's best-selling menu.
 *
 * A JavaScript object used as a dictionary (`counts`, `days`, `menuCount`) is modelled as
 * the sequence of its entries in insertion order, which is the order `Object.entries`
 * and `Object.values` list them in for keys that are not array indices.
 */
module RankingPage {
  import opened Wrappers
  import opened Text
  import Sorting

  datatype RankOrder = RankOrder(createdAt: string, status: string, drinkType: string, menu: string)

  datatype Mode = Daily | Monthly

  /** The filter's test: completed, and the 10- or 7-character prefix of `createdAt` matches. */
  predicate Selected(o: RankOrder, mode: Mode, selectedDate: string, selectedYearMonth: string) {
    o.status == "completed"
    && if mode == Daily then Prefix(o.createdAt, 10) == selectedDate
       else Prefix(o.createdAt, 7) == selectedYearMonth
  }

  /** `filteredOrders`: the selected orders, in their original order. */
  function Filtered(orders: seq<RankOrder>, mode: Mode, selectedDate: string, selectedYearMonth: string): (r: seq<RankOrder>)
    ensures |r| <= |orders|
    ensures forall o :: o in r <==> o in orders && Selected(o, mode, selectedDate, selectedYearMonth)
  {
    if orders == [] then []
    else
      var rest := Filtered(orders[1..], mode, selectedDate, selectedYearMonth);
      assert forall o :: o in orders <==> o == orders[0] || o in orders[1..];
      if Selected(orders[0], mode, selectedDate, selectedYearMonth) then [orders[0]] + rest else rest
  }

  /** Filtering keeps order and multiplicity: an order added last is selected last, or not at all. */
  lemma {:induction false} FilteredSnoc(orders: seq<RankOrder>, o: RankOrder, mode: Mode, selectedDate: string, selectedYearMonth: string)
    ensures Filtered(orders + [o], mode, selectedDate, selectedYearMonth) ==
      Filtered(orders, mode, selectedDate, selectedYearMonth)
      + (if Selected(o, mode, selectedDate, selectedYearMonth) then [o] else [])
  {
    if orders != [] {
      assert (orders + [o])[1..] == orders[1..] + [o];
      FilteredSnoc(orders[1..], o, mode, selectedDate, selectedYearMonth);
    } else {
      assert orders + [o] == [o];
    }
  }

  // ---------------------------------------------------------------- menu counts

  datatype MenuCount = MenuCount(menu: string, count: nat)

  /** `if (type && order.drinkType !== type) return;`: no type given keeps every order. */
  predicate OfType(o: RankOrder, drinkType: Option<string>) {
    drinkType.None? || drinkType.value == "" || o.drinkType == drinkType.value
  }

  /** The number of orders of the type for this menu. */
  function Occurrences(orders: seq<RankOrder>, drinkType: Option<string>, menu: string): nat {
    if orders == [] then 0
    else
      var o := orders[|orders| - 1];
      Occurrences(orders[..|orders| - 1], drinkType, menu) + (if OfType(o, drinkType) && o.menu == menu then 1 else 0)
  }

  /** The position of the entry for `menu`, or -1. */
  function IndexOf(t: seq<MenuCount>, menu: string): (k: int)
    ensures -1 <= k < |t|
    ensures k >= 0 ==> t[k].menu == menu && forall j | 0 <= j < k :: t[j].menu != menu
    ensures k < 0 ==> forall j | 0 <= j < |t| :: t[j].menu != menu
  {
    if t == [] then -1
    else if t[0].menu == menu then 0
    else
      var k := IndexOf(t[1..], menu);
      if k < 0 then -1 else k + 1
  }

  /** `counts[menu] = (counts[menu] || 0) + 1`. */
  function AddMenu(t: seq<MenuCount>, menu: string): (r: seq<MenuCount>) {
    var k := IndexOf(t, menu);
    if k >= 0 then t[k := t[k].(count := t[k].count + 1)] else t + [MenuCount(menu, 1)]
  }

  /** The dictionary after the `forEach`. */
  function Tally(orders: seq<RankOrder>, drinkType: Option<string>): seq<MenuCount> {
    if orders == [] then []
    else
      var o := orders[|orders| - 1];
      var t := Tally(orders[..|orders| - 1], drinkType);
      if OfType(o, drinkType) then AddMenu(t, o.menu) else t
  }

  predicate DistinctMenus(t: seq<MenuCount>) {
    forall i, j | 0 <= i < j < |t| :: t[i].menu != t[j].menu
  }

  /** One more order of `m` adds one to `m`'s entry, or gives it an entry of 1. */
  lemma AddMenuIndex(t: seq<MenuCount>, m: string, menu: string)
    ensures var r, k := AddMenu(t, m), IndexOf(t, menu);
      (IndexOf(r, menu) >= 0 <==> k >= 0 || m == menu)
      && (IndexOf(r, menu) >= 0 ==>
            r[IndexOf(r, menu)].count == (if k >= 0 then t[k].count else 0) + (if m == menu then 1 else 0))
  {
    var r := AddMenu(t, m);
    if IndexOf(t, m) >= 0 {
      assert forall j | 0 <= j < |r| :: r[j].menu == t[j].menu;
      IndexOfSameMenus(t, r, menu);
    } else {
      IndexOfAppend(t, MenuCount(m, 1), menu);
    }
  }

  lemma AddMenuDistinct(t: seq<MenuCount>, m: string)
    requires DistinctMenus(t)
    ensures DistinctMenus(AddMenu(t, m))
  {
    var r := AddMenu(t, m);
    if IndexOf(t, m) >= 0 {
      assert forall j | 0 <= j < |r| :: r[j].menu == t[j].menu;
    }
  }

  /** No menu has two entries. */
  lemma {:induction false} TallyDistinct(orders: seq<RankOrder>, drinkType: Option<string>)
    ensures DistinctMenus(Tally(orders, drinkType))
  {
    if orders != [] {
      var o := orders[|orders| - 1];
      TallyDistinct(orders[..|orders| - 1], drinkType);
      if OfType(o, drinkType) {
        AddMenuDistinct(Tally(orders[..|orders| - 1], drinkType), o.menu);
      }
    }
  }

  /** A menu has an entry exactly when it was ordered, and the entry holds its number of orders. */
  lemma {:induction false} TallyCounts(orders: seq<RankOrder>, drinkType: Option<string>, menu: string)
    ensures var t, k := Tally(orders, drinkType), IndexOf(Tally(orders, drinkType), menu);
      (k >= 0 <==> Occurrences(orders, drinkType, menu) > 0)
      && (k >= 0 ==> t[k].count == Occurrences(orders, drinkType, menu))
  {
    if orders != [] {
      var p := orders[..|orders| - 1];
      var o := orders[|orders| - 1];
      TallyCounts(p, drinkType, menu);
      if OfType(o, drinkType) {
        AddMenuIndex(Tally(p, drinkType), o.menu, menu);
      }
    }
  }

  lemma {:induction false} IndexOfSameMenus(t: seq<MenuCount>, r: seq<MenuCount>, menu: string)
    requires |t| == |r| && forall j | 0 <= j < |r| :: r[j].menu == t[j].menu
    ensures IndexOf(r, menu) == IndexOf(t, menu)
  {
    if t != [] {
      IndexOfSameMenus(t[1..], r[1..], menu);
    }
  }

  lemma {:induction false} IndexOfAppend(t: seq<MenuCount>, e: MenuCount, menu: string)
    ensures IndexOf(t + [e], menu)
      == if IndexOf(t, menu) >= 0 then IndexOf(t, menu) else if e.menu == menu then |t| else -1
  {
    if t != [] {
      assert (t + [e])[1..] == t[1..] + [e];
      IndexOfAppend(t[1..], e, menu);
    }
  }

  /** Every entry of the dictionary holds its menu's number of orders. */
  lemma TallyEntries(orders: seq<RankOrder>, drinkType: Option<string>)
    ensures forall e | e in Tally(orders, drinkType) :: e.count == Occurrences(orders, drinkType, e.menu) > 0
  {
    var t := Tally(orders, drinkType);
    forall e | e in t
      ensures e.count == Occurrences(orders, drinkType, e.menu) > 0
    {
      var i :| 0 <= i < |t| && t[i] == e;
      TallyCounts(orders, drinkType, e.menu);
      TallyDistinct(orders, drinkType);
      var k := IndexOf(t, e.menu);
      assert k == i;
    }
  }

  /** The `forEach` that fills `counts`. */
  method CountMenus(orders: seq<RankOrder>, drinkType: Option<string>) returns (counts: seq<MenuCount>)
    ensures counts == Tally(orders, drinkType)
  {
    counts := [];
    var i := 0;
    while i < |orders|
      invariant 0 <= i <= |orders|
      invariant counts == Tally(orders[..i], drinkType)
    {
      assert orders[..i + 1][..i] == orders[..i];
      var o := orders[i];
      if OfType(o, drinkType) {
        counts := AddMenu(counts, o.menu);
      }
      i := i + 1;
    }
    assert orders[..i] == orders;
  }

  /** `(a, b) => b.count - a.count`: larger counts first. */
  function ByCount(a: MenuCount, b: MenuCount): int {
    b.count - a.count
  }

  lemma ByCountConsistent(t: seq<MenuCount>)
    ensures Sorting.Consistent(ByCount, t)
  {
  }

  function Take<T>(s: seq<T>, n: nat): (r: seq<T>)
    ensures |r| <= n && |r| <= |s| && r == s[..|r|] && (|s| >= n ==> |r| == n) && (|s| < n ==> r == s)
  {
    if |s| <= n then s else s[..n]
  }

  /** `calcRanking(orders, type)`. */
  function Ranking(orders: seq<RankOrder>, drinkType: Option<string>): (r: seq<MenuCount>)
    ensures |r| == if |Tally(orders, drinkType)| < 5 then |Tally(orders, drinkType)| else 5
    ensures forall e | e in r :: e in Tally(orders, drinkType)
  {
    var s := Sorting.Sort(ByCount, Tally(orders, drinkType));
    assert forall e | e in s :: e in multiset(s);
    Take(s, 5)
  }

  /** The ranking has at most five entries, by non-increasing count. */
  lemma RankingOrdered(orders: seq<RankOrder>, drinkType: Option<string>)
    ensures var r := Ranking(orders, drinkType);
      |r| <= 5 && forall i, j | 0 <= i < j < |r| :: r[i].count >= r[j].count
  {
    var t := Tally(orders, drinkType);
    var s := Sorting.Sort(ByCount, t);
    var r := Take(s, 5);
    ByCountConsistent(t);
    Sorting.SortSorted(ByCount, t, t);
    forall i, j | 0 <= i < j < |r|
      ensures r[i].count >= r[j].count
    {
      assert Sorting.Before(ByCount, s[i], s[j]);
    }
  }

  /** Each entry of the ranking is a menu with its number of orders of the type. */
  lemma RankingCounts(orders: seq<RankOrder>, drinkType: Option<string>)
    ensures forall e | e in Ranking(orders, drinkType) ::
      e in Tally(orders, drinkType) && e.count == Occurrences(orders, drinkType, e.menu) > 0
  {
    var t := Tally(orders, drinkType);
    var s := Sorting.Sort(ByCount, t);
    var r := Take(s, 5);
    TallyEntries(orders, drinkType);
    forall e | e in r
      ensures e in t
    {
      assert e in multiset(s);
    }
  }

  /** A menu left out of the ranking sold no more than the fifth entry. */
  lemma RankingLeftOut(orders: seq<RankOrder>, drinkType: Option<string>)
    ensures var r := Ranking(orders, drinkType);
      forall e | e in Tally(orders, drinkType) && e !in r :: |r| == 5 && e.count <= r[4].count
  {
    var t := Tally(orders, drinkType);
    var s := Sorting.Sort(ByCount, t);
    var r := Take(s, 5);
    ByCountConsistent(t);
    Sorting.SortSorted(ByCount, t, t);
    forall e | e in t && e !in r
      ensures |r| == 5 && e.count <= r[4].count
    {
      assert e in multiset(t);
      assert e in s;
      var k :| 0 <= k < |s| && s[k] == e;
      assert k >= 5;
      assert Sorting.Before(ByCount, s[4], s[k]);
    }
  }

  // ---------------------------------------------------------------- sales days

  datatype SalesDay = SalesDay(date: string, count: nat, topMenu: string)

  function DayOf(o: RankOrder): string {
    Prefix(o.createdAt, 10)
  }

  function IndexOfDay(days: seq<SalesDay>, date: string): (k: int)
    ensures -1 <= k < |days|
    ensures k >= 0 ==> days[k].date == date
    ensures k < 0 ==> forall j | 0 <= j < |days| :: days[j].date != date
  {
    if days == [] then -1
    else if days[0].date == date then 0
    else
      var k := IndexOfDay(days[1..], date);
      if k < 0 then -1 else k + 1
  }

  /** The first `forEach`: one entry per date, in order of first appearance, with its count. */
  function DayCounts(orders: seq<RankOrder>): seq<SalesDay> {
    if orders == [] then []
    else
      var days := DayCounts(orders[..|orders| - 1]);
      var date := DayOf(orders[|orders| - 1]);
      var k := IndexOfDay(days, date);
      if k >= 0 then days[k := days[k].(count := days[k].count + 1)]
      else days + [SalesDay(date, 1, "")]
  }

  /** `dayOrders`: the orders of one date. */
  function OnDate(orders: seq<RankOrder>, date: string): (r: seq<RankOrder>)
    ensures forall o :: o in r <==> o in orders && DayOf(o) == date
  {
    if orders == [] then []
    else
      var rest := OnDate(orders[..|orders| - 1], date);
      var o := orders[|orders| - 1];
      assert forall x :: x in orders <==> x == o || x in orders[..|orders| - 1];
      if DayOf(o) == date then rest + [o] else rest
  }

  /** The day's orders keep order and multiplicity: an order put first comes first, if of that date. */
  lemma {:induction false} OnDateCons(o: RankOrder, orders: seq<RankOrder>, date: string)
    ensures OnDate([o] + orders, date) == (if DayOf(o) == date then [o] else []) + OnDate(orders, date)
  {
    if orders == [] {
      assert [o] + orders == [o];
      assert [o][..0] == [];
    } else {
      var init := orders[..|orders| - 1];
      assert ([o] + orders)[..|orders|] == [o] + init;
      OnDateCons(o, init, date);
    }
  }

  /** `Object.entries(menuCount).sort(...)[0]?.[0] || ''`. */
  function TopMenu(dayOrders: seq<RankOrder>): (r: string)
    ensures dayOrders == [] ==> r == ""
    ensures dayOrders != [] ==> Occurrences(dayOrders, None, r) > 0
  {
    var s := Sorting.Sort(ByCount, Tally(dayOrders, None));
    TopMenuFound(dayOrders);
    if s == [] then "" else s[0].menu
  }

  /** The tally of a day's orders is empty exactly when the day has none, and its entries were ordered. */
  lemma TopMenuFound(dayOrders: seq<RankOrder>)
    ensures Tally(dayOrders, None) == [] <==> dayOrders == []
    ensures forall e | e in Sorting.Sort(ByCount, Tally(dayOrders, None)) :: Occurrences(dayOrders, None, e.menu) > 0
  {
    var t := Tally(dayOrders, None);
    TallyEntries(dayOrders, None);
    if dayOrders != [] {
      TallyCounts(dayOrders, None, dayOrders[0].menu);
      OccurrencesOfMember(dayOrders, 0);
    }
    assert forall e | e in Sorting.Sort(ByCount, t) :: e in multiset(t);
  }

  /** The best-selling menu of a day with orders is ordered at least as often as any other. */
  lemma TopMenuIsMaximal(dayOrders: seq<RankOrder>)
    requires dayOrders != []
    ensures forall m :: Occurrences(dayOrders, None, m) <= Occurrences(dayOrders, None, TopMenu(dayOrders))
  {
    var t := Tally(dayOrders, None);
    var s := Sorting.Sort(ByCount, t);
    TallyCounts(dayOrders, None, dayOrders[0].menu);
    assert Occurrences(dayOrders, None, dayOrders[0].menu) > 0 by {
      OccurrencesOfMember(dayOrders, 0);
    }
    assert |t| > 0;
    ByCountConsistent(t);
    Sorting.SortSorted(ByCount, t, t);
    TallyEntries(dayOrders, None);
    assert s[0] in multiset(t);
    forall m
      ensures Occurrences(dayOrders, None, m) <= Occurrences(dayOrders, None, TopMenu(dayOrders))
    {
      TallyCounts(dayOrders, None, m);
      var k := IndexOf(t, m);
      if k >= 0 {
        assert t[k] in multiset(s);
        var j :| 0 <= j < |s| && s[j] == t[k];
        if j > 0 {
          assert Sorting.Before(ByCount, s[0], s[j]);
        }
      }
    }
  }

  lemma {:induction false} OccurrencesOfMember(orders: seq<RankOrder>, i: nat)
    requires i < |orders|
    ensures Occurrences(orders, None, orders[i].menu) > 0
    decreases |orders|
  {
    if i < |orders| - 1 {
      var p := orders[..|orders| - 1];
      assert p[i] == orders[i];
      OccurrencesOfMember(p, i);
    }
  }

  /** The second `forEach`: every day gets its best-selling menu. */
  function WithTopMenus(days: seq<SalesDay>, filtered: seq<RankOrder>): (r: seq<SalesDay>)
    ensures |r| == |days|
    ensures forall i | 0 <= i < |r| :: r[i] == days[i].(topMenu := TopMenu(OnDate(filtered, days[i].date)))
  {
    seq(|days|, i requires 0 <= i < |days| => days[i].(topMenu := TopMenu(OnDate(filtered, days[i].date))))
  }

  function ByDayCount(a: SalesDay, b: SalesDay): int {
    b.count - a.count
  }

  /** `salesDays`: empty unless in monthly mode; else the five days with most orders. */
  function SalesDays(filtered: seq<RankOrder>, mode: Mode): (r: seq<SalesDay>)
    ensures mode != Monthly ==> r == []
    ensures |r| <= 5 && |r| <= |DayCounts(filtered)|
  {
    if mode != Monthly then []
    else Take(Sorting.Sort(ByDayCount, WithTopMenus(DayCounts(filtered), filtered)), 5)
  }

  /** Every date has one entry, holding its number of orders. */
  lemma {:induction false} DayCountsCount(orders: seq<RankOrder>, date: string)
    ensures var days, k := DayCounts(orders), IndexOfDay(DayCounts(orders), date);
      (k >= 0 <==> |OnDate(orders, date)| > 0)
      && (k >= 0 ==> days[k].count == |OnDate(orders, date)|)
      && forall i, j | 0 <= i < j < |days| :: days[i].date != days[j].date
  {
    if orders != [] {
      var p := orders[..|orders| - 1];
      var o := orders[|orders| - 1];
      DayCountsCount(p, date);
      DayCountsCount(p, DayOf(o));
      var days := DayCounts(p);
      var k := IndexOfDay(days, DayOf(o));
      if k < 0 {
        IndexOfDayAppend(days, SalesDay(DayOf(o), 1, ""), date);
      } else {
        IndexOfDaySameDates(days, DayCounts(orders), date);
      }
    }
  }

  lemma {:induction false} IndexOfDaySameDates(t: seq<SalesDay>, r: seq<SalesDay>, date: string)
    requires |t| == |r| && forall j | 0 <= j < |r| :: r[j].date == t[j].date
    ensures IndexOfDay(r, date) == IndexOfDay(t, date)
  {
    if t != [] {
      IndexOfDaySameDates(t[1..], r[1..], date);
    }
  }

  lemma {:induction false} IndexOfDayAppend(t: seq<SalesDay>, e: SalesDay, date: string)
    ensures IndexOfDay(t + [e], date)
      == if IndexOfDay(t, date) >= 0 then IndexOfDay(t, date) else if e.date == date then |t| else -1
  {
    if t != [] {
      assert (t + [e])[1..] == t[1..] + [e];
      IndexOfDayAppend(t[1..], e, date);
    }
  }

  /** The first `forEach`, that fills `days`. */
  method CountDays(filtered: seq<RankOrder>) returns (days: seq<SalesDay>)
    ensures days == DayCounts(filtered)
  {
    days := [];
    var i := 0;
    while i < |filtered|
      invariant 0 <= i <= |filtered|
      invariant days == DayCounts(filtered[..i])
    {
      assert filtered[..i + 1][..i] == filtered[..i];
      var date := DayOf(filtered[i]);
      var k := IndexOfDay(days, date);
      if k < 0 {
        days := days + [SalesDay(date, 0, "")];
        k := |days| - 1;
      }
      days := days[k := days[k].(count := days[k].count + 1)];
      i := i + 1;
    }
    assert filtered[..i] == filtered;
  }

  /** The second `forEach`, that sets each day's `topMenu`. */
  method AssignTopMenus(days: seq<SalesDay>, filtered: seq<RankOrder>) returns (r: seq<SalesDay>)
    ensures r == WithTopMenus(days, filtered)
  {
    r := days;
    var i := 0;
    while i < |r|
      invariant 0 <= i <= |r| == |days|
      invariant forall j | 0 <= j < i :: r[j] == days[j].(topMenu := TopMenu(OnDate(filtered, days[j].date)))
      invariant forall j | i <= j < |r| :: r[j] == days[j]
    {
      var dayOrders := OnDate(filtered, r[i].date);
      r := r[i := r[i].(topMenu := TopMenu(dayOrders))];
      i := i + 1;
    }
  }

  /** `salesDays`, with its two loops. */
  method ComputeSalesDays(filtered: seq<RankOrder>, mode: Mode) returns (r: seq<SalesDay>)
    ensures r == SalesDays(filtered, mode)
  {
    if mode != Monthly {
      return [];
    }
    var days := CountDays(filtered);
    days := AssignTopMenus(days, filtered);
    r := Take(Sorting.Sort(ByDayCount, days), 5);
  }

  /** Outside monthly mode there are no sales days. */
  lemma SalesDaysOnlyMonthly(filtered: seq<RankOrder>, mode: Mode)
    ensures mode == Daily ==> SalesDays(filtered, mode) == []
    ensures |SalesDays(filtered, mode)| <= 5
  {
  }

  /** The days listed come by non-increasing count. */
  lemma SalesDaysOrdered(filtered: seq<RankOrder>)
    ensures var r := SalesDays(filtered, Monthly);
      forall i, j | 0 <= i < j < |r| :: r[i].count >= r[j].count
  {
    var w := WithTopMenus(DayCounts(filtered), filtered);
    var s := Sorting.Sort(ByDayCount, w);
    assert Sorting.Consistent(ByDayCount, w);
    Sorting.SortSorted(ByDayCount, w, w);
    var r := Take(s, 5);
    forall i, j | 0 <= i < j < |r|
      ensures r[i].count >= r[j].count
    {
      assert Sorting.Before(ByDayCount, s[i], s[j]);
    }
  }

  /** Each day of `days` holds its number of orders. */
  lemma DayCountEntry(filtered: seq<RankOrder>, i: int)
    requires 0 <= i < |DayCounts(filtered)|
    ensures DayCounts(filtered)[i].count == |OnDate(filtered, DayCounts(filtered)[i].date)| > 0
  {
    var days := DayCounts(filtered);
    DayCountsCount(filtered, days[i].date);
    assert IndexOfDay(days, days[i].date) == i;
  }

  /**
   * Each day listed has its number of orders and, as `topMenu`, the best-selling menu of
   * its orders (maximal by `TopMenuIsMaximal`).
   */
  lemma SalesDaysEntries(filtered: seq<RankOrder>)
    ensures forall d | d in SalesDays(filtered, Monthly) ::
      d.count == |OnDate(filtered, d.date)| > 0 && d.topMenu == TopMenu(OnDate(filtered, d.date))
  {
    var days := DayCounts(filtered);
    var w := WithTopMenus(days, filtered);
    var s := Sorting.Sort(ByDayCount, w);
    forall d | d in Take(s, 5)
      ensures d.count == |OnDate(filtered, d.date)| > 0 && d.topMenu == TopMenu(OnDate(filtered, d.date))
    {
      assert d in multiset(s);
      assert d in w;
      var i :| 0 <= i < |w| && w[i] == d;
      DayCountEntry(filtered, i);
    }
  }

  /** A day left out had no more orders than the fifth day listed. */
  lemma SalesDaysLeftOut(filtered: seq<RankOrder>)
    ensures var r := SalesDays(filtered, Monthly);
      forall d | d in WithTopMenus(DayCounts(filtered), filtered) && d !in r ::
        |r| == 5 && d.count <= r[4].count
  {
    var w := WithTopMenus(DayCounts(filtered), filtered);
    var s := Sorting.Sort(ByDayCount, w);
    var r := Take(s, 5);
    assert Sorting.Consistent(ByDayCount, w);
    Sorting.SortSorted(ByDayCount, w, w);
    forall d | d in w && d !in r
      ensures |r| == 5 && d.count <= r[4].count
    {
      assert d in multiset(w);
      assert d in s;
      var k :| 0 <= k < |s| && s[k] == d;
      assert k >= 5;
      assert Sorting.Before(ByDayCount, s[4], s[k]);
    }
  }
}

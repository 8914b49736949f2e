/**
 * The sales page (src/app/sales/page.tsx): its own per-shift summaries of the day's
 * orders, the start-cup counts, the remaining cups per shift, the total card and the
 * shift report with its adjusted cash figure.
 *
 * The cutoff is the instant of `${selectedDate}T16:50:00` in the browser's local time,
 * given as an input.
 */
module SalesPage {
  import opened Wrappers
  import opened JsValues
  import opened Text
  import opened ShiftSummaries
  import opened SalesReportsRoute

  datatype Shift = Early | Late

  /** `o.status === 'completed' && createdAt <= cutoff`. */
  function EarlyTest(cutoff: int): SaleOrder -> bool {
    (o: SaleOrder) => o.status == "completed" && o.createdAt <= cutoff
  }

  function LateTest(cutoff: int): SaleOrder -> bool {
    (o: SaleOrder) => o.status == "completed" && !(o.createdAt <= cutoff)
  }

  function CompletedTest(): SaleOrder -> bool {
    (o: SaleOrder) => o.status == "completed"
  }

  function AtOrBefore(cutoff: int): SaleOrder -> bool {
    (o: SaleOrder) => o.createdAt <= cutoff
  }

  lemma FetchStep(orders: seq<SaleOrder>, i: int, cutoff: int)
    requires 0 <= i < |orders|
    ensures var o := orders[i];
      SummaryOf(Client, Filter(orders[..i + 1], EarlyTest(cutoff)))
        == (if o.status == "completed" && o.createdAt <= cutoff
            then Add(Client, SummaryOf(Client, Filter(orders[..i], EarlyTest(cutoff))), o)
            else SummaryOf(Client, Filter(orders[..i], EarlyTest(cutoff))))
      && SummaryOf(Client, Filter(orders[..i + 1], LateTest(cutoff)))
        == (if o.status == "completed" && !(o.createdAt <= cutoff)
            then Add(Client, SummaryOf(Client, Filter(orders[..i], LateTest(cutoff))), o)
            else SummaryOf(Client, Filter(orders[..i], LateTest(cutoff))))
  {
    var o := orders[i];
    assert orders[..i + 1] == orders[..i] + [o];
    assert EarlyTest(cutoff)(o) == (o.status == "completed" && o.createdAt <= cutoff);
    assert LateTest(cutoff)(o) == (o.status == "completed" && !(o.createdAt <= cutoff));
    SplitStep(Client, orders[..i], o, EarlyTest(cutoff));
    SplitStep(Client, orders[..i], o, LateTest(cutoff));
  }

  /**
   * `fetchSales`: orders that are not completed are skipped; the others go to the early
   * summary when created at or before the cutoff and to the late one otherwise.
   */
  method FetchSales(orders: seq<SaleOrder>, cutoff: int) returns (early: ShiftSummary, late: ShiftSummary)
    ensures early == SummaryOf(Client, Filter(orders, EarlyTest(cutoff)))
    ensures late == SummaryOf(Client, Filter(orders, LateTest(cutoff)))
  {
    early := InitSummary();
    late := InitSummary();
    var i := 0;
    while i < |orders|
      invariant 0 <= i <= |orders|
      invariant early == SummaryOf(Client, Filter(orders[..i], EarlyTest(cutoff)))
      invariant late == SummaryOf(Client, Filter(orders[..i], LateTest(cutoff)))
    {
      var o := orders[i];
      FetchStep(orders, i, cutoff);
      if o.status == "completed" {
        if o.createdAt <= cutoff {
          early := Add(Client, early, o);
        } else {
          late := Add(Client, late, o);
        }
      }
      i := i + 1;
    }
    assert orders[..i] == orders;
  }

  /** Filtering by "completed and early" is filtering the completed orders by "early". */
  lemma {:induction false} FilterCompleted(orders: seq<SaleOrder>, cutoff: int)
    ensures Filter(orders, EarlyTest(cutoff)) == Filter(Filter(orders, CompletedTest()), AtOrBefore(cutoff))
    ensures Filter(orders, LateTest(cutoff)) == FilterOut(Filter(orders, CompletedTest()), AtOrBefore(cutoff))
  {
    if orders != [] {
      var init, o := orders[..|orders| - 1], orders[|orders| - 1];
      FilterCompleted(init, cutoff);
      var c := Filter(init, CompletedTest());
      if o.status == "completed" {
        assert Filter(orders, CompletedTest()) == c + [o];
        assert (c + [o])[..|c|] == c;
      } else {
        assert Filter(orders, CompletedTest()) == c;
      }
    }
  }

  /**
   * A non-completed order changes neither shift's summary, and the two shifts together
   * (the total card) are the summary of all completed orders.
   */
  lemma ShiftsPartitionCompleted(orders: seq<SaleOrder>, cutoff: int)
    ensures Merge(SummaryOf(Client, Filter(orders, EarlyTest(cutoff))),
                  SummaryOf(Client, Filter(orders, LateTest(cutoff))))
         == SummaryOf(Client, Filter(orders, CompletedTest()))
  {
    FilterCompleted(orders, cutoff);
    MergePartition(Client, Filter(orders, CompletedTest()), AtOrBefore(cutoff));
  }

  lemma NonCompletedIgnored(orders: seq<SaleOrder>, o: SaleOrder, cutoff: int)
    requires o.status != "completed"
    ensures Filter(orders + [o], EarlyTest(cutoff)) == Filter(orders, EarlyTest(cutoff))
    ensures Filter(orders + [o], LateTest(cutoff)) == Filter(orders, LateTest(cutoff))
  {
    var t := orders + [o];
    assert t[..|t| - 1] == orders && t[|t| - 1] == o;
  }

  /**
   * The cash the page expects for a shift: 300 per cash order in the 300 tier and 500
   * per cash order in the other tier. When every price is 300 or 500 it is the shift's
   * cash sales.
   */
  function BaseCash(s: ShiftSummary): int {
    s.byType300.Get(Cash) * 300 + s.byType500.Get(Cash) * 500
  }

  lemma {:induction false} BaseCashIsSales(os: seq<SaleOrder>)
    requires forall o | o in os :: o.price == 300 || o.price == 500
    ensures BaseCash(SummaryOf(Client, os)) == SummaryOf(Client, os).sales
  {
    if os != [] {
      assert os[|os| - 1] in os;
      assert forall o | o in os[..|os| - 1] :: o in os;
      BaseCashIsSales(os[..|os| - 1]);
      BaseCashStep(SummaryOf(Client, os[..|os| - 1]), os[|os| - 1]);
    }
  }

  /** An order priced 300 or 500 adds as much to the expected cash as to the cash sales. */
  lemma BaseCashStep(s: ShiftSummary, o: SaleOrder)
    requires o.price == 300 || o.price == 500
    ensures BaseCash(Add(Client, s, o)) - Add(Client, s, o).sales == BaseCash(s) - s.sales
  {
    AddCell(Client, s, o, Cash);
  }

  function Pick(shift: Shift, early: ShiftSummary, late: ShiftSummary): ShiftSummary {
    if shift == Early then early else late
  }

  /** `adjusted_sales`: the chosen shift's expected cash plus the reported difference. */
  function AdjustedSales(shift: Shift, early: ShiftSummary, late: ShiftSummary, diff: int): (a: int)
    ensures a - diff == 300 * Pick(shift, early, late).byType300.Get(Cash)
                        + 500 * Pick(shift, early, late).byType500.Get(Cash)
  {
    BaseCash(Pick(shift, early, late)) + diff
  }

  /** The difference field: `parseInt(text, 10) || 0`. */
  function ReportDiff(text: string): (d: int)
    ensures ParseInt(text).None? ==> d == 0
    ensures ParseInt(text).Some? ==> d == ParseInt(text).value
  {
    match ParseInt(text)
    case None => 0
    case Some(n) => if n == 0 then 0 else n
  }

  /** `x || null` for a text field. */
  function OrNull(s: string): Json {
    if s == "" then Null else Str(s)
  }

  function ShiftName(shift: Shift): string {
    if shift == Early then "early" else "late"
  }

  function ReportPatchOf(shift: Shift, early: ShiftSummary, late: ShiftSummary, diff: int, staff: string, note: string): ReportPatch {
    ReportPatch(Put(Num(diff)), Put(OrNull(note)), Put(OrNull(staff)),
                Put(Num(AdjustedSales(shift, early, late, diff))), Keep, Keep)
  }

  /** `onReportSubmit`: upsert on (date, shift) with the adjusted figure; other rows are untouched. */
  method OnReportSubmit(table: ReportTable, date: string, shift: Shift, early: ShiftSummary, late: ShiftSummary,
                        diff: int, staff: string, note: string)
    modifies table
    ensures var k := (Str(date), Str(ShiftName(shift)));
      table.rows == old(table.rows)[k := Patch(if k in old(table.rows) then old(table.rows)[k] else EmptyRow,
                                               ReportPatchOf(shift, early, late, diff, staff, note))]
  {
    table.Upsert(Str(date), Str(ShiftName(shift)), ReportPatchOf(shift, early, late, diff, staff, note));
  }

  /** `PaymentTable`'s 合計 column: the four named kinds, leaving `その他` out. */
  function CountSum(t: Tally): (n: int)
    ensures n == t.cash + t.yen4 + t.yen1 + t.slot
  {
    t.Get(Cash) + t.Get(Yen4) + t.Get(Yen1) + t.Get(Slot)
  }

  /** Under the page's rules the two tables' 合計 columns count every cash, 4円, 1円 and スロ order once. */
  lemma {:induction false} CountSumsCoverNamedMethods(os: seq<SaleOrder>)
    ensures CountSum(SummaryOf(Client, os).byType300) + CountSum(SummaryOf(Client, os).byType500)
         == |os| - SummaryOf(Client, os).byType300.Get(Other) - SummaryOf(Client, os).byType500.Get(Other)
  {
    ClientCellsCoverAll(os);
  }

  // ---- start cups ----

  datatype Cups = Cups(ice: int, hot: int)
  datatype StartCup = StartCup(early: Cups, late: Cups)

  /** A `start_cups` row as the page selects it: shift, drink_type and count. */
  datatype StartCupView = StartCupView(shift: string, drinkType: string, count: Option<int>)

  function CupsSet(c: Cups, drinkType: string, n: int): Cups {
    if drinkType == "ice" then c.(ice := n)
    else if drinkType == "hot" then c.(hot := n)
    else c
  }

  function CupsGet(c: Cups, drinkType: string): int {
    if drinkType == "ice" then c.ice else if drinkType == "hot" then c.hot else 0
  }

  /**
   * One row of `init[r.shift][r.drink_type] = r.count ?? 0`: a shift other than early
   * or late throws (`None`); another drink type sets a property the page never reads.
   */
  function ApplyRow(s: StartCup, r: StartCupView): Option<StartCup> {
    var n := r.count.GetOr(0);
    if r.shift == "early" then Some(s.(early := CupsSet(s.early, r.drinkType, n)))
    else if r.shift == "late" then Some(s.(late := CupsSet(s.late, r.drinkType, n)))
    else None
  }

  const ZeroStartCup := StartCup(Cups(0, 0), Cups(0, 0))

  /** The fold over the fetched rows, from all zeros. */
  function StartCupOf(rows: seq<StartCupView>): Option<StartCup> {
    if rows == [] then Some(ZeroStartCup)
    else match StartCupOf(rows[..|rows| - 1])
      case None => None
      case Some(s) => ApplyRow(s, rows[|rows| - 1])
  }

  /** `fetchStartCup`'s loop; `None` is the thrown error that sends the page to its local copy. */
  method FetchStartCup(rows: seq<StartCupView>) returns (r: Option<StartCup>)
    ensures r == StartCupOf(rows)
  {
    var init := ZeroStartCup;
    var i := 0;
    while i < |rows|
      invariant 0 <= i <= |rows|
      invariant StartCupOf(rows[..i]) == Some(init)
    {
      assert rows[..i + 1][..i] == rows[..i];
      var row := rows[i];
      var n := row.count.GetOr(0);
      if row.shift == "early" {
        init := init.(early := CupsSet(init.early, row.drinkType, n));
      } else if row.shift == "late" {
        init := init.(late := CupsSet(init.late, row.drinkType, n));
      } else {
        NoneStays(rows, i + 1);
        return None;
      }
      i := i + 1;
    }
    assert rows[..i] == rows;
    return Some(init);
  }

  lemma {:induction false} NoneStays(rows: seq<StartCupView>, i: int)
    requires 0 <= i <= |rows| && StartCupOf(rows[..i]) == None
    ensures StartCupOf(rows) == None
    decreases |rows| - i
  {
    if i < |rows| {
      assert rows[..i + 1][..i] == rows[..i];
      NoneStays(rows, i + 1);
    } else {
      assert rows[..i] == rows;
    }
  }

  function ShiftCups(s: StartCup, shift: string): Cups {
    if shift == "early" then s.early else s.late
  }

  /**
   * The count of the last row for a shift and drink, `null` read as 0; 0 when no row
   * names them.
   */
  function LastCount(rows: seq<StartCupView>, shift: string, drinkType: string): int {
    if rows == [] then 0
    else if rows[|rows| - 1].shift == shift && rows[|rows| - 1].drinkType == drinkType
    then rows[|rows| - 1].count.GetOr(0)
    else LastCount(rows[..|rows| - 1], shift, drinkType)
  }

  /**
   * When no row throws, each of the four start-cup values is the count of the last row
   * that names its shift and drink; a value no row names stays 0.
   */
  lemma {:induction false} StartCupIsLastCount(rows: seq<StartCupView>, shift: string, drinkType: string)
    requires StartCupOf(rows).Some?
    requires shift == "early" || shift == "late"
    requires drinkType == "ice" || drinkType == "hot"
    ensures CupsGet(ShiftCups(StartCupOf(rows).value, shift), drinkType) == LastCount(rows, shift, drinkType)
  {
    if rows != [] {
      var init := rows[..|rows| - 1];
      assert StartCupOf(init).Some?;
      StartCupIsLastCount(init, shift, drinkType);
    }
  }

  /** `calcRemaining`: the start count less what the shift sold, never below 0. */
  function CalcRemaining(start: StartCup, early: ShiftSummary, late: ShiftSummary, shift: Shift, drinkType: string): (r: int)
    requires drinkType == "ice" || drinkType == "hot"
    ensures r >= 0
    ensures var startN := CupsGet(if shift == Early then start.early else start.late, drinkType);
      var sold := if drinkType == "ice" then Pick(shift, early, late).ice else Pick(shift, early, late).hot;
      (startN >= sold ==> r == startN - sold) && (startN < sold ==> r == 0)
  {
    var startN := CupsGet(if shift == Early then start.early else start.late, drinkType);
    var s := Pick(shift, early, late);
    var sold := if drinkType == "ice" then s.ice else s.hot;
    if startN - sold > 0 then startN - sold else 0
  }

  /** The total card's start cups: the early and late counts added per drink. */
  function TotalStartCup(s: StartCup): (c: Cups)
    ensures c.ice == s.early.ice + s.late.ice && c.hot == s.early.hot + s.late.hot
  {
    Cups(s.early.ice + s.late.ice, s.early.hot + s.late.hot)
  }
}

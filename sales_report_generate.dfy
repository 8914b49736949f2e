/**
 * `GET /api/orders/sales-report/generate?date=YYYY-MM-DD`
 * (src/app/api/orders/sales-report/generate/route.ts): summarises the day's completed
 * orders into an early and a late shift split at 16:50 JST, adds them into a day
 * total, and upserts the three summaries into `sales_reports`.
 *
 * The orders are the rows the store returns for the day; the `date` text is given
 * together with the JST day number it denotes (`None` when it is not a valid date).
 */
module SalesReportGenerate {
  import opened Wrappers
  import opened JsValues
  import opened Calendar
  import opened ShiftSummaries
  import opened SalesReportsRoute

  /** `new Date(`${date}T16:50:00+09:00`)`; an unparseable date gives no instant. */
  function Cutoff(day: Option<int>): (c: Option<int>)
    ensures day.Some? <==> c.Some?
    ensures day.Some? ==> JstDay(c.value) == day.value && JstFields(c.value).hour == 16
                          && JstFields(c.value).minute == 50
  {
    if day.Some? then Some(JstMidnight(day.value) + 16 * HourMs + 50 * MinuteMs) else None
  }

  /** `createdAt <= cutoff`: false when the cutoff is an invalid date. */
  predicate IsEarly(cutoff: Option<int>, o: SaleOrder) {
    cutoff.Some? && o.createdAt <= cutoff.value
  }

  function EarlyTest(cutoff: Option<int>): SaleOrder -> bool {
    o => IsEarly(cutoff, o)
  }

  /** The per-order loop: each order goes into exactly one of the two running summaries. */
  method Aggregate(orders: seq<SaleOrder>, cutoff: Option<int>) returns (early: ShiftSummary, late: ShiftSummary)
    ensures early == SummaryOf(Server, Filter(orders, EarlyTest(cutoff)))
    ensures late == SummaryOf(Server, FilterOut(orders, EarlyTest(cutoff)))
  {
    early := InitSummary();
    late := InitSummary();
    var i := 0;
    while i < |orders|
      invariant 0 <= i <= |orders|
      invariant early == SummaryOf(Server, Filter(orders[..i], EarlyTest(cutoff)))
      invariant late == SummaryOf(Server, FilterOut(orders[..i], EarlyTest(cutoff)))
    {
      var o := orders[i];
      AggregateStep(orders, i, cutoff);
      if IsEarly(cutoff, o) {
        early := Add(Server, early, o);
      } else {
        late := Add(Server, late, o);
      }
      i := i + 1;
    }
    assert orders[..i] == orders;
  }

  lemma AggregateStep(orders: seq<SaleOrder>, i: int, cutoff: Option<int>)
    requires 0 <= i < |orders|
    ensures var test, o := EarlyTest(cutoff), orders[i];
      SummaryOf(Server, Filter(orders[..i + 1], test))
        == (if IsEarly(cutoff, o) then Add(Server, SummaryOf(Server, Filter(orders[..i], test)), o)
            else SummaryOf(Server, Filter(orders[..i], test)))
      && SummaryOf(Server, FilterOut(orders[..i + 1], test))
        == (if IsEarly(cutoff, o) then SummaryOf(Server, FilterOut(orders[..i], test))
            else Add(Server, SummaryOf(Server, FilterOut(orders[..i], test)), o))
  {
    assert orders[..i + 1] == orders[..i] + [orders[i]];
    assert EarlyTest(cutoff)(orders[i]) == IsEarly(cutoff, orders[i]);
    SplitStep(Server, orders[..i], orders[i], EarlyTest(cutoff));
  }

  /**
   * The two shifts partition the day: their totals add up to the number of orders,
   * and their merge (the `total` row) is the summary of all the orders.
   */
  lemma ShiftsPartitionDay(orders: seq<SaleOrder>, cutoff: Option<int>)
    ensures var e, l := SummaryOf(Server, Filter(orders, EarlyTest(cutoff))),
                        SummaryOf(Server, FilterOut(orders, EarlyTest(cutoff)));
      e.total + l.total == |orders| && Merge(e, l) == SummaryOf(Server, orders)
  {
    MergePartition(Server, orders, EarlyTest(cutoff));
    SummaryCounts(Server, orders);
  }

  /** With an invalid date every order counts as late. */
  lemma InvalidDateAllLate(orders: seq<SaleOrder>)
    ensures SummaryOf(Server, Filter(orders, EarlyTest(None))).total == 0
    ensures SummaryOf(Server, FilterOut(orders, EarlyTest(None))) == SummaryOf(Server, orders)
  {
    NoneEarly(orders);
    SummaryCounts(Server, Filter(orders, EarlyTest(None)));
  }

  lemma {:induction false} NoneEarly(orders: seq<SaleOrder>)
    ensures Filter(orders, EarlyTest(None)) == [] && FilterOut(orders, EarlyTest(None)) == orders
  {
    if orders != [] {
      NoneEarly(orders[..|orders| - 1]);
      assert orders == orders[..|orders| - 1] + [orders[|orders| - 1]];
    }
  }

  /** The row written for one shift: diff `無し`, the note, the summary and the write time. */
  function ShiftPatch(note: string, s: ShiftSummary, now: int): ReportPatch {
    ReportPatch(Put(Str("無し")), Put(Str(note)), Keep, Keep, Put(s), Put(now))
  }

  /**
   * The handler. A missing or empty `date` is refused with 400 before anything is read
   * or written; otherwise the three rows early, late and total are upserted on
   * (date, shift) and nothing else changes.
   */
  method Generate(table: ReportTable, date: Option<string>, day: Option<int>, orders: seq<SaleOrder>, now: int)
    returns (status: int)
    modifies table
    ensures date == None || date == Some("") ==> status == 400 && table.rows == old(table.rows)
    ensures date.Some? && date.value != "" ==> status == 200
    ensures date.Some? && date.value != "" ==>
      var d, test := Str(date.value), EarlyTest(Cutoff(day));
      var e, l := SummaryOf(Server, Filter(orders, test)), SummaryOf(Server, FilterOut(orders, test));
      var r0 := old(table.rows);
      var r1 := r0[(d, Str("early")) := Patch(if (d, Str("early")) in r0 then r0[(d, Str("early"))] else EmptyRow, ShiftPatch("", e, now))];
      var r2 := r1[(d, Str("late")) := Patch(if (d, Str("late")) in r1 then r1[(d, Str("late"))] else EmptyRow, ShiftPatch("", l, now))];
      table.rows == r2[(d, Str("total")) := Patch(if (d, Str("total")) in r2 then r2[(d, Str("total"))] else EmptyRow,
                                                  ShiftPatch("集計自動生成データ", Merge(e, l), now))]
  {
    if date == None || date == Some("") {
      return 400;
    }
    var early, late := Aggregate(orders, Cutoff(day));
    var total := Merge(early, late);
    var d := Str(date.value);
    table.Upsert(d, Str("early"), ShiftPatch("", early, now));
    table.Upsert(d, Str("late"), ShiftPatch("", late, now));
    table.Upsert(d, Str("total"), ShiftPatch("集計自動生成データ", total, now));
    return 200;
  }
}

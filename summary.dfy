/**
 * `GET /api/orders/cup-inventory/summary?date=…`
 * (src/app/api/orders/cup-inventory/summary/route.ts): one day's cup summary from the daily
 * ledger (`cup-inventory.json`) and the stock movement file (`cupInventory.json`): the
 * previous day's remaining cups, the day's planned and used cups, the day's stock-in and
 * stock-out per cup type, and the resulting remaining cups.
 *
 * As in the available route, `day` is the UTC day number `new Date(targetDate)` denotes,
 * `None` when it is not a date (where `toISOString` throws and the handler answers 500).
 */
module CupSummaryRoute {
  import opened Wrappers
  import opened Text
  import opened Calendar
  import opened CupLedger

  /** A stock movement of the movement file, as the cup inventory page posts it. */
  datatype Movement = Movement(date: string, inStock: int, outStock: int, cupType: string)

  const Ice := "アイス"
  const Hot := "ホット"

  datatype Direction = StockIn | StockOut

  function Amount(m: Movement, d: Direction): int {
    if d == StockIn then m.inStock else m.outStock
  }

  /** `filter((r) => r.date === date && r.cupType === cup).reduce((sum, r) => sum + r.<field>, 0)`. */
  function StockSum(ms: seq<Movement>, date: string, cup: string, d: Direction): int {
    if ms == [] then 0
    else
      var m := ms[|ms| - 1];
      StockSum(ms[..|ms| - 1], date, cup, d) + (if m.date == date && m.cupType == cup then Amount(m, d) else 0)
  }

  /** The sums distribute over concatenation of movement lists. */
  lemma {:induction false} StockSumAppend(a: seq<Movement>, b: seq<Movement>, date: string, cup: string, d: Direction)
    ensures StockSum(a + b, date, cup, d) == StockSum(a, date, cup, d) + StockSum(b, date, cup, d)
    decreases |b|
  {
    if b == [] {
      assert a + b == a;
    } else {
      assert (a + b)[..|a + b| - 1] == a + b[..|b| - 1];
      StockSumAppend(a, b[..|b| - 1], date, cup, d);
    }
  }

  /** A movement of another day or another cup type adds nothing, wherever it sits. */
  lemma OtherMovementIgnored(a: seq<Movement>, m: Movement, b: seq<Movement>, date: string, cup: string, d: Direction)
    requires m.date != date || m.cupType != cup
    ensures StockSum(a + [m] + b, date, cup, d) == StockSum(a + b, date, cup, d)
  {
    StockSumAppend(a + [m], b, date, cup, d);
    StockSumAppend(a, [m], date, cup, d);
    StockSumAppend(a, b, date, cup, d);
    assert [m][..0] == [];
  }

  /** `find((r) => r.date.slice(0, 10) === key)`: the first entry whose date starts with the key. */
  function FindDay(entries: seq<DayEntry>, key: string): (r: Option<DayEntry>)
    ensures r.None? <==> forall i | 0 <= i < |entries| :: Prefix(entries[i].date, 10) != key
    ensures r.Some? ==> Prefix(r.value.date, 10) == key
    ensures r.Some? ==> exists i | 0 <= i < |entries| ::
      entries[i] == r.value && forall j | 0 <= j < i :: Prefix(entries[j].date, 10) != key
  {
    if entries == [] then None
    else if Prefix(entries[0].date, 10) == key then Some(entries[0])
    else
      var r := FindDay(entries[1..], key);
      assert forall i | 1 <= i < |entries| :: entries[i] == entries[1..][i - 1];
      if r.Some? then
        var i :| 0 <= i < |entries[1..]| && entries[1..][i] == r.value
          && forall j | 0 <= j < i :: Prefix(entries[1..][j].date, 10) != key;
        assert entries[i + 1] == r.value && forall j | 0 <= j < i + 1 :: Prefix(entries[j].date, 10) != key;
        r
      else r
  }

  /** `entry?.<field> || 0`. */
  function FieldOr0(e: Option<DayEntry>, f: DayEntry -> Option<int>): int {
    if e.Some? then OrZero(f(e.value)) else 0
  }

  datatype Summary = Summary(
    date: string,
    plannedIce: int, plannedHot: int, iceUsed: int, hotUsed: int,
    inStockIce: int, outStockIce: int, inStockHot: int, outStockHot: int,
    remainingIce: int, remainingHot: int)

  datatype Response = BadRequest | ServerError | Ok(body: Summary)

  /** The summary of a day, from its key, the previous day's entry and today's entry. */
  function DaySummary(targetDate: string, prevDay: Option<DayEntry>, today: Option<DayEntry>, ms: seq<Movement>): (s: Summary)
    ensures s.date == targetDate
    ensures s.inStockIce == StockSum(ms, targetDate, Ice, StockIn) && s.outStockIce == StockSum(ms, targetDate, Ice, StockOut)
    ensures s.inStockHot == StockSum(ms, targetDate, Hot, StockIn) && s.outStockHot == StockSum(ms, targetDate, Hot, StockOut)
    ensures s.plannedIce == FieldOr0(today, (e: DayEntry) => e.plannedIce) && s.iceUsed == FieldOr0(today, (e: DayEntry) => e.iceUsed)
    ensures s.plannedHot == FieldOr0(today, (e: DayEntry) => e.plannedHot) && s.hotUsed == FieldOr0(today, (e: DayEntry) => e.hotUsed)
    ensures s.remainingIce == FieldOr0(prevDay, (e: DayEntry) => e.remainingIce)
      + s.plannedIce + s.inStockIce - s.outStockIce - s.iceUsed
    ensures s.remainingHot == FieldOr0(prevDay, (e: DayEntry) => e.remainingHot)
      + s.plannedHot + s.inStockHot - s.outStockHot - s.hotUsed
  {
    var prevRemainingIce := FieldOr0(prevDay, (e: DayEntry) => e.remainingIce);
    var prevRemainingHot := FieldOr0(prevDay, (e: DayEntry) => e.remainingHot);
    var plannedIce := FieldOr0(today, (e: DayEntry) => e.plannedIce);
    var plannedHot := FieldOr0(today, (e: DayEntry) => e.plannedHot);
    var iceUsed := FieldOr0(today, (e: DayEntry) => e.iceUsed);
    var hotUsed := FieldOr0(today, (e: DayEntry) => e.hotUsed);
    var inStockIce := StockSum(ms, targetDate, Ice, StockIn);
    var outStockIce := StockSum(ms, targetDate, Ice, StockOut);
    var inStockHot := StockSum(ms, targetDate, Hot, StockIn);
    var outStockHot := StockSum(ms, targetDate, Hot, StockOut);
    Summary(targetDate, plannedIce, plannedHot, iceUsed, hotUsed,
      inStockIce, outStockIce, inStockHot, outStockHot,
      prevRemainingIce + plannedIce + inStockIce - outStockIce - iceUsed,
      prevRemainingHot + plannedHot + inStockHot - outStockHot - hotUsed)
  }

  /** The handler. */
  function Get(date: Option<string>, day: Option<int>, ledger: seq<DayEntry>, ms: seq<Movement>): (r: Response)
    ensures date.None? || date == Some("") <==> r == BadRequest
    ensures r == ServerError <==> date.Some? && date.value != "" && day.None?
    ensures r.Ok? ==> r.body == DaySummary(Prefix(date.value, 10),
      FindDay(ledger, DayKey(day.value - 1)), FindDay(ledger, Prefix(date.value, 10)), ms)
  {
    if date.None? || date.value == "" then BadRequest
    else
      var targetDate := Prefix(date.value, 10);
      if day.None? then ServerError
      else
        var prevDate := DayKey(day.value - 1);
        Ok(DaySummary(targetDate, FindDay(ledger, prevDate), FindDay(ledger, targetDate), ms))
  }

  /** The ice figures ignore every hot movement, and the hot figures every ice movement. */
  lemma CupTypesIndependent(targetDate: string, prevDay: Option<DayEntry>, today: Option<DayEntry>,
                            a: seq<Movement>, m: Movement, b: seq<Movement>)
    ensures var s1, s2 := DaySummary(targetDate, prevDay, today, a + [m] + b), DaySummary(targetDate, prevDay, today, a + b);
      (m.cupType != Ice ==> s1.inStockIce == s2.inStockIce && s1.outStockIce == s2.outStockIce && s1.remainingIce == s2.remainingIce)
      && (m.cupType != Hot ==> s1.inStockHot == s2.inStockHot && s1.outStockHot == s2.outStockHot && s1.remainingHot == s2.remainingHot)
  {
    if m.cupType != Ice {
      OtherMovementIgnored(a, m, b, targetDate, Ice, StockIn);
      OtherMovementIgnored(a, m, b, targetDate, Ice, StockOut);
    }
    if m.cupType != Hot {
      OtherMovementIgnored(a, m, b, targetDate, Hot, StockIn);
      OtherMovementIgnored(a, m, b, targetDate, Hot, StockOut);
    }
  }

  /** Movements of other days change nothing in the summary. */
  lemma OtherDaysIgnored(targetDate: string, prevDay: Option<DayEntry>, today: Option<DayEntry>,
                         a: seq<Movement>, m: Movement, b: seq<Movement>)
    requires m.date != targetDate
    ensures DaySummary(targetDate, prevDay, today, a + [m] + b) == DaySummary(targetDate, prevDay, today, a + b)
  {
    OtherMovementIgnored(a, m, b, targetDate, Ice, StockIn);
    OtherMovementIgnored(a, m, b, targetDate, Ice, StockOut);
    OtherMovementIgnored(a, m, b, targetDate, Hot, StockIn);
    OtherMovementIgnored(a, m, b, targetDate, Hot, StockOut);
  }

  /** Without the previous day's entry or today's entry, the absent figures count as 0. */
  lemma NoEntriesIsStockOnly(targetDate: string, ms: seq<Movement>)
    ensures var s := DaySummary(targetDate, None, None, ms);
      s.plannedIce == 0 && s.iceUsed == 0 && s.plannedHot == 0 && s.hotUsed == 0
      && s.remainingIce == s.inStockIce - s.outStockIce
      && s.remainingHot == s.inStockHot - s.outStockHot
  {
  }
}

/**
 * The cup ledger page (src/app/cup-inventory/page.tsx): each cup type has a list of
 * stock movements labelled `M月D日`, or the carry-over sentinel `繰り越し`. The page sorts
 * them, runs a stock total from a baseline of 200 (reset at every sentinel), shows the
 * selected month, and appends the movements entered in its stock modal.
 *
 * `new Date()` is an input: the current year `thisYear` and, for the modal label, today's
 * calendar date. Dates are local day numbers; the ledger runs in a zone without summer
 * time, so two local midnights are a whole number of days apart.
 */
module CupInventoryPage {
  import opened Wrappers
  import opened Text
  import opened Calendar
  import Sorting

  datatype CupType = IceCup | HotCup

  /** The stock modal's two modes: 入庫 (stock in) and 出庫 (stock out). */
  datatype Mode = StockIn | StockOut

  const Carry: string := "繰り越し"
  const Baseline := 200

  datatype InventoryRecord = InventoryRecord(
    date: string, inStock: int, outStock: int, cupType: CupType, remaining: Option<int>)

  /** `^(\d{1,2})月(\d{1,2})日$`: the month and day numbers of a `M月D日` label. */
  function MatchMonthDay(s: string): Option<(nat, nat)> {
    var a := DigitPrefix(s);
    if 1 <= |a| <= 2 && |a| < |s| && s[|a|] == '月' then
      var rest := s[|a| + 1..];
      var b := DigitPrefix(rest);
      if 1 <= |b| <= 2 && rest[|b|..] == "日" then Some((DigitsValue(a), DigitsValue(b))) else None
    else None
  }

  /** Any one- or two-digit month and day around `月` and `日` match, leading zeros included. */
  lemma MatchLabel(a: string, b: string)
    requires AllDigits(a) && AllDigits(b) && 1 <= |a| <= 2 && 1 <= |b| <= 2
    ensures MatchMonthDay(a + "月" + b + "日") == Some((DigitsValue(a), DigitsValue(b)))
  {
    var s, rest := a + "月" + b + "日", b + "日";
    LabelParts(a, '月', rest);
    assert s == a + ['月'] + rest;
    DigitPrefixConcat(a, ['月'] + rest);
    DigitPrefixConcat(b, "日");
    assert rest[|b|..] == "日";
  }

  lemma LabelParts(a: string, c: char, rest: string)
    ensures a + [c] + rest == a + ([c] + rest)
    ensures (a + [c] + rest)[|a|] == c && (a + [c] + rest)[|a| + 1..] == rest
  {
  }

  /** The sentinel is not a date label. */
  lemma CarryIsNoLabel()
    ensures MatchMonthDay(Carry) == None
  {
    assert !IsDigit(Carry[0]);
    assert DigitPrefix(Carry) == [];
  }

  /**
   * `parseDate`: `None` for the sentinel and for anything that is not a `M月D日` label;
   * otherwise the local day `new Date(thisYear, M - 1, D)`, overflow included.
   */
  function ParseDate(s: string, thisYear: int): (r: Option<int>)
    ensures s == Carry ==> r.None?
    ensures r.Some? <==> MatchMonthDay(s).Some?
  {
    CarryIsNoLabel();
    if s == Carry then None
    else
      match MatchMonthDay(s)
      case None => None
      case Some((m, d)) => Some(DaysFromLocalParts(thisYear, m - 1, d))
  }

  /** The label the stock modal writes for today: `${month}月${day}日`. */
  function TodayLabel(c: Civil): string {
    Decimal(c.month) + "月" + Decimal(c.day) + "日"
  }

  /** The modal's label for a date of the current year parses back to that very date. */
  lemma TodayLabelParses(c: Civil)
    requires ValidCivil(c)
    ensures ParseDate(TodayLabel(c), c.year) == Some(DaysFromCivil(c))
    ensures CivilFromDays(ParseDate(TodayLabel(c), c.year).value) == c
  {
    var a, b := Decimal(c.month), Decimal(c.day);
    DigitsLength(c.month, 2);
    DigitsLength(c.day, 2);
    assert Pow10(2) == 100;
    DigitsRoundTrip(c.month);
    DigitsRoundTrip(c.day);
    MatchLabel(a, b);
    assert TodayLabel(c) != Carry by {
      assert TodayLabel(c)[0] == a[0] && IsDigit(a[0]) && !IsDigit(Carry[0]);
    }
    DaysFromLocalPartsInRange(c);
  }

  /**
   * The sort comparator: a sentinel on the left comes first, then a sentinel on the
   * right comes first, then two labels that both parse compare by time, anything else ties.
   */
  function CompareRecords(thisYear: int, a: InventoryRecord, b: InventoryRecord): int {
    if a.date == Carry then -1
    else if b.date == Carry then 1
    else
      var da, db := ParseDate(a.date, thisYear), ParseDate(b.date, thisYear);
      if da.None? || db.None? then 0 else (da.value - db.value) * DayMs
  }

  function Compare(thisYear: int): (InventoryRecord, InventoryRecord) -> int {
    (a: InventoryRecord, b: InventoryRecord) => CompareRecords(thisYear, a, b)
  }

  /** Every record is the sentinel or carries a label that parses. */
  predicate AllParse(rs: seq<InventoryRecord>, thisYear: int) {
    forall r | r in rs :: r.date == Carry || ParseDate(r.date, thisYear).Some?
  }

  /** When every label parses, the comparator is a consistent order on the ledger. */
  lemma CompareConsistent(rs: seq<InventoryRecord>, thisYear: int)
    requires AllParse(rs, thisYear)
    ensures Sorting.Consistent(Compare(thisYear), rs)
  {
    var cmp := Compare(thisYear);
    forall a, b, c | a in rs && b in rs && c in rs
      && Sorting.Before(cmp, a, b) && Sorting.Before(cmp, b, c)
      ensures Sorting.Before(cmp, a, c)
    {
      assert cmp(a, b) == CompareRecords(thisYear, a, b);
      assert cmp(b, c) == CompareRecords(thisYear, b, c);
      assert cmp(a, c) == CompareRecords(thisYear, a, c);
    }
    forall a, b | a in rs && b in rs && cmp(a, b) > 0
      ensures Sorting.Before(cmp, b, a)
    {
      assert cmp(a, b) == CompareRecords(thisYear, a, b);
      assert cmp(b, a) == CompareRecords(thisYear, b, a);
    }
  }

  /**
   * The sorted ledger lists every sentinel before every dated record, and the dated
   * records by ascending date, provided every label parses.
   */
  lemma SortedLedger(rs: seq<InventoryRecord>, thisYear: int, i: int, j: int)
    requires AllParse(rs, thisYear)
    requires 0 <= i < j < |rs|
    ensures var s := Sorting.Sort(Compare(thisYear), rs);
      (s[j].date == Carry ==> s[i].date == Carry)
      && (s[i].date != Carry && s[j].date != Carry ==> NotLater(thisYear, s[i], s[j]))
  {
    var s := Sorting.Sort(Compare(thisYear), rs);
    CompareConsistent(rs, thisYear);
    Sorting.SortSorted(Compare(thisYear), rs, rs);
    assert Sorting.Before(Compare(thisYear), s[i], s[j]);
    assert s[i] in multiset(rs) && s[j] in multiset(rs);
    OrderedPair(thisYear, s[i], s[j]);
  }

  /** Both labels parse and the first date is not after the second. */
  predicate NotLater(thisYear: int, x: InventoryRecord, y: InventoryRecord) {
    var dx, dy := ParseDate(x.date, thisYear), ParseDate(y.date, thisYear);
    dx.Some? && dy.Some? && dx.value <= dy.value
  }

  lemma OrderedPair(thisYear: int, x: InventoryRecord, y: InventoryRecord)
    requires x.date == Carry || ParseDate(x.date, thisYear).Some?
    requires y.date == Carry || ParseDate(y.date, thisYear).Some?
    requires Sorting.Before(Compare(thisYear), x, y)
    ensures y.date == Carry ==> x.date == Carry
    ensures x.date != Carry && y.date != Carry ==> NotLater(thisYear, x, y)
  {
    assert Compare(thisYear)(x, y) == CompareRecords(thisYear, x, y);
  }

  /** One record's effect on the running total: a sentinel resets it to the baseline. */
  function Step(total: int, r: InventoryRecord): int {
    if r.date == Carry then Baseline else total + r.inStock - r.outStock
  }

  /** The running total after the records of `rs`, starting from the baseline. */
  function TotalAfter(rs: seq<InventoryRecord>): int {
    if rs == [] then Baseline else Step(TotalAfter(rs[..|rs| - 1]), rs[|rs| - 1])
  }

  /** Each record with `remaining` set to the running total just after it. */
  function WithRemaining(rs: seq<InventoryRecord>): seq<InventoryRecord> {
    seq(|rs|, i requires 0 <= i < |rs| => rs[i].(remaining := Some(TotalAfter(rs[..i + 1]))))
  }

  /** `calcRemaining`: sort a copy, then walk it once keeping the running total. */
  method CalcRemaining(records: seq<InventoryRecord>, thisYear: int) returns (out: seq<InventoryRecord>)
    ensures out == WithRemaining(Sorting.Sort(Compare(thisYear), records))
  {
    var sorted := Sorting.Sort(Compare(thisYear), records);
    out := RunningTotals(sorted);
  }

  /** The `map` over the sorted copy, with `total` starting at the baseline. */
  method RunningTotals(sorted: seq<InventoryRecord>) returns (out: seq<InventoryRecord>)
    ensures out == WithRemaining(sorted)
  {
    var total := Baseline;
    out := [];
    var i := 0;
    while i < |sorted|
      invariant 0 <= i <= |sorted|
      invariant total == TotalAfter(sorted[..i])
      invariant |out| == i
      invariant forall k | 0 <= k < i :: out[k] == sorted[k].(remaining := Some(TotalAfter(sorted[..k + 1])))
    {
      var r := sorted[i];
      if r.date == Carry {
        total := Baseline;
      } else {
        total := total + r.inStock - r.outStock;
      }
      assert sorted[..i + 1][..i] == sorted[..i];
      out := out + [r.(remaining := Some(total))];
      i := i + 1;
    }
  }

  /**
   * The shown ledger is the sorted input, record for record, with only `remaining`
   * filled in: same length, same records as a multiset, the other fields untouched.
   */
  lemma LedgerShape(records: seq<InventoryRecord>, thisYear: int)
    ensures var s := Sorting.Sort(Compare(thisYear), records);
      |WithRemaining(s)| == |records| && multiset(s) == multiset(records)
      && forall i | 0 <= i < |s| :: WithRemaining(s)[i].(remaining := s[i].remaining) == s[i]
  {
  }

  /** A sentinel shows 200; any other record shows the previous total plus in minus out. */
  lemma RemainingSteps(rs: seq<InventoryRecord>, i: int)
    requires 0 <= i < |rs|
    ensures rs[i].date == Carry ==> WithRemaining(rs)[i].remaining == Some(Baseline)
    ensures rs[i].date != Carry && i == 0 ==>
      WithRemaining(rs)[i].remaining == Some(Baseline + rs[i].inStock - rs[i].outStock)
    ensures rs[i].date != Carry && i > 0 ==>
      WithRemaining(rs)[i].remaining.value
        == WithRemaining(rs)[i - 1].remaining.value + rs[i].inStock - rs[i].outStock
  {
    assert rs[..i + 1][..i] == rs[..i];
    if i == 0 {
      var p := rs[..1];
      assert p[..|p| - 1] == [] && p[|p| - 1] == rs[0];
      assert TotalAfter(p) == Step(Baseline, rs[0]);
      assert WithRemaining(rs)[0] == rs[0].(remaining := Some(TotalAfter(p)));
    } else {
      assert rs[..i][..i - 1] == rs[..i - 1];
    }
  }

  /** The net movement of a list of records. */
  function Net(rs: seq<InventoryRecord>): int {
    if rs == [] then 0 else Net(rs[..|rs| - 1]) + rs[|rs| - 1].inStock - rs[|rs| - 1].outStock
  }

  predicate NoCarry(rs: seq<InventoryRecord>) {
    forall i | 0 <= i < |rs| :: rs[i].date != Carry
  }

  /** Without a sentinel the total is the baseline plus the net movement. */
  lemma {:induction false} TotalWithoutCarry(rs: seq<InventoryRecord>)
    requires NoCarry(rs)
    ensures TotalAfter(rs) == Baseline + Net(rs)
  {
    if rs != [] {
      TotalWithoutCarry(rs[..|rs| - 1]);
    }
  }

  /** After the last sentinel the total is the baseline plus the later movements only. */
  lemma {:induction false} TotalAfterLastCarry(rs: seq<InventoryRecord>, k: int)
    requires 0 <= k < |rs| && rs[k].date == Carry && NoCarry(rs[k + 1..])
    ensures TotalAfter(rs) == Baseline + Net(rs[k + 1..])
  {
    if k == |rs| - 1 {
      assert rs[k + 1..] == [];
    } else {
      var p := rs[..|rs| - 1];
      assert p[k + 1..] == rs[k + 1..][..|rs[k + 1..]| - 1];
      assert NoCarry(p[k + 1..]);
      TotalAfterLastCarry(p, k);
      assert rs[|rs| - 1] == rs[k + 1..][|rs[k + 1..]| - 1];
    }
  }

  /** `filterByMonth`: the sentinel always, a dated record when its date is in the month. */
  predicate Shown(r: InventoryRecord, year: int, month: int, thisYear: int) {
    r.date == Carry
    || (var dt := ParseDate(r.date, thisYear);
        dt.Some? && CivilFromDays(dt.value).year == year && CivilFromDays(dt.value).month == month)
  }

  function FilterByMonth(rs: seq<InventoryRecord>, year: int, month: int, thisYear: int)
    : (out: seq<InventoryRecord>)
    ensures forall r :: r in out <==> r in rs && Shown(r, year, month, thisYear)
    ensures |out| <= |rs|
  {
    if rs == [] then []
    else
      var rest := FilterByMonth(rs[1..], year, month, thisYear);
      assert forall r :: r in rs <==> r == rs[0] || r in rs[1..];
      if Shown(rs[0], year, month, thisYear) then [rs[0]] + rest else rest
  }

  /** Filtering keeps order and multiplicity: a record added last is shown last, or not at all. */
  lemma {:induction false} FilterByMonthSnoc(rs: seq<InventoryRecord>, r: InventoryRecord, year: int, month: int, thisYear: int)
    ensures FilterByMonth(rs + [r], year, month, thisYear) ==
      FilterByMonth(rs, year, month, thisYear) + (if Shown(r, year, month, thisYear) then [r] else [])
  {
    if rs != [] {
      assert (rs + [r])[1..] == rs[1..] + [r];
      FilterByMonthSnoc(rs[1..], r, year, month, thisYear);
    } else {
      assert rs + [r] == [r];
    }
  }

  /** A movement entered today is shown when today's month of the current year is selected. */
  lemma TodayRecordShown(r: InventoryRecord, c: Civil)
    requires ValidCivil(c) && r.date == TodayLabel(c)
    ensures Shown(r, c.year, c.month, c.year)
  {
    TodayLabelParses(c);
  }

  /** The records of one cup type, in their fetched order. */
  function OfType(data: seq<InventoryRecord>, t: CupType): (rs: seq<InventoryRecord>)
    ensures forall r :: r in rs <==> r in data && r.cupType == t
  {
    if data == [] then []
    else
      var rest := OfType(data[1..], t);
      assert forall r :: r in data <==> r == data[0] || r in data[1..];
      if data[0].cupType == t then [data[0]] + rest else rest
  }

  /** Selecting a type keeps order and multiplicity: a record added last comes last, if of that type. */
  lemma {:induction false} OfTypeSnoc(data: seq<InventoryRecord>, r: InventoryRecord, t: CupType)
    ensures OfType(data + [r], t) == OfType(data, t) + (if r.cupType == t then [r] else [])
  {
    if data != [] {
      assert (data + [r])[1..] == data[1..] + [r];
      OfTypeSnoc(data[1..], r, t);
    } else {
      assert data + [r] == [r];
    }
  }

  /** The sentinel a cup type's ledger starts from when the file has none of its records. */
  function CarryRecord(t: CupType): InventoryRecord {
    InventoryRecord(Carry, 0, 0, t, None)
  }

  /**
   * The list loaded for one cup type: the fetched records of that type, or a single
   * zero sentinel when there are none.
   */
  function LedgerOf(data: seq<InventoryRecord>, t: CupType): (rs: seq<InventoryRecord>)
    ensures |rs| >= 1 && forall r | r in rs :: r.cupType == t
    ensures (forall r | r in data :: r.cupType != t) ==> rs == [CarryRecord(t)]
    ensures (exists r | r in data :: r.cupType == t) ==> forall r :: r in rs <==> r in data && r.cupType == t
  {
    var rs := OfType(data, t);
    if rs == [] then [CarryRecord(t)]
    else
      assert rs[0] in rs;
      rs
  }

  /**
   * The stock modal's submit check: `Number(count)` must not be NaN, and a stock-out
   * must be at least 1. Stock-in takes zero and negative counts.
   */
  function ModalCount(count: string, mode: Mode): (r: Option<int>)
    ensures r.Some? ==> NumberOf(count) == r
    ensures mode == StockOut && r.Some? ==> r.value >= 1
    ensures NumberOf(count).Some? && (mode == StockIn || NumberOf(count).value > 0) ==> r == NumberOf(count)
  {
    var num := NumberOf(count);
    if num.None? then None
    else if mode == StockOut && num.value <= 0 then None
    else num
  }

  /** Stock-in accepts every integer, stock-out exactly the positive ones. */
  lemma ModalCountOfNumber(n: int)
    ensures ModalCount(Decimal(n), StockIn) == Some(n)
    ensures ModalCount(Decimal(n), StockOut) == (if n >= 1 then Some(n) else None)
  {
    NumberOfDecimal(n);
  }

  /** The record the modal's submit creates. */
  function NewRecord(date: string, count: int, mode: Mode, t: CupType): (r: InventoryRecord)
    ensures mode == StockIn ==> r.inStock == count && r.outStock == 0
    ensures mode == StockOut ==> r.inStock == 0 && r.outStock == count
    ensures r.date == date && r.cupType == t && r.remaining == None
  {
    InventoryRecord(date, if mode == StockIn then count else 0, if mode == StockOut then count else 0, t, None)
  }

  /** The page's state: the two ledgers and the open modal's cup type and mode. */
  class CupInventory {
    var iceRecords: seq<InventoryRecord>
    var hotRecords: seq<InventoryRecord>
    var modalCupType: CupType
    var modalMode: Mode
    var modalVisible: bool

    constructor()
      ensures iceRecords == [] && hotRecords == [] && !modalVisible
      ensures modalCupType == IceCup && modalMode == StockIn
    {
      iceRecords, hotRecords := [], [];
      modalCupType, modalMode, modalVisible := IceCup, StockIn, false;
    }

    /** `fetchData`: split the fetched records by cup type, defaulting empty lists. */
    method Load(data: seq<InventoryRecord>)
      modifies this
      ensures iceRecords == LedgerOf(data, IceCup) && hotRecords == LedgerOf(data, HotCup)
      ensures modalCupType == old(modalCupType) && modalMode == old(modalMode)
      ensures modalVisible == old(modalVisible)
    {
      iceRecords := LedgerOf(data, IceCup);
      hotRecords := LedgerOf(data, HotCup);
    }

    method OpenModal(t: CupType, mode: Mode)
      modifies this
      ensures modalCupType == t && modalMode == mode && modalVisible
      ensures iceRecords == old(iceRecords) && hotRecords == old(hotRecords)
    {
      modalCupType, modalMode, modalVisible := t, mode, true;
    }

    /**
     * `handleModalSubmit`: the new record goes to the end of the chosen type's list only;
     * the modal closes. The record is returned as the one posted to the server.
     */
    method HandleModalSubmit(date: string, count: int) returns (posted: InventoryRecord)
      modifies this
      ensures posted == NewRecord(date, count, old(modalMode), old(modalCupType))
      ensures old(modalCupType) == IceCup ==>
        iceRecords == old(iceRecords) + [posted] && hotRecords == old(hotRecords)
      ensures old(modalCupType) == HotCup ==>
        hotRecords == old(hotRecords) + [posted] && iceRecords == old(iceRecords)
      ensures !modalVisible && modalCupType == old(modalCupType) && modalMode == old(modalMode)
    {
      posted := NewRecord(date, count, modalMode, modalCupType);
      if modalCupType == IceCup {
        iceRecords := iceRecords + [posted];
      } else {
        hotRecords := hotRecords + [posted];
      }
      modalVisible := false;
    }

    /** The rows shown for one cup type: the running totals, then the month filter. */
    function View(t: CupType, year: int, month: int, thisYear: int): seq<InventoryRecord>
      reads this
    {
      var rs := if t == IceCup then iceRecords else hotRecords;
      FilterByMonth(WithRemaining(Sorting.Sort(Compare(thisYear), rs)), year, month, thisYear)
    }
  }
}

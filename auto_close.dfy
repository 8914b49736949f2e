/**
 * `POST /api/orders/cup-inventory/auto-close`
 * (src/app/api/orders/cup-inventory/auto-close/route.ts): closes yesterday in the daily
 * cup ledger by appending one entry with the number of ice and hot cups the completed
 * orders of that day used, unless the ledger already has an entry for that date.
 *
 * `new Date()` is an input: `today` is the server's local day number. The order file is
 * given as its parsed records, each with its creation instant in milliseconds.
 */
module AutoClose {
  import opened Wrappers
  import opened Text
  import opened Calendar
  import opened CupLedger

  datatype FileOrder = FileOrder(createdAt: int, status: string, drinkType: string)

  /** `${yyyy}-${mm}-${dd}` of a local day: the year as is, month and day on two digits. */
  function LocalKey(d: int): string {
    var c := CivilFromDays(d);
    Decimal(c.year) + "-" + Pad2(c.month) + "-" + Pad2(c.day)
  }

  /** For four-digit years the local key is the ISO date key of the same day. */
  lemma LocalKeyIsDayKey(d: int)
    requires FourDigitDay(d)
    ensures LocalKey(d) == DayKey(d)
  {
    var y := CivilFromDays(d).year;
    assert Pow10(3) == 1000 && Pow10(4) == 10000;
    DigitsLengthExact(y, 4);
  }

  /** An order the handler counts: completed, with the target as its UTC date key. */
  predicate Counted(o: FileOrder, key: string) {
    IsoDateKey(o.createdAt) == key && o.status == "completed"
  }

  /** `targetOrders.filter((o) => o.drinkType === drink).length`. */
  function Used(orders: seq<FileOrder>, key: string, drink: string): nat {
    if orders == [] then 0
    else
      var o := orders[|orders| - 1];
      Used(orders[..|orders| - 1], key, drink) + (if Counted(o, key) && o.drinkType == drink then 1 else 0)
  }

  /** Counting distributes over concatenation of order lists. */
  lemma {:induction false} UsedAppend(a: seq<FileOrder>, b: seq<FileOrder>, key: string, drink: string)
    ensures Used(a + b, key, drink) == Used(a, key, drink) + Used(b, key, drink)
    decreases |b|
  {
    if b == [] {
      assert a + b == a;
    } else {
      assert (a + b)[..|a + b| - 1] == a + b[..|b| - 1];
      UsedAppend(a, b[..|b| - 1], key, drink);
    }
  }

  /** A pending or cancelled order never changes a count, wherever it sits. */
  lemma NotCompletedIgnored(a: seq<FileOrder>, o: FileOrder, b: seq<FileOrder>, key: string, drink: string)
    requires o.status != "completed"
    ensures Used(a + [o] + b, key, drink) == Used(a + b, key, drink)
  {
    UsedAppend(a + [o], b, key, drink);
    UsedAppend(a, [o], key, drink);
    UsedAppend(a, b, key, drink);
    assert [o][..0] == [];
  }

  /**
   * Within four-digit years the key test picks exactly the orders of UTC day `d`: the
   * order counts for `LocalKey(d)` when it is completed and created on that day.
   */
  lemma CountedOnDay(o: FileOrder, d: int)
    requires FourDigitDay(d) && FourDigitDay(DayOf(o.createdAt))
    ensures Counted(o, LocalKey(d)) <==> o.status == "completed" && DayOf(o.createdAt) == d
  {
    LocalKeyIsDayKey(d);
    IsoDateKeyOfDay(o.createdAt);
    if DayOf(o.createdAt) != d {
      DayKeyInjective(DayOf(o.createdAt), d);
    }
  }

  /** The appended entry: the date, both cup counts and zero planned cups. */
  function NewEntry(key: string, orders: seq<FileOrder>): (e: DayEntry)
    ensures e.date == key && e.plannedIce == Some(0) && e.plannedHot == Some(0)
    ensures e.iceUsed == Some(Used(orders, key, "ice") as int)
    ensures e.hotUsed == Some(Used(orders, key, "hot") as int)
  {
    DayEntry(key, Some(0), Some(0), Some(Used(orders, key, "ice")), Some(Used(orders, key, "hot")), None, None)
  }

  predicate HasDate(ledger: seq<DayEntry>, key: string) {
    exists i | 0 <= i < |ledger| :: ledger[i].date == key
  }

  lemma HasDateStep(ledger: seq<DayEntry>, i: int, key: string)
    requires 0 <= i < |ledger|
    ensures HasDate(ledger[..i + 1], key) <==> HasDate(ledger[..i], key) || ledger[i].date == key
  {
    assert forall j | 0 <= j < i :: ledger[..i + 1][j] == ledger[..i][j];
    assert ledger[..i + 1][i] == ledger[i];
  }

  /** The target key: the local day before `today`. */
  function TargetKey(today: int): string {
    LocalKey(today - 1)
  }

  /** The ledger after one run: unchanged when the date is there, one entry longer otherwise. */
  function Closed(ledger: seq<DayEntry>, orders: seq<FileOrder>, today: int): (r: seq<DayEntry>)
    ensures HasDate(r, TargetKey(today))
    ensures |ledger| <= |r| <= |ledger| + 1
  {
    var key := TargetKey(today);
    if HasDate(ledger, key) then ledger
    else
      var l := ledger + [NewEntry(key, orders)];
      assert l[|ledger|].date == key;
      l
  }

  /** Running the close twice for the same day changes nothing the second time. */
  lemma ClosedIdempotent(ledger: seq<DayEntry>, orders1: seq<FileOrder>, orders2: seq<FileOrder>, today: int)
    ensures Closed(Closed(ledger, orders1, today), orders2, today) == Closed(ledger, orders1, today)
  {
    var l := Closed(ledger, orders1, today);
    if !HasDate(ledger, TargetKey(today)) {
      assert l[|ledger|].date == TargetKey(today);
    }
  }

  /** The number of entries with this date. */
  function CountDate(ledger: seq<DayEntry>, key: string): nat {
    if ledger == [] then 0
    else CountDate(ledger[..|ledger| - 1], key) + (if ledger[|ledger| - 1].date == key then 1 else 0)
  }

  lemma {:induction false} CountDateZero(ledger: seq<DayEntry>, key: string)
    ensures CountDate(ledger, key) == 0 <==> !HasDate(ledger, key)
  {
    if ledger != [] {
      var p := ledger[..|ledger| - 1];
      CountDateZero(p, key);
      if HasDate(p, key) {
        var i :| 0 <= i < |p| && p[i].date == key;
        assert ledger[i].date == key;
      }
      if HasDate(ledger, key) && ledger[|ledger| - 1].date != key {
        var i :| 0 <= i < |ledger| && ledger[i].date == key;
        assert p[i].date == key;
      }
    }
  }

  /** After a run the ledger has at least one entry for the date, and never a new duplicate. */
  lemma ClosedCountsOnce(ledger: seq<DayEntry>, orders: seq<FileOrder>, today: int)
    ensures var key := TargetKey(today);
      CountDate(Closed(ledger, orders, today), key)
        == if CountDate(ledger, key) == 0 then 1 else CountDate(ledger, key)
  {
    var key := TargetKey(today);
    CountDateZero(ledger, key);
    var l := Closed(ledger, orders, today);
    if !HasDate(ledger, key) {
      assert l[..|l| - 1] == ledger;
    }
  }

  /** Earlier entries are kept as they are, and at most one entry is added, at the end. */
  lemma ClosedAppendsOnly(ledger: seq<DayEntry>, orders: seq<FileOrder>, today: int)
    ensures var l := Closed(ledger, orders, today);
      |ledger| <= |l| <= |ledger| + 1 && l[..|ledger|] == ledger
  {
    var key := TargetKey(today);
    if !HasDate(ledger, key) {
      AppendKeepsPrefix(ledger, NewEntry(key, orders));
    }
  }

  lemma AppendKeepsPrefix(ledger: seq<DayEntry>, e: DayEntry)
    ensures (ledger + [e])[..|ledger|] == ledger
  {
  }

  /** `ledger.some((entry) => entry.date === key)`. */
  method AnyWithDate(ledger: seq<DayEntry>, key: string) returns (found: bool)
    ensures found <==> HasDate(ledger, key)
  {
    found := false;
    var i := 0;
    while i < |ledger|
      invariant 0 <= i <= |ledger|
      invariant found <==> HasDate(ledger[..i], key)
    {
      HasDateStep(ledger, i, key);
      if ledger[i].date == key {
        found := true;
      }
      i := i + 1;
    }
    assert ledger[..i] == ledger;
  }

  /** The ledger file the handler reads and rewrites. */
  class LedgerFile {
    var entries: seq<DayEntry>

    constructor(entries0: seq<DayEntry>)
      ensures entries == entries0
    {
      entries := entries0;
    }

    /**
     * The handler: look for the target date (`some`), then append and rewrite, or skip.
     * Returns the entry it wrote, `None` when the date was already recorded.
     */
    method Post(orders: seq<FileOrder>, today: int) returns (written: Option<DayEntry>)
      modifies this
      ensures entries == Closed(old(entries), orders, today)
      ensures written.Some? <==> !HasDate(old(entries), TargetKey(today))
      ensures written.Some? ==> written.value == NewEntry(TargetKey(today), orders)
    {
      var key := TargetKey(today);
      var alreadyExists := AnyWithDate(entries, key);
      if alreadyExists {
        return None;
      }
      var newEntry := NewEntry(key, orders);
      entries := entries + [newEntry];
      return Some(newEntry);
    }
  }
}

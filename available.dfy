/**
 * `GET /api/orders/cup-inventory/available?date=…`
 * (src/app/api/orders/cup-inventory/available/route.ts): the cups available on a day are
 * the day's planned cups plus what remained on the nearest earlier day, looked for up to
 * seven days back.
 *
 * The `date` parameter is given with the UTC day number `new Date(date)` denotes (`None`
 * when it is not a date, where `toISOString` throws and the handler answers 500).
 */
module AvailableRoute {
  import opened Wrappers
  import opened Calendar
  import opened CupLedger

  /** The keys of the seven preceding days, nearest first: `toISOString().slice(0, 10)`. */
  function LookBack(day: int): (keys: seq<string>)
    ensures |keys| == 7
    ensures forall j | 0 <= j < 7 :: keys[j] == DayKey(day - (j + 1))
  {
    BackKeys(DayKey, day)
  }

  /** `key(day - 1)`, …, `key(day - 7)`. */
  function BackKeys(key: int -> string, day: int): (keys: seq<string>)
    ensures |keys| == 7
    ensures forall j | 0 <= j < 7 :: keys[j] == key(day - (j + 1))
  {
    seq(7, j => key(day - (j + 1)))
  }

  /** The `i`-th day back is at position `i - 1`. */
  lemma LookBackAt(day: int, i: int)
    requires 1 <= i <= 7
    ensures LookBack(day)[i - 1] == DayKey(day - i)
  {
    var j := i - 1;
    assert day - (j + 1) == day - i;
  }

  /** The first position from `i` on whose key has an entry, or `|keys|` when none does. */
  function Nearest(data: seq<DayEntry>, keys: seq<string>, i: nat): (k: nat)
    requires i <= |keys|
    ensures i <= k <= |keys|
    ensures k < |keys| ==> Find(data, keys[k]).Some?
    ensures forall j | i <= j < k :: Find(data, keys[j]).None?
    decreases |keys| - i
  {
    if i == |keys| then i
    else if Find(data, keys[i]).Some? then i
    else Nearest(data, keys, i + 1)
  }

  /** The entry the handler calls `prev`: the one for the nearest of the seven preceding days. */
  function Previous(data: seq<DayEntry>, day: int): (r: Option<DayEntry>)
    ensures r.Some? ==> r.value in data && r.value.date in LookBack(day)
  {
    var keys := LookBack(day);
    var k := Nearest(data, keys, 0);
    if k < 7 then
      var e := Find(data, keys[k]);
      assert e.Some? ==> e.value.date == keys[k];
      e
    else None
  }

  datatype Available = Available(date: string, totalAvailableIce: int, totalAvailableHot: int)

  datatype Response = BadRequest | ServerError | Ok(body: Available)

  /** `(current?.plannedIce || 0) + (prev?.remainingIce || 0)`, and the same for hot. */
  function Totals(date: string, current: Option<DayEntry>, prev: Option<DayEntry>): (a: Available)
    ensures a.totalAvailableIce
      == (if current.Some? then OrZero(current.value.plannedIce) else 0)
       + (if prev.Some? then OrZero(prev.value.remainingIce) else 0)
    ensures a.totalAvailableHot
      == (if current.Some? then OrZero(current.value.plannedHot) else 0)
       + (if prev.Some? then OrZero(prev.value.remainingHot) else 0)
    ensures a.date == date
  {
    var plannedIce := if current.Some? then OrZero(current.value.plannedIce) else 0;
    var plannedHot := if current.Some? then OrZero(current.value.plannedHot) else 0;
    var remainingIce := if prev.Some? then OrZero(prev.value.remainingIce) else 0;
    var remainingHot := if prev.Some? then OrZero(prev.value.remainingHot) else 0;
    Available(date, plannedIce + remainingIce, plannedHot + remainingHot)
  }

  /** The handler, with the look-back loop and its early `break`. */
  method Get(date: Option<string>, day: Option<int>, data: seq<DayEntry>) returns (r: Response)
    ensures date.None? || date == Some("") ==> r == BadRequest
    ensures date.Some? && date.value != "" && day.None? ==> r == ServerError
    ensures date.Some? && date.value != "" && day.Some? ==>
      r == Ok(Totals(date.value, Find(data, date.value), Previous(data, day.value)))
  {
    if date.None? || date.value == "" {
      return BadRequest;
    }
    var current := Find(data, date.value);
    if day.None? {
      return ServerError;
    }
    var prev := NearestPrevious(data, day.value);
    return Ok(Totals(date.value, current, prev));
  }

  /** The look-back loop: days 1..7 back, stopping at the first day that has an entry. */
  method NearestPrevious(data: seq<DayEntry>, day: int) returns (prev: Option<DayEntry>)
    ensures prev == Previous(data, day)
  {
    ghost var keys := LookBack(day);
    prev := None;
    var i := 1;
    while i <= 7
      invariant 1 <= i <= 8
      invariant prev.None? && Nearest(data, keys, 0) == Nearest(data, keys, i - 1)
    {
      LookBackAt(day, i);
      prev := Find(data, DayKey(day - i));
      if prev.Some? {
        assert Nearest(data, keys, i - 1) == i - 1;
        return;
      }
      i := i + 1;
    }
  }

  /**
   * The look-back takes the nearest earlier day with an entry, even one without
   * `remainingIce`: older days are then not consulted.
   */
  lemma PreviousIsNearest(data: seq<DayEntry>, day: int, k: int)
    requires 0 <= k < 7 && Find(data, LookBack(day)[k]).Some?
    requires forall j | 0 <= j < k :: Find(data, LookBack(day)[j]).None?
    ensures Previous(data, day) == Find(data, DayKey(day - (k + 1)))
  {
    NearestFrom(data, LookBack(day), 0, k);
  }

  lemma {:induction false} NearestFrom(data: seq<DayEntry>, keys: seq<string>, i: nat, k: int)
    requires i <= k < |keys| && Find(data, keys[k]).Some?
    requires forall j | i <= j < k :: Find(data, keys[j]).None?
    ensures Nearest(data, keys, i) == k
    decreases k - i
  {
    if i < k {
      NearestFrom(data, keys, i + 1, k);
    }
  }

  /** With no entry in the seven preceding days, only the day's own planned cups count. */
  lemma NothingWithinAWeek(date: string, data: seq<DayEntry>, day: int)
    requires forall j | 0 <= j < 7 :: Find(data, LookBack(day)[j]).None?
    ensures Previous(data, day) == None
    ensures var a := Totals(date, Find(data, date), Previous(data, day));
      a.totalAvailableIce == (if Find(data, date).Some? then OrZero(Find(data, date).value.plannedIce) else 0)
  {
    var k := Nearest(data, LookBack(day), 0);
  }

  /** The previous entry, when there is one, is dated one of the seven preceding days. */
  lemma PreviousInWeek(data: seq<DayEntry>, day: int)
    ensures Previous(data, day).Some? ==> Previous(data, day).value.date in LookBack(day)
  {
    var keys := LookBack(day);
    var k := Nearest(data, keys, 0);
    if k < 7 {
      assert Previous(data, day).value.date == keys[k];
    }
  }

  /**
   * Within four-digit years none of the seven preceding days has the requested day's key,
   * so the requested day's own entry is never taken as the previous one.
   */
  lemma WeekKeysDiffer(day: int, j: int)
    requires FourDigitDay(day) && FourDigitDay(day - 7) && 1 <= j <= 7
    ensures DayKey(day - j) != DayKey(day)
  {
    WithinWeek(day, j);
    DayKeyInjective(day - j, day);
  }

  lemma WithinWeek(day: int, j: int)
    requires FourDigitDay(day) && FourDigitDay(day - 7) && 1 <= j <= 7
    ensures FourDigitDay(day - j)
  {
    FourDigitBetween(day - 7, day - j, day);
  }
}

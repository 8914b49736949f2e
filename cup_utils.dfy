/**
 * `getPreviousCupRemaining(baseDate)` (src/app/utils/cupUtils.ts): the cups left over from
 * the day before `baseDate`, read from the daily ledger as planned minus used, clamped at 0.
 *
 * `baseDate` is an instant in milliseconds. A ledger field that is absent is `undefined`
 * in the source, where the subtraction gives `NaN`; the result is then `None`.
 */
module CupUtils {
  import opened Wrappers
  import opened Calendar
  import opened CupLedger

  datatype Leftover = Leftover(ice: Option<int>, hot: Option<int>)

  /** `Math.max(planned - used, 0)`, `NaN` (`None`) when either operand is absent. */
  function Clamped(planned: Option<int>, used: Option<int>): (r: Option<int>)
    ensures r.Some? <==> planned.Some? && used.Some?
    ensures r.Some? ==> r.value >= 0 && r.value >= planned.value - used.value
    ensures r.Some? ==> r.value == 0 || r.value == planned.value - used.value
  {
    if planned.Some? && used.Some? then
      Some(if planned.value - used.value > 0 then planned.value - used.value else 0)
    else None
  }

  /** The key of the day before the instant: one day back, then `toISOString().slice(0, 10)`. */
  function PreviousKey(baseDate: int): string {
    IsoDateKey(baseDate - DayMs)
  }

  /** The figures of the record found, `{ice: 0, hot: 0}` when there is none. */
  function LeftoverOf(record: Option<DayEntry>): (r: Leftover)
    ensures record.None? ==> r == Leftover(Some(0), Some(0))
    ensures record.Some? ==> r.ice == Clamped(record.value.plannedIce, record.value.iceUsed)
    ensures record.Some? ==> r.hot == Clamped(record.value.plannedHot, record.value.hotUsed)
  {
    if record.None? then Leftover(Some(0), Some(0))
    else Leftover(Clamped(record.value.plannedIce, record.value.iceUsed),
                  Clamped(record.value.plannedHot, record.value.hotUsed))
  }

  /**
   * The function: `{ice: 0, hot: 0}` when no record carries the previous day's key; otherwise
   * the clamped figures of the first record that does.
   */
  function PreviousCupRemaining(baseDate: int, data: seq<DayEntry>): (r: Leftover)
    ensures (forall i | 0 <= i < |data| :: data[i].date != PreviousKey(baseDate)) ==>
      r == Leftover(Some(0), Some(0))
    ensures forall i | 0 <= i < |data| && data[i].date == PreviousKey(baseDate)
        && (forall j | 0 <= j < i :: data[j].date != PreviousKey(baseDate)) ::
      r == Leftover(Clamped(data[i].plannedIce, data[i].iceUsed), Clamped(data[i].plannedHot, data[i].hotUsed))
  {
    LeftoverFor(data, PreviousKey(baseDate))
  }

  /** The figures of the first record carrying `key`, `{ice: 0, hot: 0}` when none does. */
  function LeftoverFor(data: seq<DayEntry>, key: string): (r: Leftover)
    ensures (forall i | 0 <= i < |data| :: data[i].date != key) ==> r == Leftover(Some(0), Some(0))
    ensures forall i | 0 <= i < |data| && data[i].date == key && (forall j | 0 <= j < i :: data[j].date != key) ::
      r == Leftover(Clamped(data[i].plannedIce, data[i].iceUsed), Clamped(data[i].plannedHot, data[i].hotUsed))
  {
    FindIsFirst(data, key);
    LeftoverOf(Find(data, key))
  }

  /** The record found for a date is the first one carrying it. */
  lemma FindIsFirst(data: seq<DayEntry>, date: string)
    ensures forall i | 0 <= i < |data| && data[i].date == date && (forall j | 0 <= j < i :: data[j].date != date) ::
      Find(data, date) == Some(data[i])
  {
    forall i | 0 <= i < |data| && data[i].date == date && (forall j | 0 <= j < i :: data[j].date != date)
      ensures Find(data, date) == Some(data[i])
    {
      var k :| 0 <= k < |data| && data[k] == Find(data, date).value && data[k].date == date
        && forall j | 0 <= j < k :: data[j].date != date;
      assert !(k < i) && !(i < k);
    }
  }

  /** Whatever the ledger holds, neither figure is negative. */
  lemma LeftoverNonNegative(record: Option<DayEntry>)
    ensures var r := LeftoverOf(record);
      (r.ice.Some? ==> r.ice.value >= 0) && (r.hot.Some? ==> r.hot.value >= 0)
  {
  }

  /** With at least as many planned as used cups, the figure is exactly planned minus used. */
  lemma LeftoverExact(e: DayEntry)
    requires e.plannedIce.Some? && e.iceUsed.Some? && e.plannedIce.value >= e.iceUsed.value
    requires e.plannedHot.Some? && e.hotUsed.Some? && e.plannedHot.value >= e.hotUsed.value
    ensures LeftoverOf(Some(e)) == Leftover(Some(e.plannedIce.value - e.iceUsed.value),
                                            Some(e.plannedHot.value - e.hotUsed.value))
  {
  }

  /** Within four-digit years, the record looked up is the one keyed by the previous UTC day. */
  lemma PreviousKeyIsPreviousDay(baseDate: int)
    requires FourDigitDay(DayOf(baseDate) - 1)
    ensures PreviousKey(baseDate) == DayKey(DayOf(baseDate) - 1)
  {
    assert DayOf(baseDate - DayMs) == DayOf(baseDate) - 1;
    IsoDateKeyOfDay(baseDate - DayMs);
  }

  /**
   * Within four-digit years: the first record dated the UTC day before `baseDate`, with no
   * more cups used than planned, gives back exactly planned minus used of each drink.
   */
  lemma PreviousDayLeftover(baseDate: int, data: seq<DayEntry>, i: int)
    requires FourDigitDay(DayOf(baseDate) - 1)
    requires 0 <= i < |data| && data[i].date == DayKey(DayOf(baseDate) - 1)
    requires forall j | 0 <= j < i :: data[j].date != DayKey(DayOf(baseDate) - 1)
    requires data[i].plannedIce.Some? && data[i].iceUsed.Some? && data[i].plannedIce.value >= data[i].iceUsed.value
    requires data[i].plannedHot.Some? && data[i].hotUsed.Some? && data[i].plannedHot.value >= data[i].hotUsed.value
    ensures PreviousCupRemaining(baseDate, data) ==
      Leftover(Some(data[i].plannedIce.value - data[i].iceUsed.value),
               Some(data[i].plannedHot.value - data[i].hotUsed.value))
  {
    PreviousKeyIsPreviousDay(baseDate);
    LeftoverExact(data[i]);
  }
}

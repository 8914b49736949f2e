/**
 * The daily cup ledger file `data/cup-inventory.json`, shared by the auto-close, available,
 * summary, remaining and previous-remaining handlers and by `getPreviousCupRemaining`.
 * Each entry is keyed by a `YYYY-MM-DD` date string; its numeric fields may be absent
 * (`None`), which the handlers read as `undefined`.
 */
module CupLedger {
  import opened Wrappers

  datatype DayEntry = DayEntry(
    date: string,
    plannedIce: Option<int>, plannedHot: Option<int>,
    iceUsed: Option<int>, hotUsed: Option<int>,
    remainingIce: Option<int>, remainingHot: Option<int>)

  /** `x || 0` on a numeric field: absent, `null` and `0` all read as 0. */
  function OrZero(x: Option<int>): int {
    x.GetOr(0)
  }

  /** `entries.find((r) => r.date === date)`: the first entry with exactly this date. */
  function Find(entries: seq<DayEntry>, date: string): (r: Option<DayEntry>)
    ensures r.None? <==> forall i | 0 <= i < |entries| :: entries[i].date != date
    ensures r.Some? ==> r.value.date == date
    ensures r.Some? ==> exists i | 0 <= i < |entries| ::
      entries[i] == r.value && entries[i].date == date
      && forall j | 0 <= j < i :: entries[j].date != date
  {
    if entries == [] then None
    else if entries[0].date == date then
      Some(entries[0])
    else
      var r := Find(entries[1..], date);
      assert forall i | 1 <= i < |entries| :: entries[i] == entries[1..][i - 1];
      if r.Some? then
        var i :| 0 <= i < |entries[1..]| && entries[1..][i] == r.value && entries[1..][i].date == date
          && forall j | 0 <= j < i :: entries[1..][j].date != date;
        assert entries[i + 1] == r.value && forall j | 0 <= j < i + 1 :: entries[j].date != date;
        r
      else r
  }
}

/**
 * The client-side cup counter store `useCupInventory` (store/cupInventory.ts): six counters
 * and the actions that set, increment, reset and add to them.
 */
module CupStore {

  datatype Counters = Counters(
    totalIce: int, totalHot: int,
    plannedIce: int, plannedHot: int,
    usedIce: int, usedHot: int)

  const Initial := Counters(0, 0, 50, 50, 0, 0)

  class CupInventory {
    var totalIce: int
    var totalHot: int
    var plannedIce: int
    var plannedHot: int
    var usedIce: int
    var usedHot: int

    function State(): Counters
      reads this
    {
      Counters(totalIce, totalHot, plannedIce, plannedHot, usedIce, usedHot)
    }

    constructor()
      ensures State() == Initial
    {
      totalIce, totalHot := 0, 0;
      plannedIce, plannedHot := 50, 50;
      usedIce, usedHot := 0, 0;
    }

    method SetTotalIce(count: int)
      modifies this
      ensures State() == old(State()).(totalIce := count)
    {
      totalIce := count;
    }

    method SetTotalHot(count: int)
      modifies this
      ensures State() == old(State()).(totalHot := count)
    {
      totalHot := count;
    }

    method SetPlannedIce(count: int)
      modifies this
      ensures State() == old(State()).(plannedIce := count)
    {
      plannedIce := count;
    }

    method SetPlannedHot(count: int)
      modifies this
      ensures State() == old(State()).(plannedHot := count)
    {
      plannedHot := count;
    }

    /** Adds `count` (one by default) to the ice cups used; nothing else changes. */
    method IncrementUsedIce(count: int := 1)
      modifies this
      ensures State() == old(State()).(usedIce := old(usedIce) + count)
    {
      usedIce := usedIce + count;
    }

    method IncrementUsedHot(count: int := 1)
      modifies this
      ensures State() == old(State()).(usedHot := old(usedHot) + count)
    {
      usedHot := usedHot + count;
    }

    /** Zeroes both used counters; totals and planned counts stay. */
    method ResetUsed()
      modifies this
      ensures State() == old(State()).(usedIce := 0, usedHot := 0)
    {
      usedIce, usedHot := 0, 0;
    }

    method AddStockIce(count: int)
      modifies this
      ensures State() == old(State()).(totalIce := old(totalIce) + count)
    {
      totalIce := totalIce + count;
    }

    method AddStockHot(count: int)
      modifies this
      ensures State() == old(State()).(totalHot := old(totalHot) + count)
    {
      totalHot := totalHot + count;
    }
  }
}

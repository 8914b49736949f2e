/**
 * `GET /api/orders/get-previous-cup-remaining`
 * (src/app/api/orders/get-previous-cup-remaining/route.ts): the remaining cups of the last
 * ledger entry, in file order, that records both remaining figures.
 */
module PreviousRemainingRoute {
  import opened Wrappers
  import opened CupLedger

  /** `r.remainingIce != null && r.remainingHot != null`. */
  predicate Complete(e: DayEntry) {
    e.remainingIce.Some? && e.remainingHot.Some?
  }

  /** `[...records].reverse()`: a reversed copy. */
  function Reverse(s: seq<DayEntry>): (r: seq<DayEntry>)
    ensures |r| == |s|
    ensures forall i | 0 <= i < |s| :: r[i] == s[|s| - 1 - i]
  {
    if s == [] then [] else [s[|s| - 1]] + Reverse(s[..|s| - 1])
  }

  /** `find(Complete)`: the first complete entry. */
  function FirstComplete(s: seq<DayEntry>): (r: Option<DayEntry>)
    ensures r.None? <==> forall i | 0 <= i < |s| :: !Complete(s[i])
    ensures r.Some? ==> exists i | 0 <= i < |s| ::
      s[i] == r.value && Complete(s[i]) && forall j | 0 <= j < i :: !Complete(s[j])
  {
    if s == [] then None
    else if Complete(s[0]) then Some(s[0])
    else
      var r := FirstComplete(s[1..]);
      assert forall i | 1 <= i < |s| :: s[i] == s[1..][i - 1];
      if r.Some? then
        var i :| 0 <= i < |s[1..]| && s[1..][i] == r.value && Complete(s[1..][i])
          && forall j | 0 <= j < i :: !Complete(s[1..][j]);
        assert s[i + 1] == r.value && forall j | 0 <= j < i + 1 :: !Complete(s[j]);
        r
      else r
  }

  function Latest(records: seq<DayEntry>): Option<DayEntry> {
    FirstComplete(Reverse(records))
  }

  /** There is no answer only when no entry is complete: entries with one figure are skipped. */
  lemma LatestNoneIffNoComplete(records: seq<DayEntry>)
    ensures Latest(records).None? <==> forall i | 0 <= i < |records| :: !Complete(records[i])
  {
    var rev := Reverse(records);
    var n := |records|;
    if Latest(records).None? {
      forall i | 0 <= i < n
        ensures !Complete(records[i])
      {
        assert records[i] == rev[n - 1 - i];
      }
    }
  }

  /** The entry found is the last complete one: complete itself, with no complete entry after it. */
  lemma LatestIsLastComplete(records: seq<DayEntry>)
    requires Latest(records).Some?
    ensures exists i | 0 <= i < |records| ::
      records[i] == Latest(records).value && Complete(records[i])
      && forall j | i < j < |records| :: !Complete(records[j])
  {
    var rev := Reverse(records);
    var n := |records|;
    var k :| 0 <= k < n && rev[k] == Latest(records).value && Complete(rev[k])
      && forall j | 0 <= j < k :: !Complete(rev[j]);
    var i := n - 1 - k;
    assert records[i] == rev[k];
    forall j | i < j < n
      ensures !Complete(records[j])
    {
      assert records[j] == rev[n - 1 - j];
    }
  }

  datatype Remaining = Remaining(remainingIce: int, remainingHot: int)

  /** The handler: the last complete entry's figures, `{0, 0}` when there is none. */
  function Get(records: seq<DayEntry>): (r: Remaining)
    ensures Latest(records).None? ==> r == Remaining(0, 0)
    ensures Latest(records).Some? ==>
      Some(r.remainingIce) == Latest(records).value.remainingIce
      && Some(r.remainingHot) == Latest(records).value.remainingHot
  {
    var latest := Latest(records);
    if latest.None? then Remaining(0, 0)
    else Remaining(latest.value.remainingIce.value, latest.value.remainingHot.value)
  }

  /** Appending a complete entry makes it the answer. */
  lemma AppendCompleteWins(records: seq<DayEntry>, e: DayEntry)
    requires Complete(e)
    ensures Get(records + [e]) == Remaining(e.remainingIce.value, e.remainingHot.value)
  {
    assert Reverse(records + [e])[0] == e;
  }

  /** Appending an incomplete entry changes nothing. */
  lemma AppendIncompleteIgnored(records: seq<DayEntry>, e: DayEntry)
    requires !Complete(e)
    ensures Get(records + [e]) == Get(records)
  {
    var s := records + [e];
    assert s[..|s| - 1] == records;
    assert Reverse(s) == [e] + Reverse(records);
    assert ([e] + Reverse(records))[1..] == Reverse(records);
  }
}

/**
 * The `sales_reports` table, keyed by (date, shift), and the POST handler of
 * src/app/api/orders/sales_reports/route.ts that upserts a report into it. The
 * generator and the sales page write the same table through `Upsert`.
 */
module SalesReportsRoute {
  import opened Wrappers
  import opened JsValues
  import opened ShiftSummaries

  /** One column of an upsert payload: absent (`Keep`) or given a value. */
  datatype Column<T> = Keep | Put(value: T)

  function Apply<T>(c: Column<T>, old_: T): T {
    match c
    case Keep => old_
    case Put(v) => v
  }

  datatype ReportRow = ReportRow(
    diff: Json, note: Json, staff: Json, adjustedSales: Json,
    summary: Option<ShiftSummary>, updatedAt: Option<int>)

  /** A freshly inserted row: every column not in the payload is null. */
  const EmptyRow := ReportRow(Null, Null, Null, Null, None, None)

  datatype ReportPatch = ReportPatch(
    diff: Column<Json>, note: Column<Json>, staff: Column<Json>, adjustedSales: Column<Json>,
    summary: Column<ShiftSummary>, updatedAt: Column<int>)

  /** The columns a payload names take its values; the others keep theirs. */
  function Patch(r: ReportRow, p: ReportPatch): ReportRow {
    ReportRow(Apply(p.diff, r.diff), Apply(p.note, r.note), Apply(p.staff, r.staff),
              Apply(p.adjustedSales, r.adjustedSales),
              if p.summary.Put? then Some(p.summary.value) else r.summary,
              if p.updatedAt.Put? then Some(p.updatedAt.value) else r.updatedAt)
  }

  /** Writing the same payload twice is the same as writing it once. */
  lemma PatchIdempotent(r: ReportRow, p: ReportPatch)
    ensures Patch(Patch(r, p), p) == Patch(r, p)
  {
  }

  /** Two payloads that name the same columns: the later one wins. */
  lemma PatchOverwrites(r: ReportRow, p: ReportPatch, q: ReportPatch)
    requires p.diff.Put? == q.diff.Put? && p.note.Put? == q.note.Put? && p.staff.Put? == q.staff.Put?
    requires p.adjustedSales.Put? == q.adjustedSales.Put? && p.summary.Put? == q.summary.Put?
    requires p.updatedAt.Put? == q.updatedAt.Put?
    ensures Patch(Patch(r, p), q) == Patch(r, q)
  {
  }

  type Key = (Json, Json)

  /** The POST body is refused when date or shift is falsy, or diff is undefined or null. */
  predicate PostRejects(body: map<string, Json>) {
    Falsy(Get(body, "date")) || Falsy(Get(body, "shift")) || Nullish(Get(body, "diff"))
  }

  /** The columns the POST handler writes: diff, note (missing becomes ""), updated_at. */
  function PostPatch(body: map<string, Json>, now: int): (p: ReportPatch)
    ensures p.diff == Put(Get(body, "diff"))
    ensures Nullish(Get(body, "note")) ==> p.note == Put(Str(""))
    ensures !Nullish(Get(body, "note")) ==> p.note == Put(Get(body, "note"))
    ensures p.staff == Keep && p.adjustedSales == Keep && p.summary == Keep
    ensures p.updatedAt == Put(now)
  {
    ReportPatch(Put(Get(body, "diff")), Put(Coalesce(Get(body, "note"), Str(""))),
                Keep, Keep, Keep, Put(now))
  }

  /** A diff of 0 is accepted: only a missing diff is refused. */
  lemma ZeroDiffAccepted(body: map<string, Json>)
    requires !Falsy(Get(body, "date")) && !Falsy(Get(body, "shift"))
    requires Get(body, "diff") == Num(0)
    ensures !PostRejects(body)
  {
  }

  class ReportTable {
    var rows: map<Key, ReportRow>

    constructor()
      ensures rows == map[]
    {
      rows := map[];
    }

    function Row(k: Key): ReportRow
      reads this
    {
      if k in rows then rows[k] else EmptyRow
    }

    /** `upsert(payload, { onConflict: "date,shift" })`: one row per key, other keys untouched. */
    method Upsert(date: Json, shift: Json, p: ReportPatch)
      modifies this
      ensures rows == old(rows)[(date, shift) := Patch(old(Row((date, shift))), p)]
    {
      rows := rows[(date, shift) := Patch(Row((date, shift)), p)];
    }

    /** `POST /api/orders/sales_reports`; `now` is the clock reading for `updated_at`. */
    method Post(body: map<string, Json>, now: int) returns (status: int)
      modifies this
      ensures PostRejects(body) ==> status == 400 && rows == old(rows)
      ensures !PostRejects(body) ==> status == 200
      ensures !PostRejects(body) ==>
        var k := (Get(body, "date"), Get(body, "shift"));
        rows == old(rows)[k := Patch(old(Row(k)), PostPatch(body, now))]
    {
      if PostRejects(body) {
        return 400;
      }
      Upsert(Get(body, "date"), Get(body, "shift"), PostPatch(body, now));
      return 200;
    }
  }
}

/**
 * `/api/orders/start-cup` (src/app/api/orders/start-cup/route.ts): the `start_cups` table,
 * one count of cups per (date, shift, drink type) at the start of a shift. GET reads the
 * most recently updated row of a key; POST updates that row or inserts a new one.
 *
 * The table is a sequence of rows in storage order. `updated_at` is an instant (`None`
 * for SQL null); the value a freshly inserted row gets from its column default is not
 * visible to the handler and is a parameter of the insert.
 */
module StartCupRoute {
  import opened Wrappers
  import opened JsValues

  datatype Key = Key(date: Json, shift: Json, drinkType: Json)

  datatype StartCupRow = StartCupRow(
    id: int, date: Json, shift: Json, drinkType: Json, count: Json, updatedAt: Option<int>)

  function KeyOf(r: StartCupRow): Key {
    Key(r.date, r.shift, r.drinkType)
  }

  /**
   * `order("updated_at", { ascending: false })`: `a` comes strictly before `b`. In descending
   * order PostgreSQL puts nulls first.
   */
  predicate RanksBefore(a: Option<int>, b: Option<int>) {
    (a.None? && b.Some?) || (a.Some? && b.Some? && a.value > b.value)
  }

  /**
   * The three `eq` filters, the order and `limit(1)`: the index of the row returned, the
   * first in storage order among the matching rows that nothing ranks before.
   */
  function Latest(rows: seq<StartCupRow>, k: Key): (r: Option<nat>)
    ensures r.None? <==> forall j | 0 <= j < |rows| :: KeyOf(rows[j]) != k
    ensures r.Some? ==> r.value < |rows| && KeyOf(rows[r.value]) == k
    ensures r.Some? ==> forall j | 0 <= j < |rows| && KeyOf(rows[j]) == k ::
      !RanksBefore(rows[j].updatedAt, rows[r.value].updatedAt)
    ensures r.Some? ==> forall j | 0 <= j < r.value && KeyOf(rows[j]) == k ::
      RanksBefore(rows[r.value].updatedAt, rows[j].updatedAt)
  {
    if rows == [] then None
    else
      var n := |rows| - 1;
      var prev := Latest(rows[..n], k);
      assert forall j | 0 <= j < n :: rows[..n][j] == rows[j];
      if KeyOf(rows[n]) == k && (prev.None? || RanksBefore(rows[n].updatedAt, rows[prev.value].updatedAt)) then
        Some(n)
      else prev
  }

  /** `!p` for a query parameter: absent (`null`) or empty. */
  predicate Missing(p: Option<string>) {
    p.None? || p == Some("")
  }

  datatype GetResponse = GetBadRequest | Found(row: Option<StartCupRow>)

  /** GET: 400 when a parameter is missing, else the latest row of the key or `null`. */
  function Query(date: Option<string>, shift: Option<string>, drinkType: Option<string>,
                 rows: seq<StartCupRow>): (r: GetResponse)
    ensures r == GetBadRequest <==> Missing(date) || Missing(shift) || Missing(drinkType)
    ensures r.Found? ==> (r.row.None? <==> forall j | 0 <= j < |rows| ::
      KeyOf(rows[j]) != Key(Str(date.value), Str(shift.value), Str(drinkType.value)))
    ensures r.Found? && r.row.Some? ==>
      r.row.value in rows && KeyOf(r.row.value) == Key(Str(date.value), Str(shift.value), Str(drinkType.value))
    ensures r.Found? && r.row.Some? ==> forall j | 0 <= j < |rows| && KeyOf(rows[j]) == KeyOf(r.row.value) ::
      !RanksBefore(rows[j].updatedAt, r.row.value.updatedAt)
  {
    if Missing(date) || Missing(shift) || Missing(drinkType) then GetBadRequest
    else
      var i := Latest(rows, Key(Str(date.value), Str(shift.value), Str(drinkType.value)));
      if i.None? then Found(None) else Found(Some(rows[i.value]))
  }

  /** POST is refused when date, shift or drink_type is falsy or count is undefined. */
  predicate PostRejects(body: map<string, Json>) {
    Falsy(Get(body, "date")) || Falsy(Get(body, "shift")) || Falsy(Get(body, "drink_type"))
    || Get(body, "count") == Undefined
  }

  function BodyKey(body: map<string, Json>): Key {
    Key(Get(body, "date"), Get(body, "shift"), Get(body, "drink_type"))
  }

  /** A count of 0 is accepted: only an undefined count is refused. */
  lemma ZeroCountAccepted(body: map<string, Json>)
    requires !Falsy(Get(body, "date")) && !Falsy(Get(body, "shift")) && !Falsy(Get(body, "drink_type"))
    requires Get(body, "count") == Num(0)
    ensures !PostRejects(body)
  {
  }

  /**
   * The table after an accepted POST: the latest row of the key gets the new count and
   * `updated_at = now`; without one, a row is inserted at the end.
   */
  function PostRows(rows: seq<StartCupRow>, nextId: int, body: map<string, Json>, now: int,
                    insertedAt: Option<int>): (r: seq<StartCupRow>)
    ensures Latest(rows, BodyKey(body)).Some? ==> |r| == |rows|
    ensures Latest(rows, BodyKey(body)).None? ==> |r| == |rows| + 1
    ensures Latest(rows, BodyKey(body)).None? ==> r[|rows|] == StartCupRow(nextId, Get(body, "date"), Get(body, "shift"), Get(body, "drink_type"),
      Get(body, "count"), insertedAt)
    ensures forall j | 0 <= j < |rows| :: KeyOf(r[j]) == KeyOf(rows[j])
    ensures forall j | 0 <= j < |rows| && KeyOf(rows[j]) != BodyKey(body) :: r[j] == rows[j]
  {
    var k := BodyKey(body);
    var top := Latest(rows, k);
    if top.Some? then
      rows[top.value := rows[top.value].(count := Get(body, "count"), updatedAt := Some(now))]
    else
      rows + [StartCupRow(nextId, k.date, k.shift, k.drinkType, Get(body, "count"), insertedAt)]
  }

  /** At most one row per key. */
  predicate UniqueKeys(rows: seq<StartCupRow>) {
    forall i, j | 0 <= i < j < |rows| :: KeyOf(rows[i]) != KeyOf(rows[j])
  }

  /** A POST never creates a second row for a key. */
  lemma PostKeepsUnique(rows: seq<StartCupRow>, nextId: int, body: map<string, Json>, now: int,
                        insertedAt: Option<int>)
    requires UniqueKeys(rows)
    ensures UniqueKeys(PostRows(rows, nextId, body, now, insertedAt))
  {
    var r := PostRows(rows, nextId, body, now, insertedAt);
    forall i, j | 0 <= i < j < |r|
      ensures KeyOf(r[i]) != KeyOf(r[j])
    {
      if j == |rows| {
        assert KeyOf(r[j]) == BodyKey(body);
      }
    }
  }

  /** With one row per key, reading the key right after a POST gives the posted count. */
  lemma PostThenGet(rows: seq<StartCupRow>, nextId: int, body: map<string, Json>, now: int,
                    insertedAt: Option<int>)
    requires UniqueKeys(rows)
    ensures var r := PostRows(rows, nextId, body, now, insertedAt);
      var top := Latest(r, BodyKey(body));
      top.Some? && r[top.value].count == Get(body, "count")
  {
    var k := BodyKey(body);
    var r := PostRows(rows, nextId, body, now, insertedAt);
    PostKeepsUnique(rows, nextId, body, now, insertedAt);
    var old_ := Latest(rows, k);
    var top := Latest(r, k);
    if old_.Some? {
      assert r[old_.value].count == Get(body, "count");
      assert KeyOf(r[old_.value]) == k;
      OnlyMatch(r, k, old_.value);
    } else {
      assert KeyOf(r[|rows|]) == k;
      OnlyMatch(r, k, |rows|);
    }
  }

  /** Under unique keys, the row of a key is the one `Latest` returns. */
  lemma OnlyMatch(rows: seq<StartCupRow>, k: Key, i: nat)
    requires UniqueKeys(rows) && i < |rows| && KeyOf(rows[i]) == k
    ensures Latest(rows, k) == Some(i)
  {
  }

  datatype PostResponse = PostBadRequest | Updated | Inserted

  class StartCupTable {
    var rows: seq<StartCupRow>
    var nextId: int

    constructor(rows0: seq<StartCupRow>, nextId0: int)
      ensures rows == rows0 && nextId == nextId0
    {
      rows, nextId := rows0, nextId0;
    }

    /**
     * POST: validate, select the latest row of the key, then update it in place or insert.
     * `now` is the instant `new Date()` reads.
     */
    method Post(body: map<string, Json>, now: int, insertedAt: Option<int>) returns (r: PostResponse)
      modifies this
      ensures r == PostBadRequest <==> PostRejects(body)
      ensures r == PostBadRequest ==> rows == old(rows) && nextId == old(nextId)
      ensures r == Updated <==> !PostRejects(body) && Latest(old(rows), BodyKey(body)).Some?
      ensures r != PostBadRequest ==> rows == PostRows(old(rows), old(nextId), body, now, insertedAt)
      ensures r == Updated ==> nextId == old(nextId)
      ensures r == Inserted ==> nextId == old(nextId) + 1
    {
      if PostRejects(body) {
        return PostBadRequest;
      }
      var existing := Latest(rows, BodyKey(body));
      if existing.Some? {
        var i := existing.value;
        rows := rows[i := rows[i].(count := Get(body, "count"), updatedAt := Some(now))];
        return Updated;
      } else {
        rows := rows + [StartCupRow(nextId, Get(body, "date"), Get(body, "shift"), Get(body, "drink_type"),
                                    Get(body, "count"), insertedAt)];
        nextId := nextId + 1;
        return Inserted;
      }
    }
  }
}

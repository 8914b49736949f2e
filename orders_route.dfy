/**
 * The `orders` table and the handlers of src/app/api/orders/route.ts: GET lists the
 * orders of one JST day (or all of them), newest first, with field names reconciled
 * between snake_case and camelCase columns; POST stores a new pending order; PATCH
 * sets an order's status.
 *
 * A row is its id, the instant of its `createdAt` column and its other columns as a map.
 */
module OrdersRoute {
  import opened Wrappers
  import opened JsValues
  import opened Calendar
  import Sorting

  datatype OrderRow = OrderRow(id: int, at: int, cols: map<string, Json>)

  /** The order as GET returns it. */
  datatype ApiOrder = ApiOrder(
    id: int, status: Json, drinkType: Json, menu: Json, price: Json, milk: Json, sugar: Json,
    tableNumber: Json, paymentMethod: Json, receiptStatus: Json, cashAmount: Json, note: Json,
    createdAt: Json)

  function Coalesce3(a: Json, b: Json, c: Json): Json {
    Coalesce(Coalesce(a, b), c)
  }

  /**
   * The GET mapping: `drinkType` and `tableNumber` prefer the snake_case column;
   * `paymentMethod`, `receiptStatus`, `cashAmount` and `createdAt` prefer camelCase,
   * then snake_case, then all lower case. A column that is `null` or missing falls through.
   */
  function Convert(r: OrderRow): (o: ApiOrder)
    ensures !Nullish(Get(r.cols, "drink_type")) ==> o.drinkType == Get(r.cols, "drink_type")
    ensures Nullish(Get(r.cols, "drink_type")) ==> o.drinkType == Get(r.cols, "drinkType")
    ensures !Nullish(Get(r.cols, "table_number")) ==> o.tableNumber == Get(r.cols, "table_number")
    ensures Nullish(Get(r.cols, "table_number")) ==> o.tableNumber == Get(r.cols, "tableNumber")
    ensures !Nullish(Get(r.cols, "paymentMethod")) ==> o.paymentMethod == Get(r.cols, "paymentMethod")
    ensures Nullish(Get(r.cols, "paymentMethod")) && !Nullish(Get(r.cols, "payment_method"))
            ==> o.paymentMethod == Get(r.cols, "payment_method")
    ensures Nullish(Get(r.cols, "paymentMethod")) && Nullish(Get(r.cols, "payment_method"))
            ==> o.paymentMethod == Get(r.cols, "paymentmethod")
    ensures !Nullish(Get(r.cols, "createdAt")) ==> o.createdAt == Get(r.cols, "createdAt")
    ensures Nullish(Get(r.cols, "createdAt")) && !Nullish(Get(r.cols, "created_at"))
            ==> o.createdAt == Get(r.cols, "created_at")
    ensures o.id == r.id && o.status == Get(r.cols, "status") && o.menu == Get(r.cols, "menu")
    ensures o.price == Get(r.cols, "price")
  {
    var c := r.cols;
    ApiOrder(r.id, Get(c, "status"),
             Coalesce(Get(c, "drink_type"), Get(c, "drinkType")),
             Get(c, "menu"), Get(c, "price"), Get(c, "milk"), Get(c, "sugar"),
             Coalesce(Get(c, "table_number"), Get(c, "tableNumber")),
             Coalesce3(Get(c, "paymentMethod"), Get(c, "payment_method"), Get(c, "paymentmethod")),
             Coalesce3(Get(c, "receiptStatus"), Get(c, "receipt_status"), Get(c, "receiptstatus")),
             Coalesce3(Get(c, "cashAmount"), Get(c, "cash_amount"), Get(c, "cashamount")),
             Get(c, "note"),
             Coalesce3(Get(c, "createdAt"), Get(c, "created_at"), Get(c, "createdat")))
  }

  /** The last whole second of a JST day: `${date}T23:59:59+09:00`. */
  function WindowEnd(day: int): int {
    JstMidnight(day) + DayMs - SecondMs
  }

  /** The window as written: `createdAt >= T00:00:00+09:00 && createdAt <= T23:59:59+09:00`. */
  predicate InWindowAsWritten(day: int, t: int) {
    JstMidnight(day) <= t <= WindowEnd(day)
  }

  /** An order created in the last second of a JST day is in no day's window. */
  lemma LastSecondIsLost(day: int)
    ensures var t := JstMidnight(day) + DayMs - 1;
      JstDay(t) == day && forall d :: !InWindowAsWritten(d, t)
  {
    var t := JstMidnight(day) + DayMs - 1;
    forall d ensures !InWindowAsWritten(d, t) {
      if d <= day {
        assert WindowEnd(d) <= WindowEnd(day) by { assert d * DayMs <= day * DayMs; }
      } else {
        assert JstMidnight(d) >= JstMidnight(day + 1) by { assert d * DayMs >= (day + 1) * DayMs; }
      }
    }
  }

  /** The window the handler means: the whole JST day, up to but not including the next midnight. */
  predicate InWindow(day: int, t: int) {
    JstMidnight(day) <= t < JstMidnight(day + 1)
  }

  /** An instant is in a day's window exactly when it falls on that JST day. */
  lemma InWindowIsJstDay(day: int, t: int)
    ensures InWindow(day, t) <==> JstDay(t) == day
  {
    JstDayBounds(t);
    var d := JstDay(t);
    if d < day {
      assert JstMidnight(d) + DayMs <= JstMidnight(day) by { assert (d + 1) * DayMs <= day * DayMs; }
    } else if d > day {
      assert JstMidnight(d) >= JstMidnight(day + 1) by { assert d * DayMs >= (day + 1) * DayMs; }
    }
  }

  /** Newest first: `order("createdAt", { ascending: false })`. */
  function NewestFirst(a: OrderRow, b: OrderRow): int {
    b.at - a.at
  }

  /** The route's filter: every row without a date, else the rows inside the window as written. */
  predicate Kept(day: Option<int>, r: OrderRow) {
    day.None? || InWindowAsWritten(day.value, r.at)
  }

  /** The window as written lies inside the JST day: it drops orders, it never adds one. */
  lemma AsWrittenWithinDay(day: int, t: int)
    ensures InWindowAsWritten(day, t) ==> JstDay(t) == day
    ensures JstDay(t) == day && t <= WindowEnd(day) ==> InWindowAsWritten(day, t)
  {
    InWindowIsJstDay(day, t);
  }

  function Select(rows: seq<OrderRow>, day: Option<int>): (s: seq<OrderRow>)
    ensures forall r | r in s :: r in rows && Kept(day, r)
    ensures forall r | r in rows && Kept(day, r) :: r in s
  {
    if rows == [] then []
    else Select(rows[..|rows| - 1], day) + (if Kept(day, rows[|rows| - 1]) then [rows[|rows| - 1]] else [])
  }

  /** Unique ids, each below the next id to hand out. */
  predicate ValidRows(rows: seq<OrderRow>, nextId: int) {
    (forall i, j | 0 <= i < j < |rows| :: rows[i].id != rows[j].id)
    && (forall i | 0 <= i < |rows| :: rows[i].id < nextId)
  }

  /** The row with that id, if any, with its status column set; every other row as it was. */
  function WithStatus(rows: seq<OrderRow>, id: int, status: string): (s: seq<OrderRow>)
    ensures |s| == |rows|
    ensures forall i | 0 <= i < |rows| && rows[i].id != id :: s[i] == rows[i]
    ensures forall i | 0 <= i < |rows| && rows[i].id == id ::
      s[i].id == id && s[i].at == rows[i].at && s[i].cols.Keys == rows[i].cols.Keys + {"status"}
      && s[i].cols["status"] == Str(status)
      && forall k | k in rows[i].cols && k != "status" :: s[i].cols[k] == rows[i].cols[k]
  {
    seq(|rows|, i requires 0 <= i < |rows| =>
      if rows[i].id == id then rows[i].(cols := rows[i].cols["status" := Str(status)]) else rows[i])
  }

  predicate HasId(rows: seq<OrderRow>, id: int) {
    exists i | 0 <= i < |rows| :: rows[i].id == id
  }

  /** The row POST stores: the body's fields under their column names, pending, stamped `now`. */
  function NewRow(id: int, body: map<string, Json>, now: int): (r: OrderRow)
    ensures Get(r.cols, "status") == Str("pending")
    ensures Get(r.cols, "price") == Get(body, "price")
    ensures r.at == now && r.id == id
  {
    OrderRow(id, now, InsertedColumns(body, now)["price" := Get(body, "price")]["status" := Str("pending")])
  }

  /** The columns of the insert other than `price` and `status`. */
  function InsertedColumns(body: map<string, Json>, now: int): map<string, Json> {
    map[
      "drink_type" := Coalesce(Get(body, "drinkType"), Get(body, "drink_type")),
      "menu" := Get(body, "menu"),
      "milk" := Get(body, "milk"),
      "sugar" := Get(body, "sugar"),
      "table_number" := Coalesce(Get(body, "tableNumber"), Get(body, "table_number")),
      "paymentMethod" := Coalesce(Get(body, "paymentMethod"), Get(body, "payment_method")),
      "receiptStatus" := Coalesce(Get(body, "receiptStatus"), Get(body, "receipt_status")),
      "cashAmount" := Coalesce(Get(body, "cashAmount"), Get(body, "cash_amount")),
      "note" := Get(body, "note"),
      "createdAt" := Str(IsoString(now))]
  }

  /** POST refuses a falsy menu or table number (so also `0` and `""`). */
  predicate PostRejects(body: map<string, Json>) {
    Falsy(Get(body, "menu")) || Falsy(Coalesce(Get(body, "tableNumber"), Get(body, "table_number")))
  }

  lemma AppendKeepsValid(rows: seq<OrderRow>, nextId: int, row: OrderRow)
    requires ValidRows(rows, nextId) && row.id == nextId
    ensures ValidRows(rows + [row], nextId + 1)
  {
  }

  class OrderTable {
    var rows: seq<OrderRow>
    var nextId: int

    predicate Valid()
      reads this
    {
      ValidRows(rows, nextId)
    }

    constructor()
      ensures rows == [] && Valid()
    {
      rows := [];
      nextId := 1;
    }

    /**
     * GET. No date (or an empty one) lists every order; a date that is not a valid
     * calendar day is a store error (500); otherwise the orders of that JST day.
     * Either way newest first, mapped with `Convert`.
     */
    method Get(date: Option<string>, day: Option<int>) returns (status: int, result: seq<ApiOrder>)
      ensures date.Some? && date.value != "" && day.None? ==> status == 500 && result == []
      ensures !(date.Some? && date.value != "" && day.None?) ==> status == 200
      ensures !(date.Some? && date.value != "" && day.None?) ==>
        var sel := Select(rows, if date.Some? && date.value != "" then day else None);
        var sorted := Sorting.Sort(NewestFirst, sel);
        result == seq(|sorted|, i requires 0 <= i < |sorted| => Convert(sorted[i]))
    {
      if date.Some? && date.value != "" && day.None? {
        return 500, [];
      }
      var sel := Select(rows, if date.Some? && date.value != "" then day else None);
      var sorted := Sorting.Sort(NewestFirst, sel);
      result := seq(|sorted|, i requires 0 <= i < |sorted| => Convert(sorted[i]));
      status := 200;
    }

    /** POST: a refused body stores nothing; an accepted one appends one pending row. */
    method Post(body: map<string, Json>, now: int) returns (status: int)
      requires Valid()
      modifies this
      ensures Valid()
      ensures PostRejects(body) ==> status == 400 && rows == old(rows) && nextId == old(nextId)
      ensures !PostRejects(body) ==> status == 200 && rows == old(rows) + [NewRow(old(nextId), body, now)]
    {
      if PostRejects(body) {
        return 400;
      }
      var row := NewRow(nextId, body, now);
      AppendKeepsValid(rows, nextId, row);
      rows := rows + [row];
      nextId := nextId + 1;
      return 200;
    }

    /**
     * PATCH: refuses a non-number id or non-string status (400); fails (500) when no row
     * has the id; otherwise sets that row's status to any string and changes nothing else.
     */
    method Patch(id: Json, status: Json) returns (code: int)
      requires Valid()
      modifies this
      ensures Valid() && nextId == old(nextId)
      ensures !IsNumber(id) || !IsString(status) ==> code == 400 && rows == old(rows)
      ensures IsNumber(id) && IsString(status) && !HasId(old(rows), id.n) ==> code == 500 && rows == old(rows)
      ensures IsNumber(id) && IsString(status) && HasId(old(rows), id.n) ==>
        code == 200 && rows == WithStatus(old(rows), id.n, status.s)
    {
      if !IsNumber(id) || !IsString(status) {
        return 400;
      }
      var i := 0;
      var found := false;
      while i < |rows|
        invariant 0 <= i <= |rows| == |old(rows)|
        invariant rows[..i] == WithStatus(old(rows), id.n, status.s)[..i]
        invariant rows[i..] == old(rows)[i..]
        invariant found <==> exists k | 0 <= k < i :: old(rows)[k].id == id.n
        invariant forall k | 0 <= k < |rows| :: rows[k].id == old(rows)[k].id
        invariant nextId == old(nextId)
      {
        if rows[i].id == id.n {
          rows := rows[i := rows[i].(cols := rows[i].cols["status" := status])];
          found := true;
        }
        i := i + 1;
      }
      assert rows == rows[..i];
      assert WithStatus(old(rows), id.n, status.s) == WithStatus(old(rows), id.n, status.s)[..i];
      if !found {
        assert rows == old(rows) by {
          forall k | 0 <= k < |rows| ensures rows[k] == old(rows)[k] {
            assert old(rows)[k].id != id.n;
          }
        }
        return 500;
      }
      return 200;
    }
  }

  /** GET's list is newest first. */
  lemma GetIsNewestFirst(rows: seq<OrderRow>, day: Option<int>)
    ensures var s := Sorting.Sort(NewestFirst, Select(rows, day));
      forall i, j | 0 <= i < j < |s| :: s[i].at >= s[j].at
  {
    var sel := Select(rows, day);
    assert Sorting.Consistent(NewestFirst, sel);
    Sorting.SortSorted(NewestFirst, sel, sel);
  }

  /**
   * GET with a date lists an order exactly when it was created between that JST day's
   * midnight and its last whole second, both included; so every listed order is of that day.
   */
  lemma GetKeepsTheDay(rows: seq<OrderRow>, day: int, r: OrderRow)
    requires r in rows
    ensures r in Sorting.Sort(NewestFirst, Select(rows, Some(day))) <==>
      JstMidnight(day) <= r.at <= JstMidnight(day) + DayMs - SecondMs
    ensures r in Sorting.Sort(NewestFirst, Select(rows, Some(day))) ==> JstDay(r.at) == day
  {
    var sel := Select(rows, Some(day));
    var s := Sorting.Sort(NewestFirst, sel);
    assert multiset(s) == multiset(sel);
    assert r in s <==> r in multiset(s);
    assert r in sel <==> r in multiset(sel);
    AsWrittenWithinDay(day, r.at);
  }
}

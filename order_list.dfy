/**
 * The order list page (src/app/order-list/page.tsx): the orders fetched from `/api/orders`
 * are converted to the page's shape, the pending ones are listed, and each pending order
 * offers two buttons that ask for it to be marked completed or cancelled.
 *
 * The page's `formatDate` is a copy of the shared JST formatter and is modelled once, as
 * `JstDate.FormatJst`. Fields of the fetched JSON are `Json` values: a key the server left
 * out is `Undefined`, a database null is `Null`.
 */
module OrderListPage {
  import opened Wrappers
  import opened JsValues

  /** An order as `/api/orders` returns it. */
  datatype ApiOrder = ApiOrder(
    id: Json, createdAt: Json, drinkType: Json, menu: Json, price: Json,
    milk: Json, sugar: Json, tableNumber: Json, paymentMethod: Json, receiptStatus: Json,
    cashAmount: Json, note: Json, status: Json)

  /** An order as the page shows it; `cashAmount` is `None` for `undefined`. */
  datatype Order = Order(
    id: Json, createdAt: Json, drinkType: Json, menu: Json, price: Json,
    milk: Json, sugar: Json, tableNumber: string, paymentMethod: Json, receiptStatus: Json,
    cashAmount: Option<string>, note: Json, status: Json)

  /** The conversion in `fetchOrders`. */
  function ToOrder(a: ApiOrder): (o: Order)
    ensures o.id == a.id && o.createdAt == a.createdAt && o.status == a.status
    ensures o.drinkType == a.drinkType && o.menu == a.menu && o.price == a.price
    ensures !Nullish(a.milk) ==> o.milk == a.milk
    ensures !Nullish(a.note) ==> o.note == a.note
  {
    Order(a.id, a.createdAt, a.drinkType, a.menu, a.price,
      Coalesce(a.milk, Str("")), Coalesce(a.sugar, Str("")),
      if a.tableNumber != Undefined then JsString(a.tableNumber) else "",
      Coalesce(a.paymentMethod, Str("")), Coalesce(a.receiptStatus, Str("")),
      if a.cashAmount != Undefined then Some(JsString(a.cashAmount)) else None,
      Coalesce(a.note, Str("")), a.status)
  }

  /**
   * Missing or null text fields become the empty string, so none of the five text fields
   * of a converted order is `undefined` or `null`; a field reads as empty exactly when it
   * was missing, null or empty.
   */
  lemma TextFieldsDefaulted(a: ApiOrder)
    ensures var o := ToOrder(a);
      !Nullish(o.milk) && !Nullish(o.sugar) && !Nullish(o.paymentMethod)
      && !Nullish(o.receiptStatus) && !Nullish(o.note)
    ensures ToOrder(a).milk == Str("") <==> Nullish(a.milk) || a.milk == Str("")
    ensures ToOrder(a).sugar == Str("") <==> Nullish(a.sugar) || a.sugar == Str("")
    ensures ToOrder(a).paymentMethod == Str("") <==> Nullish(a.paymentMethod) || a.paymentMethod == Str("")
    ensures ToOrder(a).receiptStatus == Str("") <==> Nullish(a.receiptStatus) || a.receiptStatus == Str("")
    ensures ToOrder(a).note == Str("") <==> Nullish(a.note) || a.note == Str("")
  {
  }

  /**
   * The table number reads as empty exactly when it was left out or was the empty string;
   * a null table number reads as `"null"`.
   */
  lemma TableNumberText(a: ApiOrder)
    ensures ToOrder(a).tableNumber == "" <==> a.tableNumber == Undefined || a.tableNumber == Str("")
    ensures a.tableNumber == Null ==> ToOrder(a).tableNumber == "null"
    ensures a.tableNumber.Num? ==> ToOrder(a).tableNumber == Text.Decimal(a.tableNumber.n)
  {
  }

  /** The cash amount stays absent only when it was left out; anything else becomes its text. */
  lemma CashAmountText(a: ApiOrder)
    ensures ToOrder(a).cashAmount.None? <==> a.cashAmount == Undefined
    ensures a.cashAmount.Str? ==> ToOrder(a).cashAmount == Some(a.cashAmount.s)
  {
  }

  function ToOrders(api: seq<ApiOrder>): (r: seq<Order>)
    ensures |r| == |api| && forall i | 0 <= i < |api| :: r[i] == ToOrder(api[i])
  {
    seq(|api|, i requires 0 <= i < |api| => ToOrder(api[i]))
  }

  predicate IsPending(status: Json) {
    status == Str("pending")
  }

  /** `pendingOrders`: the orders whose status is `pending`, in their original order. */
  function Pending(orders: seq<Order>): (r: seq<Order>)
    ensures |r| <= |orders|
    ensures forall o :: o in r <==> o in orders && IsPending(o.status)
  {
    if orders == [] then []
    else
      var rest := Pending(orders[1..]);
      assert forall o :: o in orders <==> o == orders[0] || o in orders[1..];
      if IsPending(orders[0].status) then [orders[0]] + rest else rest
  }

  /** The filter works element by element: it keeps the orders in their original order. */
  lemma {:induction false} PendingAppend(a: seq<Order>, b: seq<Order>)
    ensures Pending(a + b) == Pending(a) + Pending(b)
  {
    if a == [] {
      assert a + b == b;
    } else {
      assert (a + b)[1..] == a[1..] + b;
      PendingAppend(a[1..], b);
    }
  }

  /** Converting then filtering lists the converted pending API orders. */
  lemma {:induction false} PendingOfConverted(api: seq<ApiOrder>)
    ensures Pending(ToOrders(api)) == ToOrders(ApiPending(api))
  {
    if api != [] {
      var h, t := api[0], api[1..];
      ToOrdersCons(h, t);
      assert api == [h] + t;
      PendingOfConverted(t);
      if IsPending(h.status) {
        ToOrdersCons(h, ApiPending(t));
      }
    }
  }

  lemma ToOrdersCons(h: ApiOrder, t: seq<ApiOrder>)
    ensures ToOrders([h] + t) == [ToOrder(h)] + ToOrders(t)
  {
    assert ToOrders([h] + t)[1..] == ToOrders(t);
  }

  function ApiPending(api: seq<ApiOrder>): (r: seq<ApiOrder>)
    ensures forall a :: a in r <==> a in api && IsPending(a.status)
  {
    if api == [] then []
    else
      var rest := ApiPending(api[1..]);
      assert forall a :: a in api <==> a == api[0] || a in api[1..];
      if IsPending(api[0].status) then [api[0]] + rest else rest
  }

  /** The PATCH body a button sends: `{ id, status }`. */
  datatype StatusRequest = StatusRequest(id: Json, status: string)

  /** The buttons of an order card, as the requests they send. */
  function Actions(o: Order): (r: seq<StatusRequest>)
    ensures r != [] <==> IsPending(o.status)
    ensures forall q | q in r :: q.id == o.id && (q.status == "completed" || q.status == "cancelled")
  {
    if IsPending(o.status) then [StatusRequest(o.id, "completed"), StatusRequest(o.id, "cancelled")] else []
  }

  /** Every order on the page has both buttons, one per final status. */
  lemma ListedOrdersActionable(orders: seq<Order>)
    ensures forall o | o in Pending(orders) ::
      Actions(o) == [StatusRequest(o.id, "completed"), StatusRequest(o.id, "cancelled")]
  {
  }
}

/**
 * `GET /api/orders/cup-inventory/remaining?date=…`
 * (src/app/api/orders/cup-inventory/remaining/route.ts): the remaining cups recorded in the
 * daily ledger for one date.
 */
module RemainingRoute {
  import opened Wrappers
  import opened CupLedger

  /** 400, a `null` body, or `{ date, remainingIce, remainingHot }` (absent figures stay absent). */
  datatype Response =
    | BadRequest
    | NullBody
    | Ok(date: string, remainingIce: Option<int>, remainingHot: Option<int>)

  function Get(date: Option<string>, data: seq<DayEntry>): (r: Response)
    ensures r == BadRequest <==> date.None? || date == Some("")
    ensures date.Some? && date.value != "" ==>
      (r == NullBody <==> forall i | 0 <= i < |data| :: data[i].date != date.value)
    ensures r.Ok? ==> r.date == date.value && exists i | 0 <= i < |data| ::
      data[i].date == date.value && data[i].remainingIce == r.remainingIce && data[i].remainingHot == r.remainingHot
      && forall j | 0 <= j < i :: data[j].date != date.value
  {
    if date.None? || date.value == "" then BadRequest
    else
      var record := Find(data, date.value);
      if record.None? then NullBody
      else Ok(date.value, record.value.remainingIce, record.value.remainingHot)
  }
}

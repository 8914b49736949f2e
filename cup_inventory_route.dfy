/**
 * `/api/orders/cup-inventory` (src/app/api/orders/cup-inventory/route.ts): the stock
 * movement file `cupInventory.json`. GET returns its records; POST validates one record
 * and appends it.
 *
 * The file is either blank (only white space) or a parsed JSON array of records; a
 * record is a JSON object, modelled as a map from property names to values.
 */
module CupInventoryRoute {
  import opened JsValues

  type Record = map<string, Json>

  datatype Stored = Blank | Records(records: seq<Record>)

  /** `raw.trim() === '' ? [] : JSON.parse(raw)`. */
  function Existing(f: Stored): (rs: seq<Record>)
    ensures f == Blank ==> rs == []
    ensures f.Records? ==> rs == f.records
  {
    if f == Blank then [] else f.records
  }

  /** The POST validation: a falsy date, non-numeric counts or an unknown cup type is refused. */
  predicate PostRejects(body: Record) {
    Falsy(Get(body, "date"))
    || !IsNumber(Get(body, "inStock"))
    || !IsNumber(Get(body, "outStock"))
    || !(Get(body, "cupType") == Str("アイス") || Get(body, "cupType") == Str("ホット"))
  }

  /** There is no sign check: a stock-out of a negative number of cups is accepted. */
  lemma NegativeCountsAccepted(body: Record, a: int, b: int)
    requires !Falsy(Get(body, "date")) && Get(body, "cupType") == Str("ホット")
    requires Get(body, "inStock") == Num(a) && Get(body, "outStock") == Num(b) && a < 0 && b < 0
    ensures !PostRejects(body)
  {
  }

  /** Only the two cup types are accepted. */
  lemma CupTypeChecked(body: Record)
    requires Get(body, "cupType") != Str("アイス") && Get(body, "cupType") != Str("ホット")
    ensures PostRejects(body)
  {
  }

  datatype Response = BadRequest | Success

  class MovementFile {
    var stored: Stored

    constructor(s: Stored)
      ensures stored == s
    {
      stored := s;
    }

    /** GET: the records, `[]` for a blank file. */
    method Read() returns (data: seq<Record>)
      ensures data == Existing(stored)
    {
      data := if stored == Blank then [] else stored.records;
    }

    /**
     * POST: a refused record leaves the file as it was; an accepted one is appended after
     * the existing records, and the file is rewritten as an array.
     */
    method Post(body: Record) returns (r: Response)
      modifies this
      ensures r == BadRequest <==> PostRejects(body)
      ensures r == BadRequest ==> stored == old(stored)
      ensures r == Success ==> stored == Records(Existing(old(stored)) + [body])
    {
      if PostRejects(body) {
        return BadRequest;
      }
      var existing := Read();
      stored := Records(existing + [body]);
      return Success;
    }
  }
}

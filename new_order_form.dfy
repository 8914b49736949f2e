/**
 * The new-order form (src/app/components/NewOrderForm.tsx): the form state, the two
 * on-screen keypads, the radio handlers, the price rule, the submit-time validation and
 * the JSON body the form posts to `/api/orders`.
 */
module NewOrderForm {
  import opened Wrappers
  import opened Text
  import opened JsValues
  import OrdersRoute

  datatype DrinkType = Ice | Hot

  /** The `drink_type` string the form sends. */
  function DrinkTypeName(d: DrinkType): string {
    match d
    case Ice => "ice"
    case Hot => "hot"
  }

  const PremiumCoffee: string := "プレミアムコーヒー"

  const IceMenus: seq<string> := [
    "コーヒー", "カフェオレ", "ミックスジュース", "ココア", "ハニーレモン",
    "抹茶オーレ", "イチゴオーレ", "アイスティー", "ミルクティー",
    "美酢(ザクロ)", "美酢(マスカット)", "美酢(レモン)", "オレンジ", "アップル", "マンゴー"]

  const HotMenus: seq<string> := [
    "コーヒー", "カフェオレ", "ココア", "紅茶", "昆布茶",
    "梅昆布茶", "オニオンスープ", "コーンポタージュ", "ポタージュ", PremiumCoffee]

  /** The menu radio buttons shown for the selected drink type. */
  function CurrentMenus(d: DrinkType): seq<string> {
    if d == Ice then IceMenus else HotMenus
  }

  const MilkOptions: seq<string> := ["無し", "1杯", "少ない", "多い", "超多い"]
  const SugarOptions: seq<string> := MilkOptions
  const PaymentOptions: seq<string> := ["現金", "1パチ", "4パチ", "スロ"]
  const ReceiptOptions: seq<string> := ["未", "済"]
  const CashPresets: seq<string> := ["300", "500", "1000"]

  /** `getPrice`: the premium coffee costs 500, everything else 300. */
  function Price(menu: string): (p: int)
    ensures p == 500 <==> menu == PremiumCoffee
    ensures p == 300 <==> menu != PremiumCoffee
  {
    if menu == PremiumCoffee then 500 else 300
  }

  /** Only a hot drink can be priced 500: the premium coffee is not on the ice menu. */
  lemma PremiumIsHot(d: DrinkType, menu: string)
    requires menu in CurrentMenus(d) && Price(menu) == 500
    ensures d == Hot
  {
  }

  /** What the table-number keypad can produce: at most 3 digits, worth at most 300. */
  predicate TableNumberOk(s: string) {
    |s| <= 3 && AllDigits(s) && DigitsValue(s) <= 300
  }

  /** What the cash keypad and the preset buttons can produce: at most 6 digits. */
  predicate CashAmountOk(s: string) {
    |s| <= 6 && AllDigits(s)
  }

  /**
   * `addDigit`: the digit is appended unless the field already holds 3 characters or
   * the longer text would parse to more than 300.
   */
  function NextTableNumber(s: string, digit: nat): (r: string)
    requires digit <= 9
    ensures r == s || r == s + [DigitChar(digit)]
    ensures |s| >= 3 ==> r == s
    ensures TableNumberOk(s) ==> TableNumberOk(r)
    ensures TableNumberOk(s) && |s| < 3 && DigitsValue(s + [DigitChar(digit)]) <= 300
            ==> r == s + [DigitChar(digit)]
  {
    var t := s + [DigitChar(digit)];
    assert AllDigits(s) ==> AllDigits(t) && ParseInt(t) == Some(DigitsValue(t)) && t[..|t| - 1] == s;
    if |s| >= 3 then s
    else
      var num := ParseInt(t);
      if num.Some? && num.value > 300 then s else t
  }

  /** `addCashDigit`: the digit is appended unless the field already holds 6 characters. */
  function NextCashAmount(s: string, digit: nat): (r: string)
    requires digit <= 9
    ensures |s| >= 6 ==> r == s
    ensures |s| < 6 ==> r == s + [DigitChar(digit)]
    ensures CashAmountOk(s) ==> CashAmountOk(r)
  {
    if |s| >= 6 then s else s + [DigitChar(digit)]
  }

  /** Every table number the keypad allows is typed digit by digit from the empty field. */
  lemma {:induction false} KeypadReachesEveryTable(s: string)
    requires TableNumberOk(s)
    ensures TypeDigits("", s) == s
  {
    if s != [] {
      var p := s[..|s| - 1];
      assert AllDigits(p);
      assert DigitsValue(p) <= DigitsValue(s);
      KeypadReachesEveryTable(p);
      TypeDigitsSnoc("", p, s[|s| - 1]);
      assert DigitChar(DigitValue(s[|s| - 1])) == s[|s| - 1];
      assert p + [s[|s| - 1]] == s;
    }
  }

  /** Pressing the keys for the digits of `keys`, one after another, from field `s`. */
  function TypeDigits(s: string, keys: string): string
    requires AllDigits(keys)
  {
    if keys == [] then s
    else NextTableNumber(TypeDigits(s, keys[..|keys| - 1]), DigitValue(keys[|keys| - 1]))
  }

  lemma TypeDigitsSnoc(s: string, keys: string, c: char)
    requires AllDigits(keys) && IsDigit(c)
    ensures AllDigits(keys + [c])
    ensures TypeDigits(s, keys + [c]) == NextTableNumber(TypeDigits(s, keys), DigitValue(c))
  {
    assert (keys + [c])[..|keys|] == keys;
  }

  /** A snapshot of the form's fields. */
  datatype Form = Form(
    drinkType: DrinkType, menu: string, milk: string, sugar: string, tableNumber: string,
    paymentMethod: string, receiptStatus: string, cashAmount: string, note: string)

  /** The values the form starts with and `handleCancel` restores. */
  const InitialForm := Form(Ice, "", "無し", "無し", "", "", "", "", "")

  /** The states the form's handlers can reach. */
  predicate ValidForm(f: Form) {
    && (f.menu == "" || f.menu in CurrentMenus(f.drinkType))
    && f.milk in MilkOptions && f.sugar in SugarOptions
    && TableNumberOk(f.tableNumber) && CashAmountOk(f.cashAmount)
    && (f.paymentMethod == "" || f.paymentMethod in PaymentOptions)
    && (f.receiptStatus == "" || f.receiptStatus in ReceiptOptions)
  }

  /**
   * `handleSubmit`'s checks, in order: the table number must parse to 1..300; menu,
   * table number, payment method and receipt status must be non-empty; a cash order
   * already received needs a cash amount.
   */
  predicate Rejects(f: Form) {
    var n := ParseInt(f.tableNumber);
    || n.None? || n.value < 1 || n.value > 300
    || f.menu == "" || f.tableNumber == "" || f.paymentMethod == "" || f.receiptStatus == ""
    || (f.paymentMethod == "現金" && f.receiptStatus == "済" && f.cashAmount == "")
  }

  /**
   * The posted body. `table_number` is `parseInt` of the field (`NaN` serialises as
   * `null`); `cash_amount: cashAmount || undefined` drops the key when the field is empty.
   */
  function Body(f: Form): map<string, Json> {
    var table := ParseInt(f.tableNumber);
    BaseFields(f)["menu" := Str(f.menu)]["price" := Num(Price(f.menu))]
        ["table_number" := (if table.Some? then Num(table.value) else Null)]
  }

  /** The body's text fields, with `cash_amount` only when one was entered. */
  function BaseFields(f: Form): (m: map<string, Json>)
    ensures "tableNumber" !in m
  {
    var rest := map[
      "drink_type" := Str(DrinkTypeName(f.drinkType)),
      "milk" := Str(f.milk),
      "sugar" := Str(f.sugar),
      "payment_method" := Str(f.paymentMethod),
      "receipt_status" := Str(f.receiptStatus),
      "note" := Str(f.note)];
    if f.cashAmount == "" then rest else rest["cash_amount" := Str(f.cashAmount)]
  }

  /** A form that passes its own checks is never refused by `POST /api/orders`. */
  lemma AcceptedFormPassesServer(f: Form)
    requires !Rejects(f)
    ensures !OrdersRoute.PostRejects(Body(f))
  {
    var b := Body(f);
    assert "tableNumber" !in b;
    assert Get(b, "tableNumber") == Undefined;
    var n := ParseInt(f.tableNumber).value;
    assert Get(b, "table_number") == Num(n) && n != 0;
    assert !Falsy(Coalesce(Get(b, "tableNumber"), Get(b, "table_number")));
    assert Get(b, "menu") == Str(f.menu) && f.menu != "";
  }

  /**
   * What an accepted body carries: a table number in 1..300, the price of its menu, and
   * a cash amount whenever a cash payment was already received.
   */
  lemma AcceptedBody(f: Form)
    requires !Rejects(f)
    ensures var t := Get(Body(f), "table_number"); t.Num? && 1 <= t.n <= 300
    ensures Get(Body(f), "price") == Num(if f.menu == PremiumCoffee then 500 else 300)
    ensures f.paymentMethod == "現金" && f.receiptStatus == "済"
            ==> Get(Body(f), "cash_amount").Str? && Get(Body(f), "cash_amount").s != ""
  {
  }

  /** The body has a `cash_amount` key exactly when the field is non-empty. */
  lemma CashKeyIffEntered(f: Form)
    ensures "cash_amount" in Body(f) <==> f.cashAmount != ""
  {
  }

  /**
   * On a form the keypad filled, the table-number check refuses exactly the empty
   * field and the all-zero fields ("0", "00", "000").
   */
  lemma KeypadTableRejects(f: Form)
    requires TableNumberOk(f.tableNumber)
    ensures (var n := ParseInt(f.tableNumber); n.None? || n.value < 1 || n.value > 300)
            <==> f.tableNumber == "" || DigitsValue(f.tableNumber) == 0
  {
  }

  /** The form's state, one field per `useState`. */
  class OrderForm {
    var drinkType: DrinkType
    var menu: string
    var milk: string
    var sugar: string
    var tableNumber: string
    var paymentMethod: string
    var receiptStatus: string
    var cashAmount: string
    var note: string

    function State(): Form
      reads this
    {
      Form(drinkType, menu, milk, sugar, tableNumber, paymentMethod, receiptStatus, cashAmount, note)
    }

    predicate Valid()
      reads this
    {
      ValidForm(State())
    }

    constructor()
      ensures State() == InitialForm && Valid()
    {
      drinkType, menu, milk, sugar := Ice, "", "無し", "無し";
      tableNumber, paymentMethod, receiptStatus, cashAmount, note := "", "", "", "", "";
    }

    /** A key 0..9 of the table-number keypad. */
    method AddDigit(digit: nat)
      requires digit <= 9 && Valid()
      modifies this
      ensures State() == old(State()).(tableNumber := NextTableNumber(old(tableNumber), digit))
      ensures Valid()
    {
      if |tableNumber| >= 3 {
        return;
      }
      var newValue := tableNumber + [DigitChar(digit)];
      var num := ParseInt(newValue);
      if num.Some? && num.value > 300 {
        return;
      }
      tableNumber := newValue;
    }

    method ClearNumber()
      requires Valid()
      modifies this
      ensures State() == old(State()).(tableNumber := "") && Valid()
    {
      tableNumber := "";
    }

    /** A key 0..9 of the cash keypad. */
    method AddCashDigit(digit: nat)
      requires digit <= 9 && Valid()
      modifies this
      ensures State() == old(State()).(cashAmount := NextCashAmount(old(cashAmount), digit))
      ensures Valid()
    {
      if |cashAmount| >= 6 {
        return;
      }
      cashAmount := cashAmount + [DigitChar(digit)];
    }

    method ClearCashNumber()
      requires Valid()
      modifies this
      ensures State() == old(State()).(cashAmount := "") && Valid()
    {
      cashAmount := "";
    }

    /** One of the 300 / 500 / 1000 buttons. */
    method PickCashPreset(amount: string)
      requires amount in CashPresets && Valid()
      modifies this
      ensures State() == old(State()).(cashAmount := amount) && Valid()
    {
      cashAmount := amount;
    }

    /** The ice/hot radio: switching the drink type clears the chosen menu. */
    method SelectDrinkType(d: DrinkType)
      requires Valid()
      modifies this
      ensures State() == old(State()).(drinkType := d, menu := "") && Valid()
    {
      drinkType := d;
      menu := "";
    }

    method SelectMenu(m: string)
      requires m in CurrentMenus(drinkType) && Valid()
      modifies this
      ensures State() == old(State()).(menu := m) && Valid()
    {
      menu := m;
    }

    method SelectMilk(option: string)
      requires option in MilkOptions && Valid()
      modifies this
      ensures State() == old(State()).(milk := option) && Valid()
    {
      milk := option;
    }

    method SelectSugar(option: string)
      requires option in SugarOptions && Valid()
      modifies this
      ensures State() == old(State()).(sugar := option) && Valid()
    {
      sugar := option;
    }

    method SelectPaymentMethod(option: string)
      requires option in PaymentOptions && Valid()
      modifies this
      ensures State() == old(State()).(paymentMethod := option) && Valid()
    {
      paymentMethod := option;
    }

    method SelectReceiptStatus(option: string)
      requires option in ReceiptOptions && Valid()
      modifies this
      ensures State() == old(State()).(receiptStatus := option) && Valid()
    {
      receiptStatus := option;
    }

    method SetNote(text: string)
      requires Valid()
      modifies this
      ensures State() == old(State()).(note := text) && Valid()
    {
      note := text;
    }

    /** `handleCancel`: every field back to its initial value (navigation is left out). */
    method HandleCancel()
      modifies this
      ensures State() == InitialForm && Valid()
    {
      drinkType := Ice;
      menu := "";
      milk := "無し";
      sugar := "無し";
      tableNumber := "";
      paymentMethod := "";
      receiptStatus := "";
      cashAmount := "";
      note := "";
    }

    /** `handleSubmit`: `None` where an alert stops it, otherwise the body it posts. */
    method HandleSubmit() returns (body: Option<map<string, Json>>)
      ensures Rejects(State()) <==> body.None?
      ensures body.Some? ==> body.value == Body(State()) && !OrdersRoute.PostRejects(body.value)
    {
      var tableNum := ParseInt(tableNumber);
      if tableNum.None? || tableNum.value < 1 || tableNum.value > 300 {
        return None;
      }
      if menu == "" || tableNumber == "" || paymentMethod == "" || receiptStatus == "" {
        return None;
      }
      if paymentMethod == "現金" && receiptStatus == "済" && cashAmount == "" {
        return None;
      }
      AcceptedFormPassesServer(State());
      return Some(Body(State()));
    }
  }
}

/**
 * The drink menu with its prices (src/app/date/menuItems.ts): a constant table of
 * (name, price, type) entries and a lookup of the price of a named drink.
 */
module MenuItems {
  import opened Wrappers

  datatype Kind = Ice | Hot

  datatype DrinkItem = DrinkItem(name: string, price: int, kind: Kind)

  const Items: seq<DrinkItem> := [
    DrinkItem("コーヒー", 300, Ice),
    DrinkItem("オーレ", 300, Ice),
    DrinkItem("紅茶", 300, Ice),
    DrinkItem("はちみつ紅茶", 300, Ice),
    DrinkItem("抹茶オーレ", 300, Ice),
    DrinkItem("ココア", 300, Ice),
    DrinkItem("ハニーレモン", 300, Ice),
    DrinkItem("はちみつゆず", 300, Ice),
    DrinkItem("カルピス", 300, Ice),
    DrinkItem("オレンジ", 300, Ice),
    DrinkItem("マンゴー", 300, Ice),
    DrinkItem("ミックス", 300, Ice),
    DrinkItem("マンゴーラッシー", 300, Ice),
    DrinkItem("いちごオーレ", 300, Ice),
    DrinkItem("美酢ざくろ", 300, Ice),
    DrinkItem("美酢アセロラ", 300, Ice),
    DrinkItem("美酢パイン", 300, Ice),
    DrinkItem("美酢レモン", 300, Ice),
    DrinkItem("美酢キウイ", 300, Ice),
    DrinkItem("カルピス炭酸割", 300, Ice),
    DrinkItem("ハニーレモン炭酸割", 300, Ice),
    DrinkItem("コーヒー", 300, Hot),
    DrinkItem("オーレ", 300, Hot),
    DrinkItem("紅茶", 300, Hot),
    DrinkItem("はちみつ紅茶", 300, Hot),
    DrinkItem("抹茶オーレ", 300, Hot),
    DrinkItem("ココア", 300, Hot),
    DrinkItem("ハニーレモン", 300, Hot),
    DrinkItem("はちみつゆず", 300, Hot),
    DrinkItem("こぶ茶", 300, Hot),
    DrinkItem("梅こぶ茶", 300, Hot),
    DrinkItem("カルピス", 300, Hot),
    DrinkItem("コーンスープ", 300, Hot),
    DrinkItem("クリームオニオン", 300, Hot),
    DrinkItem("ベーコンポテト", 300, Hot),
    DrinkItem("きのこ", 300, Hot),
    DrinkItem("4種のチーズ", 300, Hot),
    DrinkItem("プレミアム", 500, Hot)]

  /** The price of the first entry with this name and type, `None` when there is none. */
  function PriceIn(items: seq<DrinkItem>, name: string, kind: Kind): (r: Option<int>)
    ensures r.None? <==> forall i | 0 <= i < |items| :: items[i].name != name || items[i].kind != kind
    ensures r.Some? ==> exists i | 0 <= i < |items| ::
      items[i].name == name && items[i].kind == kind && items[i].price == r.value
    ensures forall i | 0 <= i < |items| && items[i].name == name && items[i].kind == kind ::
      (forall j | 0 <= j < i :: items[j].name != name || items[j].kind != kind)
      ==> r == Some(items[i].price)
  {
    if items == [] then None
    else if items[0].name == name && items[0].kind == kind then Some(items[0].price)
    else
      var r := PriceIn(items[1..], name, kind);
      assert forall i | 1 <= i < |items| :: items[i] == items[1..][i - 1];
      r
  }

  function Price(name: string, kind: Kind): Option<int> {
    PriceIn(Items, name, kind)
  }

  /** Every entry costs 300 or 500, and only the hot プレミアム costs 500. */
  lemma PricesAreTiers()
    ensures forall i | 0 <= i < |Items| :: Items[i].price == 300 || Items[i].price == 500
    ensures forall i | 0 <= i < |Items| ::
      Items[i].price == 500 <==> Items[i].name == "プレミアム" && Items[i].kind == Hot
  {
  }

  /** Exactly one entry is priced 500: the last one. */
  lemma OneFiveHundred(i: int)
    requires 0 <= i < |Items| && Items[i].price == 500
    ensures i == |Items| - 1
  {
  }

  /** Every ice drink costs 300. */
  lemma IceIsThreeHundred(name: string)
    ensures Price(name, Ice).Some? ==> Price(name, Ice) == Some(300)
  {
    assert forall i | 0 <= i < |Items| :: Items[i].kind == Ice ==> Items[i].price == 300;
  }

  /** A name may appear under both types: コーヒー is both an ice and a hot drink. */
  lemma CoffeeUnderBothTypes()
    ensures Price("コーヒー", Ice) == Some(300) && Price("コーヒー", Hot) == Some(300)
  {
    FirstMatch(0, "コーヒー", Ice);
    FirstMatch(21, "コーヒー", Hot);
  }

  /** プレミアム is sold hot only, at 500. */
  lemma PremiumHotOnly()
    ensures Price("プレミアム", Hot) == Some(500) && Price("プレミアム", Ice) == None
  {
    PremiumIsLast();
    FirstMatch(37, "プレミアム", Hot);
    NoIcePremium();
  }

  lemma NoIcePremium()
    ensures Price("プレミアム", Ice) == None
  {
    PremiumIsLast();
    assert Items[37].kind == Hot;
    assert forall i | 0 <= i < |Items| :: Items[i].name != "プレミアム" || Items[i].kind != Ice;
  }

  lemma PremiumIsLast()
    ensures forall i | 0 <= i < |Items| :: Items[i].name == "プレミアム" <==> i == 37
  {
  }

  lemma FirstMatch(i: int, name: string, kind: Kind)
    requires 0 <= i < |Items| && Items[i].name == name && Items[i].kind == kind
    requires forall j | 0 <= j < i :: Items[j].name != name || Items[j].kind != kind
    ensures Price(name, kind) == Some(Items[i].price)
  {
  }

  /** No (name, type) pair is listed twice. */
  lemma PairsUnique(i: int, j: int)
    requires 0 <= i < j < |Items|
    ensures Items[i].name != Items[j].name || Items[i].kind != Items[j].kind
  {
    if Items[i].kind == Items[j].kind {
      if j < 21 {
        IceNamesDistinct(i, j);
      } else {
        HotNamesDistinct(i, j);
      }
    }
  }

  lemma IceNamesDistinct(i: int, j: int)
    requires 0 <= i < j < 21
    ensures Items[i].name != Items[j].name
  {
  }

  lemma HotNamesDistinct(i: int, j: int)
    requires 21 <= i < j < |Items|
    ensures Items[i].name != Items[j].name
  {
  }
}

/**
 * The shift summary shared by the sales-report generator
 * (src/app/api/orders/sales-report/generate/route.ts) and the sales page
 * (src/app/sales/page.tsx): order counts by drink and by price tier and payment method,
 * and cash sales. Both files carry the same alias table and the same empty summary;
 * they differ only in how an order is assigned to a price tier, which is `Rules` here.
 */
module ShiftSummaries {

  /** The five payment kinds a summary counts (`現金`, `4円`, `1円`, `スロ`, `その他`). */
  datatype PaymentMethod = Cash | Yen4 | Yen1 | Slot | Other

  /** `normalizePaymentMethod`: the fixed alias table; anything else is `その他`. */
  function Normalize(name: string): (p: PaymentMethod)
    ensures p == Cash <==> name == "現金"
    ensures p == Yen4 <==> name == "4円" || name == "4パチ"
    ensures p == Yen1 <==> name == "1円" || name == "1パチ"
    ensures p == Slot <==> name == "スロ"
    ensures p == Other <==> name !in {"現金", "4円", "4パチ", "1円", "1パチ", "スロ"}
  {
    if name == "現金" then Cash
    else if name == "4円" || name == "4パチ" then Yen4
    else if name == "1円" || name == "1パチ" then Yen1
    else if name == "スロ" then Slot
    else Other
  }

  /** One counter per payment kind (`byType300`, `byType500`). */
  datatype Tally = Tally(cash: int, yen4: int, yen1: int, slot: int, other: int) {

    function Get(m: PaymentMethod): int {
      match m
      case Cash => cash
      case Yen4 => yen4
      case Yen1 => yen1
      case Slot => slot
      case Other => other
    }

    /** `byType[m] += 1`: that counter and no other. */
    function Inc(m: PaymentMethod): (t: Tally)
      ensures forall k :: t.Get(k) == Get(k) + (if k == m then 1 else 0)
    {
      match m
      case Cash => this.(cash := cash + 1)
      case Yen4 => this.(yen4 := yen4 + 1)
      case Yen1 => this.(yen1 := yen1 + 1)
      case Slot => this.(slot := slot + 1)
      case Other => this.(other := other + 1)
    }

    /** The keywise sum of two tallies. */
    function Plus(u: Tally): (t: Tally)
      ensures forall k :: t.Get(k) == Get(k) + u.Get(k)
    {
      Tally(cash + u.cash, yen4 + u.yen4, yen1 + u.yen1, slot + u.slot, other + u.other)
    }
  }

  const ZeroTally := Tally(0, 0, 0, 0, 0)

  datatype ShiftSummary = ShiftSummary(
    total: int, ice: int, hot: int, sales: int,
    byType300: Tally, sales300: int,
    byType500: Tally, sales500: int)

  /** `initSummary()`: every counter zero. */
  function InitSummary(): (s: ShiftSummary)
    ensures s.total == 0 && s.ice == 0 && s.hot == 0 && s.sales == 0
    ensures s.sales300 == 0 && s.sales500 == 0
    ensures forall m :: s.byType300.Get(m) == 0 && s.byType500.Get(m) == 0
  {
    ShiftSummary(0, 0, 0, 0, ZeroTally, 0, ZeroTally, 0)
  }

  /** The fieldwise and keywise sum of two summaries (the day total). */
  function Merge(a: ShiftSummary, b: ShiftSummary): (r: ShiftSummary)
    ensures r.total == a.total + b.total && r.ice == a.ice + b.ice && r.hot == a.hot + b.hot
    ensures r.sales == a.sales + b.sales && r.sales300 == a.sales300 + b.sales300 && r.sales500 == a.sales500 + b.sales500
    ensures forall m :: r.byType300.Get(m) == a.byType300.Get(m) + b.byType300.Get(m)
    ensures forall m :: r.byType500.Get(m) == a.byType500.Get(m) + b.byType500.Get(m)
  {
    ShiftSummary(a.total + b.total, a.ice + b.ice, a.hot + b.hot, a.sales + b.sales,
                 a.byType300.Plus(b.byType300), a.sales300 + b.sales300,
                 a.byType500.Plus(b.byType500), a.sales500 + b.sales500)
  }

  /** What a summary reads of an order. */
  datatype SaleOrder = SaleOrder(createdAt: int, drinkType: string, price: int, paymentMethod: string, status: string)

  /**
   * The two tier rules: the generator counts only 300 and 500 and skips `その他`;
   * the sales page puts exactly 300 in the 300 tier and every other price in the 500 tier.
   */
  datatype Rules = Server | Client

  datatype Tier = Tier300 | Tier500 | NoTier

  function TierOf(rules: Rules, m: PaymentMethod, price: int): (t: Tier)
    ensures t == Tier300 <==> price == 300 && (rules == Client || m != Other)
    ensures t == Tier500 <==> if rules == Server then m != Other && price == 500 else price != 300
    ensures t == NoTier <==> rules == Server && (m == Other || (price != 300 && price != 500))
  {
    match rules
    case Server =>
      if m == Other then NoTier
      else if price == 300 then Tier300
      else if price == 500 then Tier500
      else NoTier
    case Client =>
      if price == 300 then Tier300 else Tier500
  }

  function CashPrice(o: SaleOrder): int {
    if Normalize(o.paymentMethod) == Cash then o.price else 0
  }

  /** The summary after one more order: one step of the per-order loop. */
  function Add(rules: Rules, s: ShiftSummary, o: SaleOrder): (r: ShiftSummary)
    ensures r.total == s.total + 1
    ensures r.sales == s.sales + CashPrice(o)
    ensures r.sales300 + r.sales500 == s.sales300 + s.sales500
      + (if TierOf(rules, Normalize(o.paymentMethod), o.price) == NoTier then 0 else CashPrice(o))
  {
    var m := Normalize(o.paymentMethod);
    var s1 := s.(total := s.total + 1,
                 ice := s.ice + (if o.drinkType == "ice" then 1 else 0),
                 hot := s.hot + (if o.drinkType == "hot" then 1 else 0));
    var s2 := match TierOf(rules, m, o.price)
      case Tier300 => s1.(byType300 := s1.byType300.Inc(m), sales300 := s1.sales300 + CashPrice(o))
      case Tier500 => s1.(byType500 := s1.byType500.Inc(m), sales500 := s1.sales500 + CashPrice(o))
      case NoTier => s1;
    s2.(sales := s2.sales + CashPrice(o))
  }

  /** The summary of a sequence of orders, taken in order from the empty summary. */
  function SummaryOf(rules: Rules, os: seq<SaleOrder>): (s: ShiftSummary)
    ensures s.total == |os|
  {
    if os == [] then InitSummary()
    else Add(rules, SummaryOf(rules, os[..|os| - 1]), os[|os| - 1])
  }

  /** How many orders satisfy `p`. */
  function Count(os: seq<SaleOrder>, p: SaleOrder -> bool): (n: nat)
    ensures n <= |os|
  {
    if os == [] then 0
    else Count(os[..|os| - 1], p) + (if p(os[|os| - 1]) then 1 else 0)
  }

  /** The sum of the prices of the cash orders that satisfy `p`. */
  function CashSum(os: seq<SaleOrder>, p: SaleOrder -> bool): int {
    if os == [] then 0
    else CashSum(os[..|os| - 1], p) + (if p(os[|os| - 1]) then CashPrice(os[|os| - 1]) else 0)
  }

  /** The orders that pass `p`, in order. */
  function Filter(os: seq<SaleOrder>, p: SaleOrder -> bool): seq<SaleOrder> {
    if os == [] then []
    else Filter(os[..|os| - 1], p) + (if p(os[|os| - 1]) then [os[|os| - 1]] else [])
  }

  /** The orders that fail `p`, in order. */
  function FilterOut(os: seq<SaleOrder>, p: SaleOrder -> bool): seq<SaleOrder> {
    if os == [] then []
    else FilterOut(os[..|os| - 1], p) + (if p(os[|os| - 1]) then [] else [os[|os| - 1]])
  }

  /**
   * Every counter of a summary is a count over its orders: `total` counts all of them,
   * `ice`/`hot` those of that drink type, each tier cell those the rules put in that tier
   * with that payment kind; `sales` sums the cash prices, `sales300`/`sales500` the cash
   * prices of each tier.
   */
  lemma {:induction false} SummaryCounts(rules: Rules, os: seq<SaleOrder>)
    ensures var s := SummaryOf(rules, os);
      s.total == |os|
      && s.ice == Count(os, (o: SaleOrder) => o.drinkType == "ice")
      && s.hot == Count(os, (o: SaleOrder) => o.drinkType == "hot")
      && s.sales == CashSum(os, (o: SaleOrder) => true)
      && s.sales300 == CashSum(os, (o: SaleOrder) => TierOf(rules, Normalize(o.paymentMethod), o.price) == Tier300)
      && s.sales500 == CashSum(os, (o: SaleOrder) => TierOf(rules, Normalize(o.paymentMethod), o.price) == Tier500)
      && (forall m :: s.byType300.Get(m) == Count(os, InCell(rules, m, Tier300)))
      && (forall m :: s.byType500.Get(m) == Count(os, InCell(rules, m, Tier500)))
  {
    SummaryDrinkCounts(rules, os);
    SummarySales(rules, os);
    forall m
      ensures SummaryOf(rules, os).byType300.Get(m) == Count(os, InCell(rules, m, Tier300))
      ensures SummaryOf(rules, os).byType500.Get(m) == Count(os, InCell(rules, m, Tier500))
    {
      SummaryCell(rules, os, m);
    }
  }

  /** The orders counted in the cell of payment kind `m` of a tier. */
  function InCell(rules: Rules, m: PaymentMethod, tier: Tier): SaleOrder -> bool {
    (o: SaleOrder) => Normalize(o.paymentMethod) == m && TierOf(rules, m, o.price) == tier
  }

  lemma {:induction false} SummaryDrinkCounts(rules: Rules, os: seq<SaleOrder>)
    ensures var s := SummaryOf(rules, os);
      s.total == |os|
      && s.ice == Count(os, (o: SaleOrder) => o.drinkType == "ice")
      && s.hot == Count(os, (o: SaleOrder) => o.drinkType == "hot")
  {
    if os != [] {
      var init, x := os[..|os| - 1], os[|os| - 1];
      SummaryDrinkCounts(rules, init);
      AddCounters(rules, SummaryOf(rules, init), x);
    }
  }

  /** One more order adds one to `total` and to the counter of its drink type. */
  lemma AddCounters(rules: Rules, s: ShiftSummary, o: SaleOrder)
    ensures var t := Add(rules, s, o);
      t.total == s.total + 1
      && t.ice == s.ice + (if o.drinkType == "ice" then 1 else 0)
      && t.hot == s.hot + (if o.drinkType == "hot" then 1 else 0)
  {
  }

  lemma {:induction false} SummarySales(rules: Rules, os: seq<SaleOrder>)
    ensures var s := SummaryOf(rules, os);
      s.sales == CashSum(os, (o: SaleOrder) => true)
      && s.sales300 == CashSum(os, (o: SaleOrder) => TierOf(rules, Normalize(o.paymentMethod), o.price) == Tier300)
      && s.sales500 == CashSum(os, (o: SaleOrder) => TierOf(rules, Normalize(o.paymentMethod), o.price) == Tier500)
  {
    if os != [] {
      SummarySales(rules, os[..|os| - 1]);
    }
  }

  lemma {:induction false} SummaryCell(rules: Rules, os: seq<SaleOrder>, m: PaymentMethod)
    ensures SummaryOf(rules, os).byType300.Get(m) == Count(os, InCell(rules, m, Tier300))
    ensures SummaryOf(rules, os).byType500.Get(m) == Count(os, InCell(rules, m, Tier500))
  {
    if os != [] {
      var init, x := os[..|os| - 1], os[|os| - 1];
      SummaryCell(rules, init, m);
      AddCell(rules, SummaryOf(rules, init), x, m);
    }
  }

  /** One more order adds one to the cell of its payment kind in its tier, and nothing to the others. */
  lemma AddCell(rules: Rules, s: ShiftSummary, o: SaleOrder, m: PaymentMethod)
    ensures Add(rules, s, o).byType300.Get(m) == s.byType300.Get(m) + (if InCell(rules, m, Tier300)(o) then 1 else 0)
    ensures Add(rules, s, o).byType500.Get(m) == s.byType500.Get(m) + (if InCell(rules, m, Tier500)(o) then 1 else 0)
  {
    var n := Normalize(o.paymentMethod);
    match TierOf(rules, n, o.price)
    case Tier300 =>
      assert Add(rules, s, o).byType300 == s.byType300.Inc(n);
      assert Add(rules, s, o).byType500 == s.byType500;
    case Tier500 =>
      assert Add(rules, s, o).byType300 == s.byType300;
      assert Add(rules, s, o).byType500 == s.byType500.Inc(n);
    case NoTier =>
      assert Add(rules, s, o).byType300 == s.byType300;
      assert Add(rules, s, o).byType500 == s.byType500;
  }

  /** When every order is ice or hot, the two drink counters add up to the total. */
  lemma {:induction false} IcePlusHot(rules: Rules, os: seq<SaleOrder>)
    requires forall o | o in os :: o.drinkType == "ice" || o.drinkType == "hot"
    ensures SummaryOf(rules, os).ice + SummaryOf(rules, os).hot == SummaryOf(rules, os).total
  {
    if os != [] {
      assert os[|os| - 1] in os;
      assert forall o | o in os[..|os| - 1] :: o in os;
      IcePlusHot(rules, os[..|os| - 1]);
      AddCounters(rules, SummaryOf(rules, os[..|os| - 1]), os[|os| - 1]);
    }
  }

  /** Under the generator's rules the `その他` cells of both tiers stay 0. */
  lemma {:induction false} ServerOtherCellsZero(os: seq<SaleOrder>)
    ensures SummaryOf(Server, os).byType300.Get(Other) == 0
    ensures SummaryOf(Server, os).byType500.Get(Other) == 0
  {
    if os != [] {
      ServerOtherCellsZero(os[..|os| - 1]);
    }
  }

  /**
   * Under the generator's rules an order priced neither 300 nor 500 changes only
   * `total`, `ice`/`hot` and `sales`: no tier cell and neither tier's sales.
   */
  lemma OffTierOrder(s: ShiftSummary, o: SaleOrder)
    requires o.price != 300 && o.price != 500
    ensures var t := Add(Server, s, o);
      t.byType300 == s.byType300 && t.byType500 == s.byType500
      && t.sales300 == s.sales300 && t.sales500 == s.sales500
      && t.total == s.total + 1 && t.sales == s.sales + CashPrice(o)
  {
  }

  /**
   * Under the generator's rules, when every price is 300 or 500 the cash sales split
   * exactly into the two tiers.
   */
  lemma {:induction false} ServerSalesSplit(os: seq<SaleOrder>)
    requires forall o | o in os :: o.price == 300 || o.price == 500
    ensures SummaryOf(Server, os).sales == SummaryOf(Server, os).sales300 + SummaryOf(Server, os).sales500
  {
    if os != [] {
      assert os[|os| - 1] in os;
      assert forall o | o in os[..|os| - 1] :: o in os;
      ServerSalesSplit(os[..|os| - 1]);
    }
  }

  /** Under the sales page's rules the cash sales always split into the two tiers. */
  lemma {:induction false} ClientSalesSplit(os: seq<SaleOrder>)
    ensures SummaryOf(Client, os).sales == SummaryOf(Client, os).sales300 + SummaryOf(Client, os).sales500
  {
    if os != [] {
      ClientSalesSplit(os[..|os| - 1]);
    }
  }

  /** Under the sales page's rules every order lands in exactly one tier cell. */
  lemma {:induction false} ClientCellsCoverAll(os: seq<SaleOrder>)
    ensures CellSum(SummaryOf(Client, os).byType300) + CellSum(SummaryOf(Client, os).byType500) == |os|
  {
    if os != [] {
      ClientCellsCoverAll(os[..|os| - 1]);
    }
  }

  function CellSum(t: Tally): int {
    t.cash + t.yen4 + t.yen1 + t.slot + t.other
  }

  lemma MergeAdd(rules: Rules, a: ShiftSummary, b: ShiftSummary, o: SaleOrder)
    ensures Merge(a, Add(rules, b, o)) == Add(rules, Merge(a, b), o)
    ensures Merge(Add(rules, a, o), b) == Add(rules, Merge(a, b), o)
  {
  }

  lemma MergeInit(s: ShiftSummary)
    ensures Merge(s, InitSummary()) == s && Merge(InitSummary(), s) == s
  {
  }

  /** Summaries of two runs of orders add up to the summary of both runs. */
  lemma {:induction false} MergeSummaries(rules: Rules, a: seq<SaleOrder>, b: seq<SaleOrder>)
    ensures Merge(SummaryOf(rules, a), SummaryOf(rules, b)) == SummaryOf(rules, a + b)
  {
    if b == [] {
      assert a + b == a;
      MergeInit(SummaryOf(rules, a));
    } else {
      var b', x := b[..|b| - 1], b[|b| - 1];
      var ab := a + b;
      assert ab[..|ab| - 1] == a + b' && ab[|ab| - 1] == x;
      calc {
        SummaryOf(rules, ab);
        Add(rules, SummaryOf(rules, a + b'), x);
        { MergeSummaries(rules, a, b'); }
        Add(rules, Merge(SummaryOf(rules, a), SummaryOf(rules, b')), x);
        { MergeAdd(rules, SummaryOf(rules, a), SummaryOf(rules, b'), x); }
        Merge(SummaryOf(rules, a), Add(rules, SummaryOf(rules, b'), x));
        Merge(SummaryOf(rules, a), SummaryOf(rules, b));
      }
    }
  }

  lemma SummaryOfSnoc(rules: Rules, s: seq<SaleOrder>, x: SaleOrder)
    ensures SummaryOf(rules, s + [x]) == Add(rules, SummaryOf(rules, s), x)
  {
    assert (s + [x])[..|s|] == s;
  }

  /** One more order: the summaries of the two sides of a split after it. */
  lemma SplitStep(rules: Rules, s: seq<SaleOrder>, x: SaleOrder, p: SaleOrder -> bool)
    ensures SummaryOf(rules, Filter(s + [x], p))
         == if p(x) then Add(rules, SummaryOf(rules, Filter(s, p)), x) else SummaryOf(rules, Filter(s, p))
    ensures SummaryOf(rules, FilterOut(s + [x], p))
         == if p(x) then SummaryOf(rules, FilterOut(s, p)) else Add(rules, SummaryOf(rules, FilterOut(s, p)), x)
  {
    var t := s + [x];
    assert t[..|t| - 1] == s && t[|t| - 1] == x;
    if p(x) {
      assert Filter(t, p) == Filter(s, p) + [x];
      assert FilterOut(t, p) == FilterOut(s, p);
      SummaryOfSnoc(rules, Filter(s, p), x);
    } else {
      assert Filter(t, p) == Filter(s, p);
      assert FilterOut(t, p) == FilterOut(s, p) + [x];
      SummaryOfSnoc(rules, FilterOut(s, p), x);
    }
  }

  /**
   * Splitting the orders by any test and merging the two summaries gives the summary
   * of all the orders: the day total is the summary of the whole day.
   */
  lemma {:induction false} MergePartition(rules: Rules, os: seq<SaleOrder>, p: SaleOrder -> bool)
    ensures Merge(SummaryOf(rules, Filter(os, p)), SummaryOf(rules, FilterOut(os, p))) == SummaryOf(rules, os)
  {
    if os == [] {
      MergeInit(InitSummary());
    } else {
      var init, x := os[..|os| - 1], os[|os| - 1];
      MergePartition(rules, init, p);
      var sp, sq := SummaryOf(rules, Filter(init, p)), SummaryOf(rules, FilterOut(init, p));
      assert SummaryOf(rules, os) == Add(rules, Merge(sp, sq), x);
      MergeAdd(rules, sp, sq, x);
      if p(x) {
        assert Filter(os, p) == Filter(init, p) + [x];
        assert FilterOut(os, p) == FilterOut(init, p);
        SummaryOfSnoc(rules, Filter(init, p), x);
      } else {
        assert Filter(os, p) == Filter(init, p);
        assert FilterOut(os, p) == FilterOut(init, p) + [x];
        SummaryOfSnoc(rules, FilterOut(init, p), x);
      }
    }
  }
}

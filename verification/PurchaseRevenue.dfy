/** Money over whole runs: the analytics sums over completed rows against the sales that were booked. */
module PurchaseRevenue {
  import opened Wrappers
  import opened RevenueSplit
  import opened PurchaseProtocol
  import opened PurchaseInvariant
  import opened PurchaseTheorems

  datatype Revenue = Revenue(gross: int, publisher: int, platform: int) {
    function Plus(r: Revenue): Revenue
    {
      Revenue(gross + r.gross, publisher + r.publisher, platform + r.platform)
    }
  }

  const NOTHING := Revenue(0, 0, 0)

  function OfRow(p: Purchase, mine: set<Id>): Revenue
  {
    if p.status == Completed && p.listing in mine
    then Revenue(p.amount, p.publisherShare, p.platformShare) else NOTHING
  }

  function OfSale(s: Sale, mine: set<Id>): Revenue
  {
    if s.listing in mine then Revenue(s.amount, s.publisherShare, s.platformShare) else NOTHING
  }

  /** publisher_analytics: the three sums over the completed purchases of a publisher's listings. */
  function Analytics(rows: seq<Purchase>, mine: set<Id>): Revenue
  {
    if rows == [] then NOTHING
    else Analytics(rows[..|rows| - 1], mine).Plus(OfRow(rows[|rows| - 1], mine))
  }

  function Booked(sales: seq<Sale>, mine: set<Id>): Revenue
  {
    if sales == [] then NOTHING
    else Booked(sales[..|sales| - 1], mine).Plus(OfSale(sales[|sales| - 1], mine))
  }

  lemma AnalyticsAppend(rows: seq<Purchase>, p: Purchase, mine: set<Id>)
    ensures Analytics(rows + [p], mine) == Analytics(rows, mine).Plus(OfRow(p, mine))
  {
    assert (rows + [p])[..|rows|] == rows;
  }

  lemma BookedAppend(sales: seq<Sale>, s: Sale, mine: set<Id>)
    ensures Booked(sales + [s], mine) == Booked(sales, mine).Plus(OfSale(s, mine))
  {
    assert (sales + [s])[..|sales|] == sales;
  }

  lemma {:induction false} AnalyticsUpdate(rows: seq<Purchase>, i: nat, p: Purchase, mine: set<Id>)
    requires i < |rows|
    ensures Analytics(rows[i := p], mine).Plus(OfRow(rows[i], mine)) == Analytics(rows, mine).Plus(OfRow(p, mine))
  {
    var last := |rows| - 1;
    if i == last {
      assert rows[i := p][..last] == rows[..last];
    } else {
      assert rows[i := p][..last] == rows[..last][i := p];
      AnalyticsUpdate(rows[..last], i, p, mine);
    }
  }

  lemma RepricedRevenue(w: World, i: nat, order: string, amount: int, mine: set<Id>)
    requires i < |w.rows| && w.rows[i].status == Pending
    ensures Analytics(Repriced(w, i, order, amount).rows, mine) == Analytics(w.rows, mine)
  {
    AnalyticsUpdate(w.rows, i, w.rows[i].(order := order, amount := amount), mine);
  }

  lemma PlusNothing(r: Revenue)
    ensures r.Plus(NOTHING) == r
  {
  }

  lemma OpenedRevenue(w: World, listing: Id, buyer: Id, order: string, amount: int, mine: set<Id>)
    ensures Analytics(Opened(w, listing, buyer, order, amount).rows, mine) == Analytics(w.rows, mine)
  {
    var p := Purchase(listing, buyer, Pending, order, None, amount, 0, 0, None);
    assert OfRow(p, mine) == NOTHING;
    AnalyticsAppend(w.rows, p, mine);
    PlusNothing(Analytics(w.rows, mine));
  }

  lemma OrderRevenue(w: World, c: Id, mine: set<Id>)
    ensures Analytics(StepOrderCommit(w, c).rows, mine) == Analytics(w.rows, mine)
    ensures StepOrderCommit(w, c).sales == w.sales
  {
    if c in w.callers && w.callers[c].Ordering? {
      var Ordering(listing, buyer, order, amount) := w.callers[c];
      match Find(w.rows, listing, buyer, Pending)
      case Some(i) => RepricedRevenue(w, i, order, amount, mine);
      case None => OpenedRevenue(w, listing, buyer, order, amount, mine);
    }
  }

  lemma RowIsSale(w: World, v: Verify, row: nat, inst: nat, mine: set<Id>)
    requires row < |w.rows| && Is(w.rows[row], v.listing, v.buyer, Pending)
    ensures OfRow(w.rows[row], mine) == NOTHING
    ensures OfRow(CompletedRow(w, v, w.rows[row], inst), mine) == OfSale(SaleOf(w, v, row, inst), mine)
  {
  }

  lemma SoldRevenue(w: World, v: Verify, row: nat, inst: nat, mine: set<Id>)
    requires row < |w.rows| && Is(w.rows[row], v.listing, v.buyer, Pending)
    requires Analytics(w.rows, mine) == Booked(w.sales, mine)
    ensures Analytics(Sold(w, v, row, inst).rows, mine) == Booked(Sold(w, v, row, inst).sales, mine)
  {
    var p, s := CompletedRow(w, v, w.rows[row], inst), SaleOf(w, v, row, inst);
    RowIsSale(w, v, row, inst, mine);
    AnalyticsUpdate(w.rows, row, p, mine);
    PlusNothing(Analytics(w.rows[row := p], mine));
    BookedAppend(w.sales, s, mine);
  }

  lemma CompletionRevenue(mac: Mac, w: World, c: Id, mine: set<Id>)
    requires CallersOk(mac, w) && Analytics(w.rows, mine) == Booked(w.sales, mine)
    ensures Analytics(StepVerifyComplete(w, c).rows, mine) == Booked(StepVerifyComplete(w, c).sales, mine)
  {
    if c in w.callers && w.callers[c].Installed? {
      var Installed(v, row, inst) := w.callers[c];
      assert PhaseOk(mac, w, c, w.callers[c]);
      SoldRevenue(w, v, row, inst, mine);
    }
  }

  lemma StepRevenue(mac: Mac, w: World, e: Event, mine: set<Id>)
    requires CallersOk(mac, w) && RowsOk(w) && Analytics(w.rows, mine) == Booked(w.sales, mine)
    ensures Analytics(Step(mac, w, e).rows, mine) == Booked(Step(mac, w, e).sales, mine)
  {
    if e.VerifyComplete? {
      CompletionRevenue(mac, w, e.c, mine);
    } else {
      QuietKeepsSales(mac, w, e);
      match e
      case OrderCommit(c) => OrderRevenue(w, c, mine);
      case DirectFinish(c) => DirectFinishKeeps(mac, w, c);
      case _ => QuietKeepsRows(mac, w, e);
    }
  }

  /** In every run the sums over completed rows are the sums over the completing commits: booked once, never lost. */
  lemma {:induction false} AnalyticsIsWhatWasBooked(mac: Mac, w: World, events: seq<Event>, mine: set<Id>)
    requires Inv(mac, w) && Analytics(w.rows, mine) == Booked(w.sales, mine)
    ensures Analytics(Run(mac, w, events).rows, mine) == Booked(Run(mac, w, events).sales, mine)
    decreases |events|
  {
    if events != [] {
      StepRevenue(mac, w, events[0], mine);
      StepInv(mac, w, events[0]);
      AnalyticsIsWhatWasBooked(mac, Step(mac, w, events[0]), events[1..], mine);
    }
  }

  /** A sale whose shares add up and whose publisher share is within half a cent of the exact one. */
  ghost predicate Fair(s: Sale)
  {
    && s.amount == s.publisherShare + s.platformShare
    && -FULL_SHARE / 2 <= FULL_SHARE * s.publisherShare - s.bps * s.amount <= FULL_SHARE / 2
  }

  lemma SalesAreFair(mac: Mac, w: World, k: nat)
    requires SalesOk(mac, w) && k < |w.sales|
    ensures Fair(w.sales[k])
  {
    assert SaleOk(mac, w, w.sales[k]);
    SplitIsExact(w.sales[k].amount, w.sales[k].bps);
  }

  lemma {:induction false} GrossIsSplit(sales: seq<Sale>, mine: set<Id>)
    requires forall k :: 0 <= k < |sales| ==> Fair(sales[k])
    ensures var r := Booked(sales, mine); r.gross == r.publisher + r.platform
  {
    if sales != [] {
      assert Fair(sales[|sales| - 1]);
      GrossIsSplit(sales[..|sales| - 1], mine);
    }
  }

  function SalesIn(sales: seq<Sale>, mine: set<Id>): nat
  {
    if sales == [] then 0
    else SalesIn(sales[..|sales| - 1], mine) + if sales[|sales| - 1].listing in mine then 1 else 0
  }

  /** Sum over the sales of what rounding moved, in 1/FULL_SHARE of a cent. */
  function Drift(sales: seq<Sale>, mine: set<Id>): int
  {
    if sales == [] then 0
    else
      var s := sales[|sales| - 1];
      Drift(sales[..|sales| - 1], mine) + if s.listing in mine then FULL_SHARE * s.publisherShare - s.bps * s.amount else 0
  }

  lemma {:induction false} DriftIsSmall(sales: seq<Sale>, mine: set<Id>)
    requires forall k :: 0 <= k < |sales| ==> Fair(sales[k])
    ensures -(FULL_SHARE / 2) * SalesIn(sales, mine) <= Drift(sales, mine) <= FULL_SHARE / 2 * SalesIn(sales, mine)
  {
    if sales != [] {
      assert Fair(sales[|sales| - 1]);
      DriftIsSmall(sales[..|sales| - 1], mine);
    }
  }

  lemma {:induction false} DriftAtOneRate(sales: seq<Sale>, mine: set<Id>, bps: int)
    requires forall k :: 0 <= k < |sales| && sales[k].listing in mine ==> sales[k].bps == bps
    ensures Drift(sales, mine) == FULL_SHARE * Booked(sales, mine).publisher - bps * Booked(sales, mine).gross
  {
    if sales != [] {
      var last := |sales| - 1;
      DriftAtOneRate(sales[..last], mine, bps);
      var before := Booked(sales[..last], mine).gross;
      assert bps * (before + sales[last].amount) == bps * before + bps * sales[last].amount;
    }
  }

  /** For every reachable state: gross is exactly publisher plus platform, and at a constant rate
      the publisher's total is within half a cent per sale of its exact share. */
  lemma AnalyticsAddUp(mac: Mac, w: World, events: seq<Event>, mine: set<Id>, bps: int)
    requires Fresh(w)
    ensures var r := Analytics(Run(mac, w, events).rows, mine); r.gross == r.publisher + r.platform
    ensures var w' := Run(mac, w, events);
      (forall k :: 0 <= k < |w'.sales| && w'.sales[k].listing in mine ==> w'.sales[k].bps == bps) ==>
        var r := Analytics(w'.rows, mine);
        var half := FULL_SHARE / 2 * SalesIn(w'.sales, mine);
        -half <= FULL_SHARE * r.publisher - bps * r.gross <= half
  {
    FreshInv(mac, w);
    RunInv(mac, w, events);
    AnalyticsIsWhatWasBooked(mac, w, events, mine);
    var w' := Run(mac, w, events);
    forall k | 0 <= k < |w'.sales| ensures Fair(w'.sales[k]) {
      SalesAreFair(mac, w', k);
    }
    GrossIsSplit(w'.sales, mine);
    if forall k :: 0 <= k < |w'.sales| && w'.sales[k].listing in mine ==> w'.sales[k].bps == bps {
      DriftIsSmall(w'.sales, mine);
      DriftAtOneRate(w'.sales, mine, bps);
    }
  }

  // ── A price change in the window ──────────────────────────────────────────

  const BUYER: Id := 2
  const LISTING: Id := 7
  const SIGNED := Verify(BUYER, LISTING, "o1", "p1", "mac")

  function Shop(price: int): World
  {
    World(map[LISTING := Listing(1, 7000, true, false, price, 0)], [], map[], map[], map[], map[], [], [], [], true)
  }

  function Row(order: string, amount: int): Purchase
  {
    Purchase(LISTING, BUYER, Pending, order, None, amount, 0, 0, None)
  }

  /** Order o1 at 100 cents has been created. */
  function Ordered(): World
  {
    Shop(100).(rows := [Row("o1", 100)], minted := map["o1" := Mint(LISTING, BUYER, 100)],
               callers := map[1 := Done(OrderCreated)])
  }

  /** It has been paid, verified and installed; the purchase is not marked yet. */
  function InTheWindow(): World
  {
    Ordered().(slots := map[(BUYER, LISTING) := Slot(0, Live)],
               placements := [Placement(LISTING, BUYER, ByVerify(SIGNED))],
               callers := map[1 := Done(OrderCreated), 5 := Installed(SIGNED, 0, 0)])
  }

  /** Meanwhile the price went up and the buyer opened the checkout again. */
  function Reordered(): World
  {
    InTheWindow().(listings := Shop(900).listings, rows := [Row("o2", 900)],
                   minted := map["o1" := Mint(LISTING, BUYER, 100), "o2" := Mint(LISTING, BUYER, 900)],
                   callers := map[1 := Done(OrderCreated), 5 := Installed(SIGNED, 0, 0), 9 := Done(OrderCreated)])
  }

  lemma ToOrdered()
    ensures Run(ANY_MAC, Shop(100), [OrderGate(1, LISTING, BUYER, "o1"), OrderCommit(1)]) == Ordered()
  {
    var e0, e1 := OrderGate(1, LISTING, BUYER, "o1"), OrderCommit(1);
    TwoSteps(ANY_MAC, Shop(100), e0, e1);
    var w1 := Step(ANY_MAC, Shop(100), e0);
    assert w1 == Minted(Shop(100), 1, "o1", Mint(LISTING, BUYER, 100));
    assert Step(ANY_MAC, w1, e1) == Ordered();
  }

  lemma ToTheWindow()
    ensures Run(ANY_MAC, Ordered(), [VerifyLock(5, SIGNED), VerifyInstall(5, Accepted)]) == InTheWindow()
  {
    var e0, e1 := VerifyLock(5, SIGNED), VerifyInstall(5, Accepted);
    TwoSteps(ANY_MAC, Ordered(), e0, e1);
    assert VerifyLookup(ANY_MAC, Ordered(), SIGNED) == Take(0);
    assert Step(ANY_MAC, Held(Ordered(), 5, SIGNED, 0), e1) == InTheWindow();
  }

  lemma PriceGoesUp()
    ensures Step(ANY_MAC, InTheWindow(), EditListing(LISTING, 7000, true, false, 900))
            == InTheWindow().(listings := Shop(900).listings)
  {
  }

  lemma SecondGate()
    ensures var w := InTheWindow().(listings := Shop(900).listings);
      Step(ANY_MAC, w, OrderGate(9, LISTING, BUYER, "o2")) == Minted(w, 9, "o2", Mint(LISTING, BUYER, 900))
  {
  }

  lemma SecondCommit()
    ensures var w := InTheWindow().(listings := Shop(900).listings);
      Step(ANY_MAC, Minted(w, 9, "o2", Mint(LISTING, BUYER, 900)), OrderCommit(9)) == Reordered()
  {
    var w := Minted(InTheWindow().(listings := Shop(900).listings), 9, "o2", Mint(LISTING, BUYER, 900));
    assert w.rows == [Row("o1", 100)];
    assert Find(w.rows, LISTING, BUYER, Pending) == Some(0);
    assert StepOrderCommit(w, 9) == End(Repriced(w, 0, "o2", 900), 9, OrderCreated);
  }

  lemma ToReordered()
    ensures Run(ANY_MAC, InTheWindow(),
                [EditListing(LISTING, 7000, true, false, 900), OrderGate(9, LISTING, BUYER, "o2"), OrderCommit(9)])
         == Reordered()
  {
    var e0, e1, e2 := EditListing(LISTING, 7000, true, false, 900), OrderGate(9, LISTING, BUYER, "o2"), OrderCommit(9);
    ThreeSteps(ANY_MAC, InTheWindow(), e0, e1, e2);
    PriceGoesUp();
    SecondGate();
    SecondCommit();
  }

  lemma TwoSteps(mac: Mac, w: World, e0: Event, e1: Event)
    ensures Run(mac, w, [e0, e1]) == Step(mac, Step(mac, w, e0), e1)
  {
    var w1 := Step(mac, w, e0);
    assert [e0, e1][1..] == [e1];
    assert [e1][1..] == [];
    assert Run(mac, w, [e0, e1]) == Run(mac, w1, [e1]);
    assert Run(mac, w1, [e1]) == Run(mac, Step(mac, w1, e1), []);
  }

  lemma ToReorderedFromTheShop()
    ensures exists events: seq<Event> :: Run(ANY_MAC, Shop(100), events) == Reordered()
  {
    var first := [OrderGate(1, LISTING, BUYER, "o1"), OrderCommit(1)];
    var second := [VerifyLock(5, SIGNED), VerifyInstall(5, Accepted)];
    var third := [EditListing(LISTING, 7000, true, false, 900), OrderGate(9, LISTING, BUYER, "o2"), OrderCommit(9)];
    ToOrdered();
    ToTheWindow();
    ToReordered();
    RunAppend(ANY_MAC, Shop(100), first, second);
    RunAppend(ANY_MAC, Shop(100), first + second, third);
  }

  /** A second order placed between the install commit and the completing commit makes the sale
      book the new price against the order that was paid at the old one. */
  lemma RepricedInTheWindow()
    ensures exists w: World, events: seq<Event> ::
      && Fresh(w)
      && var w' := Run(ANY_MAC, w, events);
         |w'.sales| == 1 && w'.sales[0].order in w'.minted && w'.sales[0].amount != w'.minted[w'.sales[0].order].amount
  {
    ToReorderedFromTheShop();
    var before :| Run(ANY_MAC, Shop(100), before) == Reordered();
    RunAppend(ANY_MAC, Shop(100), before, [VerifyComplete(5)]);
    var w' := Step(ANY_MAC, Reordered(), VerifyComplete(5));
    assert Run(ANY_MAC, Reordered(), [VerifyComplete(5)]) == Run(ANY_MAC, w', []);
    assert w'.sales[0].order == "o1" && w'.sales[0].amount == 900;
    assert Fresh(Shop(100));
    assert Run(ANY_MAC, Shop(100), before + [VerifyComplete(5)]) == w';
  }
}

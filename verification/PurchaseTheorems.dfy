/** What every run of the paid-install protocol guarantees, whatever the interleaving. */
module PurchaseTheorems {
  import opened Wrappers
  import opened PurchaseProtocol
  import opened PurchaseInvariant

  // ── Exactly once ──────────────────────────────────────────────────────────

  /** No pair is sold twice, every completed purchase has its own sale, and install counts are exactly
      the sales plus the counted direct installs. */
  lemma SoldAtMostOnce(mac: Mac, w: World, events: seq<Event>)
    requires Fresh(w)
    ensures var w' := Run(mac, w, events);
      && (forall j, k :: 0 <= j < k < |w'.sales| ==>
            w'.sales[j].listing != w'.sales[k].listing || w'.sales[j].buyer != w'.sales[k].buyer)
      && (forall k :: 0 <= k < |w'.sales| ==> w'.sales[k].row < |w'.rows| && w'.rows[w'.sales[k].row].status == Completed)
      && (forall i :: 0 <= i < |w'.rows| && w'.rows[i].status == Completed ==>
            exists k :: 0 <= k < |w'.sales| && w'.sales[k].row == i)
      && (forall l :: l in w'.listings ==>
            w'.listings[l].installCount == SalesOf(w'.sales, l) + Occurrences(w'.directs, l))
  {
    FreshInv(mac, w);
    RunInv(mac, w, events);
    var w' := Run(mac, w, events);
    forall j, k | 0 <= j < k < |w'.sales|
      ensures w'.sales[j].listing != w'.sales[k].listing || w'.sales[j].buyer != w'.sales[k].buyer
    {
      assert SaleOk(mac, w', w'.sales[j]) && SaleOk(mac, w', w'.sales[k]);
    }
    forall k | 0 <= k < |w'.sales| ensures w'.sales[k].row < |w'.rows| && w'.rows[w'.sales[k].row].status == Completed {
      assert SaleOk(mac, w', w'.sales[k]);
    }
  }

  /** Any two successful answers for one pair carry the same payment and the same installation,
      and they agree with the one completed purchase. */
  lemma ReplaysAgree(mac: Mac, w: World, events: seq<Event>, c: Id, d: Id)
    requires Fresh(w)
    requires var w' := Run(mac, w, events);
      && c in w'.callers && w'.callers[c].Done? && w'.callers[c].reply.Ready?
      && d in w'.callers && w'.callers[d].Done? && w'.callers[d].reply.Ready?
      && w'.callers[c].reply.listing == w'.callers[d].reply.listing
      && w'.callers[c].reply.buyer == w'.callers[d].reply.buyer
    ensures var w' := Run(mac, w, events);
      && w'.callers[c].reply == w'.callers[d].reply
      && w'.callers[c].reply.installation.Some?
  {
    FreshInv(mac, w);
    RunInv(mac, w, events);
    var w' := Run(mac, w, events);
    assert PhaseOk(mac, w', c, w'.callers[c]) && PhaseOk(mac, w', d, w'.callers[d]);
    var r := w'.callers[c].reply;
    var i :| 0 <= i < |w'.rows| && Is(w'.rows[i], r.listing, r.buyer, Completed)
             && w'.rows[i].payment == Some(r.payment) && w'.rows[i].installation == r.installation;
    assert RowOk(w', w'.rows[i]);
  }

  lemma {:induction false} RunAppend(mac: Mac, w: World, first: seq<Event>, rest: seq<Event>)
    ensures Run(mac, w, first + rest) == Run(mac, Run(mac, w, first), rest)
    decreases |first|
  {
    if first == [] {
      assert first + rest == rest;
    } else {
      assert (first + rest)[1..] == first[1..] + rest;
      RunAppend(mac, Step(mac, w, first[0]), first[1..], rest);
    }
  }

  lemma LockKeepsBooks(mac: Mac, w: World, c: Id, v: Verify)
    ensures StepVerifyLock(mac, w, c, v).rows == w.rows && StepVerifyLock(mac, w, c, v).sales == w.sales
  {
  }

  lemma InstallKeepsBooks(w: World, c: Id, o: Outcome)
    ensures StepVerifyInstall(w, c, o).rows == w.rows && StepVerifyInstall(w, c, o).sales == w.sales
    ensures StepDirectInstall(w, c, o).rows == w.rows && StepDirectInstall(w, c, o).sales == w.sales
  {
  }

  lemma QuietKeepsSales(mac: Mac, w: World, e: Event)
    requires !e.VerifyComplete?
    ensures Step(mac, w, e).sales == w.sales
  {
    match e
    case OrderGate(c, l, b, o) => assert StepOrderGate(w, c, l, b, o).sales == w.sales;
    case VerifyLock(c, v) => LockKeepsBooks(mac, w, c, v);
    case VerifyInstall(c, o) => InstallKeepsBooks(w, c, o);
    case DirectInstall(c, o) => InstallKeepsBooks(w, c, o);
    case VerifyFold(c) => assert StepVerifyFold(w, c).sales == w.sales;
    case DirectGate(c, l, b) => assert StepDirectGate(w, c, l, b).sales == w.sales;
    case OrderCommit(c) => assert StepOrderCommit(w, c).sales == w.sales;
    case DirectFinish(c) => assert StepDirectFinish(w, c).sales == w.sales;
    case _ =>
  }

  lemma QuietKeepsRows(mac: Mac, w: World, e: Event)
    requires !e.OrderCommit? && !e.VerifyComplete? && !e.DirectFinish?
    ensures Step(mac, w, e).rows == w.rows
  {
    match e
    case OrderGate(c, l, b, o) => assert StepOrderGate(w, c, l, b, o).rows == w.rows;
    case VerifyLock(c, v) => LockKeepsBooks(mac, w, c, v);
    case VerifyInstall(c, o) => InstallKeepsBooks(w, c, o);
    case DirectInstall(c, o) => InstallKeepsBooks(w, c, o);
    case VerifyFold(c) => assert StepVerifyFold(w, c).rows == w.rows;
    case DirectGate(c, l, b) => assert StepDirectGate(w, c, l, b).rows == w.rows;
    case _ =>
  }

  lemma CompletionKeeps(mac: Mac, w: World, c: Id, i: nat)
    requires CallersOk(mac, w) && i < |w.rows| && w.rows[i].status == Completed
    ensures i < |StepVerifyComplete(w, c).rows| && StepVerifyComplete(w, c).rows[i] == w.rows[i]
  {
  }

  lemma DirectFinishKeeps(mac: Mac, w: World, c: Id)
    requires CallersOk(mac, w) && RowsOk(w)
    ensures StepDirectFinish(w, c).rows == w.rows
  {
  }

  lemma StepKeepsCompleted(mac: Mac, w: World, e: Event, i: nat)
    requires CallersOk(mac, w) && RowsOk(w) && i < |w.rows| && w.rows[i].status == Completed
    ensures i < |Step(mac, w, e).rows| && Step(mac, w, e).rows[i] == w.rows[i]
  {
    match e
    case OrderCommit(c) =>
    case VerifyComplete(c) => CompletionKeeps(mac, w, c, i);
    case DirectFinish(c) => DirectFinishKeeps(mac, w, c);
    case _ => QuietKeepsRows(mac, w, e);
  }

  /** A completed purchase never changes again: not its payment, amount, shares or installation. */
  lemma {:induction false} CompletedIsFinal(mac: Mac, w: World, events: seq<Event>, i: nat)
    requires Inv(mac, w) && i < |w.rows| && w.rows[i].status == Completed
    ensures i < |Run(mac, w, events).rows| && Run(mac, w, events).rows[i] == w.rows[i]
    decreases |events|
  {
    if events != [] {
      StepKeepsCompleted(mac, w, events[0], i);
      StepInv(mac, w, events[0]);
      CompletedIsFinal(mac, Step(mac, w, events[0]), events[1..], i);
    }
  }

  // ── Backing ───────────────────────────────────────────────────────────────

  /** A payment whose signature checks out and whose order was minted here for this very listing and buyer. */
  ghost predicate Paid(mac: Mac, w: World, listing: Id, buyer: Id,
                       order: string, payment: string, signature: string)
  {
    signature == mac(order + "|" + payment) && MintedFor(w, order, listing, buyer)
  }

  ghost predicate Backed(mac: Mac, w: World, p: Placement)
  {
    match p.cause
    case ByVerify(v) => Paid(mac, w, p.listing, p.buyer, v.order, v.payment, v.signature)
    case ByPurchase(row) =>
      exists k :: 0 <= k < |w.sales| && w.sales[k].row == row
        && Paid(mac, w, p.listing, p.buyer, w.sales[k].order, w.sales[k].payment, w.sales[k].signature)
    case BySawFree => false
  }

  /** The gate of a direct install lets a caller through exactly on a published listing of somebody else
      that is free or already bought. */
  lemma GateNeedsFreeOrPurchase(w: World, c: Id, listing: Id, buyer: Id)
    requires c !in w.callers
    ensures StepDirectGate(w, c, listing, buyer).callers[c].Cleared? <==>
      && listing in w.listings && w.listings[listing].published && w.listings[listing].publisher != buyer
      && (w.listings[listing].free || exists i :: 0 <= i < |w.rows| && Is(w.rows[i], listing, buyer, Completed))
    ensures StepDirectGate(w, c, listing, buyer).callers[c] == Cleared(listing, buyer, None) ==> w.listings[listing].free
  {
  }

  const ANY_MAC: Mac := m => "mac"

  /** Listing 7 of company 1, free or at one dollar. */
  function FreeShop(free: bool, price: int): World
  {
    World(map[7 := Listing(1, 7000, true, free, price, 0)], [], map[], map[], map[], map[], [], [], [], true)
  }

  lemma SeenFreeSteps()
    ensures Step(ANY_MAC, FreeShop(true, 0), DirectGate(5, 7, 2)) == Go(FreeShop(true, 0), 5, Cleared(7, 2, None))
    ensures Step(ANY_MAC, Go(FreeShop(true, 0), 5, Cleared(7, 2, None)), EditListing(7, 7000, true, false, 100))
         == Go(FreeShop(false, 100), 5, Cleared(7, 2, None))
  {
  }

  /** "Paid at the moment of the install" is not what the gate guarantees: the price may change in between. */
  lemma SeenFreeInstalledPaid()
    ensures exists w: World, events: seq<Event> ::
      && Fresh(w)
      && var w' := Run(ANY_MAC, w, events);
         |w'.placements| == 1 && w'.placements[0].cause.BySawFree? && 7 in w'.listings && !w'.listings[7].free && w'.rows == []
  {
    var e0, e1, e2 := DirectGate(5, 7, 2), EditListing(7, 7000, true, false, 100), DirectInstall(5, Accepted);
    ThreeSteps(ANY_MAC, FreeShop(true, 0), e0, e1, e2);
    SeenFreeSteps();
    var w' := StepDirectInstall(Go(FreeShop(false, 100), 5, Cleared(7, 2, None)), 5, Accepted);
    assert w'.placements == [Placement(7, 2, BySawFree)];
    assert Run(ANY_MAC, FreeShop(true, 0), [e0, e1, e2]) == w';
  }

  lemma ThreeSteps(mac: Mac, w: World, e0: Event, e1: Event, e2: Event)
    ensures Run(mac, w, [e0, e1, e2]) == Step(mac, Step(mac, Step(mac, w, e0), e1), e2)
  {
    var w1 := Step(mac, w, e0);
    var w2 := Step(mac, w1, e1);
    assert [e0, e1, e2][1..] == [e1, e2];
    assert [e1, e2][1..] == [e2];
    assert Run(mac, w, [e0, e1, e2]) == Run(mac, w1, [e1, e2]);
    assert Run(mac, w1, [e1, e2]) == Run(mac, w2, [e2]);
    assert Run(mac, w2, [e2]) == Run(mac, Step(mac, w2, e2), []);
  }

  // ── Retrying a verified payment ───────────────────────────────────────────

  ghost predicate Verifiable(mac: Mac, w: World, v: Verify, row: nat)
  {
    && w.gateway && v.listing in w.listings && w.listings[v.listing].published && w.listings[v.listing].publisher != v.buyer
    && ValidSignature(mac, v)
    && Find(w.rows, v.listing, v.buyer, Completed).None?
    && Find(w.rows, v.listing, v.buyer, Pending) == Some(row)
    && w.rows[row].order == v.order && row !in w.locks
  }

  /** One undisturbed verify call on a paid pending purchase, the marketplace willing, completes it
      exactly when the marketplace row of the pair is not occupied. */
  lemma RetryCompletesIffVacant(mac: Mac, w: World, c: Id, v: Verify, row: nat)
    requires c !in w.callers && Verifiable(mac, w, v, row)
    ensures var w' := Run(mac, w, [VerifyLock(c, v), VerifyInstall(c, Accepted), VerifyComplete(c)]);
      && c in w'.callers
      && (w'.callers[c].Done? && w'.callers[c].reply.Ready? <==> !Occupied(w.slots, v.buyer, v.listing))
      && (Occupied(w.slots, v.buyer, v.listing) ==>
            w'.rows == w.rows && w'.callers[c] == Conflicted(v) && FoldReply(w', v) == Refused(RetryLater))
      && (!Occupied(w.slots, v.buyer, v.listing) ==> row < |w.rows| && SoldTo(w, w', c, v, row))
  {
    ThreeSteps(mac, w, VerifyLock(c, v), VerifyInstall(c, Accepted), VerifyComplete(c));
    RetryLocks(mac, w, c, v, row);
    if Occupied(w.slots, v.buyer, v.listing) {
      OccupiedRetry(w, c, v, row);
    } else {
      VacantRetry(w, c, v, row);
    }
  }

  lemma RetryLocks(mac: Mac, w: World, c: Id, v: Verify, row: nat)
    requires c !in w.callers && Verifiable(mac, w, v, row)
    ensures StepVerifyLock(mac, w, c, v) == Held(w, c, v, row) && row < |w.rows|
  {
    assert VerifyLookup(mac, w, v) == Take(row);
  }

  lemma OccupiedRetry(w: World, c: Id, v: Verify, row: nat)
    requires Occupied(w.slots, v.buyer, v.listing) && Find(w.rows, v.listing, v.buyer, Completed).None?
    ensures var w' := StepVerifyComplete(StepVerifyInstall(Held(w, c, v, row), c, Accepted), c);
      && c in w'.callers && w'.callers[c] == Conflicted(v) && w'.rows == w.rows && FoldReply(w', v) == Refused(RetryLater)
  {
  }

  /** c's verify call has sold the row: it is completed at its own amount and the listing's rate, the count is one up, the
      slot is live, and c is given the slot's id. */
  predicate SoldTo(w: World, w': World, c: Id, v: Verify, row: nat)
    requires row < |w.rows| && v.listing in w.listings
  {
    && (v.buyer, v.listing) in w'.slots && w'.slots[(v.buyer, v.listing)].state == Live
    && var inst := w'.slots[(v.buyer, v.listing)].id;
       && c in w'.callers && w'.callers[c] == Done(Ready(v.listing, v.buyer, v.payment, Some(inst)))
       && row < |w'.rows| && w'.rows[row].status == Completed && w'.rows[row].payment == Some(v.payment)
       && w'.rows[row].installation == Some(inst) && w'.rows[row].amount == w.rows[row].amount
       && v.listing in w'.listings
       && w'.listings[v.listing].installCount == w.listings[v.listing].installCount + 1
       && |w'.sales| == |w.sales| + 1 && w'.sales[|w.sales|].bps == w.listings[v.listing].bps
       && w'.sales[|w.sales|].row == row && w'.sales[|w.sales|].amount == w.rows[row].amount
  }

  lemma VacantRetry(w: World, c: Id, v: Verify, row: nat)
    requires !Occupied(w.slots, v.buyer, v.listing) && row < |w.rows| && row !in w.locks && v.listing in w.listings
    ensures SoldTo(w, StepVerifyComplete(StepVerifyInstall(Held(w, c, v, row), c, Accepted), c), c, v, row)
  {
    var w1 := StepVerifyInstall(Held(w, c, v, row), c, Accepted);
    assert w1.rows == w.rows && w1.sales == w.sales && w1.listings == w.listings;
  }

  /** An install that fails while connecting leaves the marketplace row occupied, so the retry is refused. */
  lemma FailedConnectBlocksRetry(mac: Mac, w: World, c: Id, d: Id, v: Verify, row: nat)
    requires c !in w.callers && d !in w.callers && c != d && Verifiable(mac, w, v, row)
    requires !Occupied(w.slots, v.buyer, v.listing)
    ensures var w1 := StepVerifyInstall(StepVerifyLock(mac, w, c, v), c, ConnectFailed);
      && Verifiable(mac, w1, v, row) && Occupied(w1.slots, v.buyer, v.listing)
      && StepVerifyInstall(StepVerifyLock(mac, w1, d, v), d, Accepted).callers[d] == Conflicted(v)
  {
    assert VerifyLookup(mac, w, v) == Take(row);
    var w0 := StepVerifyLock(mac, w, c, v);
    assert w0 == Held(w, c, v, row);
    var w1 := StepVerifyInstall(w0, c, ConnectFailed);
    assert w1.rows == w.rows && w1.listings == w.listings;
    assert VerifyLookup(mac, w1, v) == Take(row);
  }
}

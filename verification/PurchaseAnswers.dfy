/** What callers are told, and what one undisturbed request leaves behind. */
module PurchaseAnswers {
  import opened Wrappers
  import opened PurchaseProtocol
  import opened PurchaseInvariant
  import opened PurchaseTheorems

  // ── Replays ───────────────────────────────────────────────────────────────

  lemma FindUnique(rows: seq<Purchase>, i: nat, listing: Id, buyer: Id, status: Status)
    requires i < |rows| && Is(rows[i], listing, buyer, status)
    requires forall j :: 0 <= j < |rows| && j != i ==> !Is(rows[j], listing, buyer, status)
    ensures Find(rows, listing, buyer, status) == Some(i)
  {
  }

  /** The completed row of a sale is the only one of its pair, holds its payment and installation, and is not locked. */
  lemma SaleRow(mac: Mac, w: World, k: nat)
    requires Inv(mac, w) && k < |w.sales|
    ensures var s := w.sales[k];
      && s.row < |w.rows| && s.row !in w.locks
      && Find(w.rows, s.listing, s.buyer, Completed) == Some(s.row)
      && w.rows[s.row].payment == Some(s.payment) && w.rows[s.row].installation == Some(s.inst)
      && s.listing in w.listings && w.listings[s.listing].publisher != s.buyer
  {
    var s := w.sales[k];
    assert SaleOk(mac, w, s);
    assert RowOk(w, w.rows[s.row]);
    FindUnique(w.rows, s.row, s.listing, s.buyer, Completed);
  }

  /** A replay of the payment of any sale, in any run, is answered with that sale's installation; another valid payment
      for the pair is told that the listing was bought. */
  lemma ReplayIsAnswered(mac: Mac, w: World, events: seq<Event>, k: nat, c: Id, v: Verify)
    requires Fresh(w) && k < |Run(mac, w, events).sales| && c !in Run(mac, w, events).callers
    requires v.listing == Run(mac, w, events).sales[k].listing && v.buyer == Run(mac, w, events).sales[k].buyer
    requires v.signature == mac(v.order + "|" + v.payment) && Run(mac, w, events).gateway
    requires v.listing in Run(mac, w, events).listings && Run(mac, w, events).listings[v.listing].published
    ensures var s, w' := Run(mac, w, events).sales[k], Step(mac, Run(mac, w, events), VerifyLock(c, v));
      && c in w'.callers
      && (v.payment == s.payment ==> w'.callers[c] == Done(Ready(v.listing, v.buyer, v.payment, Some(s.inst))))
      && (v.payment != s.payment ==> w'.callers[c] == Done(Refused(AlreadyPurchased)))
  {
    FreshInv(mac, w);
    RunInv(mac, w, events);
    ReplayAnswer(mac, Run(mac, w, events), k, c, v);
  }

  lemma ReplayAnswer(mac: Mac, w: World, k: nat, c: Id, v: Verify)
    requires Inv(mac, w) && k < |w.sales| && c !in w.callers && w.gateway
    requires v.listing == w.sales[k].listing && v.buyer == w.sales[k].buyer
    requires v.signature == mac(v.order + "|" + v.payment) && v.listing in w.listings && w.listings[v.listing].published
    ensures var s, w' := w.sales[k], StepVerifyLock(mac, w, c, v);
      && c in w'.callers
      && (v.payment == s.payment ==> w'.callers[c] == Done(Ready(v.listing, v.buyer, v.payment, Some(s.inst))))
      && (v.payment != s.payment ==> w'.callers[c] == Done(Refused(AlreadyPurchased)))
  {
    SaleRow(mac, w, k);
  }

  /** A caller that met a conflict is answered with the rival's installation as soon as the rival has completed with
      the same payment, and is told to retry before, or if the payment was another. */
  lemma FoldIsAnswered(mac: Mac, w: World, events: seq<Event>, c: Id, v: Verify)
    requires Fresh(w) && c in Run(mac, w, events).callers && Run(mac, w, events).callers[c] == Conflicted(v)
    ensures var w1, w2 := Run(mac, w, events), Step(mac, Run(mac, w, events), VerifyFold(c));
      && c in w2.callers && w2.callers[c].Done? && w2.rows == w1.rows
      && (forall k :: 0 <= k < |w1.sales| && w1.sales[k].listing == v.listing && w1.sales[k].buyer == v.buyer ==>
            w2.callers[c].reply == if w1.sales[k].payment == v.payment
                                   then Ready(v.listing, v.buyer, v.payment, Some(w1.sales[k].inst))
                                   else Refused(RetryLater))
      && ((forall k :: 0 <= k < |w1.sales| ==> w1.sales[k].listing != v.listing || w1.sales[k].buyer != v.buyer) ==>
            w2.callers[c].reply == Refused(RetryLater))
  {
    FreshInv(mac, w);
    RunInv(mac, w, events);
    var w1 := Run(mac, w, events);
    assert Step(mac, w1, VerifyFold(c)) == End(w1, c, FoldReply(w1, v));
    FoldAnswer(mac, w1, v);
  }

  lemma FoldAnswer(mac: Mac, w: World, v: Verify)
    requires Inv(mac, w)
    ensures forall k :: 0 <= k < |w.sales| && w.sales[k].listing == v.listing && w.sales[k].buyer == v.buyer ==>
      FoldReply(w, v) == if w.sales[k].payment == v.payment
                         then Ready(v.listing, v.buyer, v.payment, Some(w.sales[k].inst))
                         else Refused(RetryLater)
    ensures (forall k :: 0 <= k < |w.sales| ==> w.sales[k].listing != v.listing || w.sales[k].buyer != v.buyer) ==>
      FoldReply(w, v) == Refused(RetryLater)
  {
    forall k | 0 <= k < |w.sales| && w.sales[k].listing == v.listing && w.sales[k].buyer == v.buyer
      ensures FoldReply(w, v) == if w.sales[k].payment == v.payment
                                 then Ready(v.listing, v.buyer, v.payment, Some(w.sales[k].inst))
                                 else Refused(RetryLater)
    {
      SaleRow(mac, w, k);
    }
    if forall k :: 0 <= k < |w.sales| ==> w.sales[k].listing != v.listing || w.sales[k].buyer != v.buyer {
      NoSaleNoRow(mac, w, v);
    }
  }

  lemma NoSaleNoRow(mac: Mac, w: World, v: Verify)
    requires Inv(mac, w)
    requires forall k :: 0 <= k < |w.sales| ==> w.sales[k].listing != v.listing || w.sales[k].buyer != v.buyer
    ensures FoldReply(w, v) == Refused(RetryLater)
  {
  }

  // ── Why a request is refused ──────────────────────────────────────────────

  predicate OnSale(w: World, listing: Id, buyer: Id)
  {
    listing in w.listings && w.listings[listing].published && w.listings[listing].publisher != buyer
  }

  predicate Bought(w: World, listing: Id, buyer: Id)
  {
    exists i :: 0 <= i < |w.rows| && Is(w.rows[i], listing, buyer, Completed)
  }

  /** An order is minted, for this pair at the listing's price, exactly for a foreign published listing that is not free,
      costs something and is not bought yet, with the gateway configured. */
  lemma OrderExactly(w: World, c: Id, listing: Id, buyer: Id, order: string)
    requires c !in w.callers && order !in w.minted
    ensures var w' := StepOrderGate(w, c, listing, buyer, order);
      && c in w'.callers && (order in w'.minted <==> w'.callers[c].Ordering?)
      && (order in w'.minted <==>
            && OnSale(w, listing, buyer) && !w.listings[listing].free && !Bought(w, listing, buyer)
            && w.gateway && w.listings[listing].price > 0)
      && (order in w'.minted ==>
            && w'.minted[order] == Mint(listing, buyer, w.listings[listing].price)
            && w'.callers[c] == Ordering(listing, buyer, order, w.listings[listing].price))
  {
  }

  predicate OwnOnSale(w: World, listing: Id, buyer: Id)
  {
    listing in w.listings && w.listings[listing].published && w.listings[listing].publisher == buyer
  }

  /** Each reason for which an order request is refused, with its exact condition. */
  lemma OrderRefusalExactly(w: World, listing: Id, buyer: Id)
    ensures var r := OrderRefusal(w, listing, buyer);
      var offered := OnSale(w, listing, buyer) && !w.listings[listing].free;
      && (r == Some(NotAvailable) <==> listing !in w.listings || !w.listings[listing].published)
      && (r == Some(OwnListing) <==> OwnOnSale(w, listing, buyer))
      && (r == Some(IsFree) <==> OnSale(w, listing, buyer) && w.listings[listing].free)
      && (r == Some(AlreadyPurchased) <==> offered && Bought(w, listing, buyer))
      && (r == Some(NoGateway) <==> offered && !Bought(w, listing, buyer) && !w.gateway)
      && (r == Some(BadPrice) <==> offered && !Bought(w, listing, buyer) && w.gateway && w.listings[listing].price <= 0)
  {
  }

  /** A verify call takes a row exactly when everything is in order: the listing on sale, the gateway configured, the
      signature valid, nothing bought yet, and a pending row that nobody holds and whose order is the signed one. */
  lemma VerifyTakesExactly(mac: Mac, w: World, v: Verify)
    ensures VerifyLookup(mac, w, v).Take? <==>
      && OnSale(w, v.listing, v.buyer) && w.gateway && v.signature == mac(v.order + "|" + v.payment)
      && !Bought(w, v.listing, v.buyer)
      && var r := Find(w.rows, v.listing, v.buyer, Pending);
         r.Some? && r.value !in w.locks && w.rows[r.value].order == v.order
    ensures VerifyLookup(mac, w, v).Take? ==>
      Find(w.rows, v.listing, v.buyer, Pending) == Some(VerifyLookup(mac, w, v).row)
  {
  }

  /** Each reason for which a verify call is refused: exact for the checks before the lookup, and afterwards with the
      row that gives cause. */
  lemma VerifyRefusalExactly(mac: Mac, w: World, v: Verify)
    ensures var a := VerifyLookup(mac, w, v);
      && (a == Answer(Refused(NotAvailable)) <==> v.listing !in w.listings || !w.listings[v.listing].published)
      && (a == Answer(Refused(OwnListing)) <==> OwnOnSale(w, v.listing, v.buyer))
      && (a == Answer(Refused(NoGateway)) <==> OnSale(w, v.listing, v.buyer) && !w.gateway)
      && (a == Answer(Refused(BadSignature)) <==>
            OnSale(w, v.listing, v.buyer) && w.gateway && v.signature != mac(v.order + "|" + v.payment))
      && (a == Answer(Refused(AlreadyPurchased)) ==> Bought(w, v.listing, v.buyer))
      && (a == Answer(Refused(NoPendingPurchase)) <==>
            && OnSale(w, v.listing, v.buyer) && w.gateway && v.signature == mac(v.order + "|" + v.payment)
            && !Bought(w, v.listing, v.buyer)
            && forall i :: 0 <= i < |w.rows| ==> !Is(w.rows[i], v.listing, v.buyer, Pending))
      && (a == Answer(Refused(WrongOrder)) ==>
            exists i :: 0 <= i < |w.rows| && Is(w.rows[i], v.listing, v.buyer, Pending) && w.rows[i].order != v.order)
      && (a.Answer? && a.reply.Refused? ==>
            a.reply.reason in {NotAvailable, OwnListing, NoGateway, BadSignature, AlreadyPurchased, NoPendingPurchase, WrongOrder})
  {
  }

  /** Each reason for which a direct install is refused, with its exact condition, and when it needs no purchase. */
  lemma DirectRefusalExactly(w: World, listing: Id, buyer: Id)
    ensures var a := DirectClearance(w, listing, buyer);
      && (a == Deny(NotAvailable) <==> listing !in w.listings || !w.listings[listing].published)
      && (a == Deny(OwnListing) <==> OwnOnSale(w, listing, buyer))
      && (a == Deny(PaymentRequired) <==>
            OnSale(w, listing, buyer) && !w.listings[listing].free && !Bought(w, listing, buyer))
      && (a == Clear(None) <==> OnSale(w, listing, buyer) && w.listings[listing].free)
  {
  }

  /** Whoever needs a row that another caller holds waits, and changes nothing. */
  lemma LockedRowsWait(mac: Mac, w: World, c: Id, v: Verify)
    ensures c in w.callers && w.callers[c].Ordering? ==>
      var r := Find(w.rows, w.callers[c].listing, w.callers[c].buyer, Pending);
      r.Some? && r.value in w.locks ==> StepOrderCommit(w, c) == w
    ensures c in w.callers && w.callers[c].Installed? && w.callers[c].row in w.locks ==> StepVerifyComplete(w, c) == w
    ensures c in w.callers && w.callers[c].Placed? && w.callers[c].purchase.Some? && w.callers[c].purchase.value in w.locks ==>
      StepDirectFinish(w, c) == w
    ensures c !in w.callers && OnSale(w, v.listing, v.buyer) && w.gateway && ValidSignature(mac, v) ==>
      var held := Find(w.rows, v.listing, v.buyer, if Bought(w, v.listing, v.buyer) then Completed else Pending);
      held.Some? && held.value in w.locks ==> StepVerifyLock(mac, w, c, v) == w
  {
  }

  /** A caller that dies leaves rows, slots and counts as its last commit left them, and every row it held is free. */
  lemma CrashFreesTheRow(w: World, c: Id)
    requires c in w.callers && !w.callers[c].Done?
    ensures var w' := StepCrash(w, c);
      && w' == w.(callers := w.callers[c := Done(Refused(Lost))], locks := w'.locks)
      && (forall row :: row in w'.locks <==> row in w.locks && w.locks[row] != c)
      && (forall row :: row in w'.locks ==> w'.locks[row] == w.locks[row])
  {
  }

  /** What a caller was verifying when it died can be verified again by the next one. */
  lemma CrashedIsTakeable(mac: Mac, w: World, c: Id)
    requires Inv(mac, w) && c in w.callers && w.callers[c].Locked?
    requires OnSale(w, w.callers[c].v.listing, w.callers[c].v.buyer) && w.gateway
    ensures VerifyLookup(mac, StepCrash(w, c), w.callers[c].v) == Take(w.callers[c].row)
  {
    assert PhaseOk(mac, w, c, w.callers[c]);
    CrashFreesTheRow(w, c);
    TakesAgain(mac, w, StepCrash(w, c), w.callers[c].v, w.callers[c].row);
  }

  lemma TakesAgain(mac: Mac, w: World, w': World, v: Verify, row: nat)
    requires RowsOk(w) && w'.rows == w.rows && w'.listings == w.listings && w'.gateway && OnSale(w, v.listing, v.buyer)
    requires row < |w.rows| && Is(w.rows[row], v.listing, v.buyer, Pending) && w.rows[row].order == v.order
    requires NoneCompleted(w.rows, v.listing, v.buyer) && row !in w'.locks && ValidSignature(mac, v)
    ensures VerifyLookup(mac, w', v) == Take(row)
  {
    FindUnique(w.rows, row, v.listing, v.buyer, Pending);
  }

  /** An edit sets what it is given, keeps the publisher and the count, and touches no other listing and nothing else. */
  lemma EditExactly(w: World, listing: Id, bps: int, published: bool, free: bool, price: int)
    requires listing in w.listings
    ensures var w' := StepEdit(w, listing, bps, published, free, price);
      && w' == w.(listings := w'.listings) && w'.listings.Keys == w.listings.Keys
      && (forall l :: l in w.listings && l != listing ==> w'.listings[l] == w.listings[l])
      && var m := w'.listings[listing];
         && m.bps == bps && m.published == published && m.free == free && m.price == price
         && m.publisher == w.listings[listing].publisher && m.installCount == w.listings[listing].installCount
  {
  }

  // ── What an undisturbed request leaves behind ─────────────────────────────

  /** Committing an order leaves a pending row of the pair with that order at the price it was minted at; it replaces the
      pair's pending row if there is one, and touches no other. */
  lemma OrderIsRecorded(mac: Mac, w: World, c: Id)
    requires Inv(mac, w) && c in w.callers && w.callers[c].Ordering?
    requires forall i :: i in w.locks ==> i < |w.rows| && !Is(w.rows[i], w.callers[c].listing, w.callers[c].buyer, Pending)
    ensures var p, w' := w.callers[c], StepOrderCommit(w, c);
      && c in w'.callers && w'.callers[c] == Done(OrderCreated)
      && var r := Find(w.rows, p.listing, p.buyer, Pending);
         && |w'.rows| == |w.rows| + (if r.Some? then 0 else 1)
         && (forall i :: 0 <= i < |w.rows| && Some(i) != r ==> w'.rows[i] == w.rows[i])
         && var row := w'.rows[if r.Some? then r.value else |w.rows|];
            row == Purchase(p.listing, p.buyer, Pending, p.order, None, w.minted[p.order].amount,
                            row.publisherShare, row.platformShare, None)
  {
    assert PhaseOk(mac, w, c, w.callers[c]);
    var r := Find(w.rows, w.callers[c].listing, w.callers[c].buyer, Pending);
    if r.Some? {
      assert RowOk(w, w.rows[r.value]);
    }
  }

  /** An install that the marketplace rejects leaves rows, slots and counts as they were and the lock free: the verified
      payment can be presented again. */
  lemma RejectedIsRetryable(mac: Mac, w: World, c: Id, v: Verify, row: nat)
    requires c !in w.callers && Verifiable(mac, w, v, row) && !Occupied(w.slots, v.buyer, v.listing)
    requires forall r :: r in w.locks ==> w.locks[r] != c
    ensures var w1 := StepVerifyInstall(StepVerifyLock(mac, w, c, v), c, Rejected);
      && w1.callers == w.callers[c := Done(Refused(InstallFailed))]
      && w1.rows == w.rows && w1.slots == w.slots && w1.locks == w.locks && w1.listings == w.listings
      && Verifiable(mac, w1, v, row)
  {
    VerifyTakesExactly(mac, w, v);
    assert StepVerifyLock(mac, w, c, v) == Held(w, c, v, row);
    var w1 := StepVerifyInstall(Held(w, c, v, row), c, Rejected);
    assert w1.locks == w.locks;
  }

  /** An undisturbed direct install: exactly if the pair's slot is vacant it goes live, the count goes up by one and the
      caller is given the slot's id; otherwise nothing changes. */
  lemma DirectInstallExactly(w: World, c: Id, p: Phase)
    requires c in w.callers && w.callers[c] == p && p.Cleared? && p.listing in w.listings
    requires p.purchase.Some? ==> p.purchase.value < |w.rows| && p.purchase.value !in w.locks
    ensures var w' := StepDirectFinish(StepDirectInstall(w, c, Accepted), c);
      && c in w'.callers && w'.callers[c].Done?
      && (Occupied(w.slots, p.buyer, p.listing) ==>
            w'.callers[c].reply == Refused(AlreadyInstalled) && w'.slots == w.slots && w'.listings == w.listings
            && w'.rows == w.rows)
      && (!Occupied(w.slots, p.buyer, p.listing) ==>
            && (p.buyer, p.listing) in w'.slots && w'.slots[(p.buyer, p.listing)].state == Live
            && w'.callers[c].reply == DirectlyInstalled(w'.slots[(p.buyer, p.listing)].id)
            && w'.listings[p.listing].installCount == w.listings[p.listing].installCount + 1
            && (p.purchase.Some? ==>
                  w'.rows[p.purchase.value].installation == Some(w'.slots[(p.buyer, p.listing)].id)))
  {
    var w1 := StepDirectInstall(w, c, Accepted);
    if !Occupied(w.slots, p.buyer, p.listing) {
      assert w1.callers[c] == Placed(p.listing, p.buyer, p.purchase, Written(w.slots, p.buyer, p.listing, Live).id);
    } else {
      assert w1 == End(w, c, Refused(AlreadyInstalled));
    }
  }

  /** Uninstalling frees an occupied slot, unless a verify call of the pair is about to complete; installing again, here
      or through the marketplace, revives the slot under its old id. */
  lemma SlotsAreRevived(w: World, listing: Id, buyer: Id)
    requires Occupied(w.slots, buyer, listing)
    ensures var w1 := StepUninstall(w, listing, buyer);
      && (Occupied(w1.slots, buyer, listing) <==> Completing(w, listing, buyer))
      && (!Completing(w, listing, buyer) ==>
            var w2 := StepMarketInstall(w1, listing, buyer);
            Occupied(w2.slots, buyer, listing) && w2.slots[(buyer, listing)] == Slot(w.slots[(buyer, listing)].id, Live))
  {
  }
}

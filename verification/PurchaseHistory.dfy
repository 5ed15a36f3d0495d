/** Where the installs and sales of a run come from: each is traced back to the events that caused it. */
module PurchaseHistory {
  import opened Wrappers
  import opened PurchaseProtocol
  import opened PurchaseInvariant
  import opened PurchaseTheorems

  /** The world before event n. */
  function At(mac: Mac, w: World, events: seq<Event>, n: nat): World
    requires n <= |events|
  {
    Run(mac, w, events[..n])
  }

  lemma AtNext(mac: Mac, w: World, events: seq<Event>, n: nat)
    requires n < |events|
    ensures At(mac, w, events, n + 1) == Step(mac, At(mac, w, events, n), events[n])
  {
    assert events[..n + 1] == events[..n] + [events[n]];
    RunAppend(mac, w, events[..n], [events[n]]);
    assert [events[n]][1..] == [];
  }

  lemma AtInv(mac: Mac, w: World, events: seq<Event>, n: nat)
    requires Fresh(w) && n <= |events|
    ensures Inv(mac, At(mac, w, events, n))
  {
    FreshInv(mac, w);
    RunInv(mac, w, events[..n]);
  }

  lemma AtStart(mac: Mac, w: World, events: seq<Event>)
    ensures At(mac, w, events, 0) == w
  {
    assert events[..0] == [];
  }

  // ── What one step moves ───────────────────────────────────────────────────

  function Caller(e: Event): Option<Id>
  {
    match e
    case Uninstall(_, _) => None
    case MarketInstall(_, _) => None
    case EditListing(_, _, _, _, _) => None
    case _ => Some(e.c)
  }

  /** Caller c is where it was. */
  predicate Same(w: World, w': World, c: Id)
  {
    (c in w.callers <==> c in w'.callers) && (c in w.callers ==> w'.callers[c] == w.callers[c])
  }

  /** How an event of caller c can bring it into phase p. */
  predicate Enters(mac: Mac, w: World, e: Event, c: Id, p: Phase)
  {
    && Caller(e) == Some(c)
    && (c in w.callers ==> !w.callers[c].Done? && (w.callers[c].Installed? ==> p.Done?))
    && (p.Locked? ==> e == VerifyLock(c, p.v) && VerifyLookup(mac, w, p.v) == Take(p.row))
    && (p.Installed? ==> e == VerifyInstall(c, Accepted) && c in w.callers && w.callers[c] == Locked(p.v, p.row))
    && (p.Cleared? ==> && c !in w.callers && e == DirectGate(c, p.listing, p.buyer)
                       && DirectClearance(w, p.listing, p.buyer) == Clear(p.purchase))
  }

  predicate CallerMoves(mac: Mac, w: World, e: Event, w': World, c: Id)
  {
    Same(w, w', c) || (c in w'.callers && Enters(mac, w, e, c, w'.callers[c]))
  }

  function CauseOf(p: Phase): Cause
    requires p.Cleared?
  {
    if p.purchase.Some? then ByPurchase(p.purchase.value) else BySawFree
  }

  /** At most one placement is added, by an install step. */
  predicate PlacementsMove(w: World, e: Event, w': World)
  {
    || w'.placements == w.placements
    || (e.VerifyInstall? && e.c in w.callers && w.callers[e.c].Locked?
        && var v := w.callers[e.c].v; w'.placements == w.placements + [Placement(v.listing, v.buyer, ByVerify(v))])
    || (e.DirectInstall? && e.outcome == Accepted && e.c in w.callers && w.callers[e.c].Cleared?
        && var p := w.callers[e.c]; w'.placements == w.placements + [Placement(p.listing, p.buyer, CauseOf(p))])
  }

  predicate SalesMove(w: World, e: Event, w': World)
  {
    || w'.sales == w.sales
    || (e.VerifyComplete? && e.c in w.callers && w.callers[e.c].Installed?
        && var p := w.callers[e.c]; p.row < |w.rows| && w'.sales == w.sales + [SaleOf(w, p.v, p.row, p.inst)])
  }

  predicate FreeNow(w: World, listing: Id)
  {
    listing in w.listings && w.listings[listing].free
  }

  predicate EditsToPaid(e: Event, listing: Id)
  {
    e.EditListing? && e.listing == listing && !e.free
  }

  ghost predicate FreeMoves(w: World, e: Event, w': World)
  {
    forall l :: FreeNow(w, l) ==> FreeNow(w', l) || EditsToPaid(e, l)
  }

  ghost predicate Moves(mac: Mac, w: World, e: Event, w': World, c: Id)
  {
    CallerMoves(mac, w, e, w', c) && PlacementsMove(w, e, w') && SalesMove(w, e, w') && FreeMoves(w, e, w')
  }

  lemma OrderGateMoves(mac: Mac, w: World, e: Event, c: Id)
    requires e.OrderGate?
    ensures Moves(mac, w, e, StepOrderGate(w, e.c, e.listing, e.buyer, e.order), c)
  {
  }

  lemma OrderCommitMoves(mac: Mac, w: World, e: Event, c: Id)
    requires e.OrderCommit?
    ensures Moves(mac, w, e, StepOrderCommit(w, e.c), c)
  {
  }

  lemma VerifyLockMoves(mac: Mac, w: World, e: Event, c: Id)
    requires e.VerifyLock?
    ensures Moves(mac, w, e, StepVerifyLock(mac, w, e.c, e.v), c)
  {
  }

  lemma VerifyInstallMoves(mac: Mac, w: World, e: Event, c: Id)
    requires e.VerifyInstall?
    ensures Moves(mac, w, e, StepVerifyInstall(w, e.c, e.outcome), c)
  {
    VerifyInstallCaller(mac, w, e, c);
    VerifyInstallRest(w, e);
  }

  lemma VerifyInstallCaller(mac: Mac, w: World, e: Event, c: Id)
    requires e.VerifyInstall?
    ensures CallerMoves(mac, w, e, StepVerifyInstall(w, e.c, e.outcome), c)
  {
    VerifyInstallPhase(w, e.c, e.outcome);
  }

  lemma VerifyInstallPhase(w: World, d: Id, outcome: Outcome)
    ensures var after := StepVerifyInstall(w, d, outcome).callers;
      after == w.callers ||
      (&& d in w.callers && w.callers[d].Locked? && d in after && after == w.callers[d := after[d]]
       && var p := after[d];
          p.Done? || p.Conflicted?
          || (p.Installed? && outcome == Accepted && w.callers[d] == Locked(p.v, p.row)))
  {
  }

  lemma VerifyInstallRest(w: World, e: Event)
    requires e.VerifyInstall?
    ensures var w' := StepVerifyInstall(w, e.c, e.outcome);
      PlacementsMove(w, e, w') && w'.sales == w.sales && w'.listings == w.listings
  {
  }

  lemma VerifyCompleteMoves(mac: Mac, w: World, e: Event, c: Id)
    requires e.VerifyComplete?
    ensures Moves(mac, w, e, StepVerifyComplete(w, e.c), c)
  {
  }

  lemma VerifyFoldMoves(mac: Mac, w: World, e: Event, c: Id)
    requires e.VerifyFold?
    ensures Moves(mac, w, e, StepVerifyFold(w, e.c), c)
  {
  }

  lemma DirectGateMoves(mac: Mac, w: World, e: Event, c: Id)
    requires e.DirectGate?
    ensures Moves(mac, w, e, StepDirectGate(w, e.c, e.listing, e.buyer), c)
  {
  }

  lemma DirectInstallMoves(mac: Mac, w: World, e: Event, c: Id)
    requires e.DirectInstall?
    ensures Moves(mac, w, e, StepDirectInstall(w, e.c, e.outcome), c)
  {
    DirectInstallCaller(mac, w, e, c);
    DirectInstallRest(w, e);
  }

  lemma DirectInstallCaller(mac: Mac, w: World, e: Event, c: Id)
    requires e.DirectInstall?
    ensures CallerMoves(mac, w, e, StepDirectInstall(w, e.c, e.outcome), c)
  {
    DirectInstallPhase(w, e.c, e.outcome);
  }

  lemma DirectInstallPhase(w: World, d: Id, outcome: Outcome)
    ensures var after := StepDirectInstall(w, d, outcome).callers;
      after == w.callers ||
      (&& d in w.callers && w.callers[d].Cleared? && d in after && after == w.callers[d := after[d]]
       && (after[d].Done? || after[d].Placed?))
  {
  }

  lemma DirectInstallRest(w: World, e: Event)
    requires e.DirectInstall?
    ensures var w' := StepDirectInstall(w, e.c, e.outcome);
      PlacementsMove(w, e, w') && w'.sales == w.sales && w'.listings == w.listings
  {
  }

  lemma DirectFinishMoves(mac: Mac, w: World, e: Event, c: Id)
    requires e.DirectFinish?
    ensures Moves(mac, w, e, StepDirectFinish(w, e.c), c)
  {
  }

  lemma AdminMoves(mac: Mac, w: World, e: Event, c: Id)
    requires e.Crash? || Caller(e).None?
    ensures Moves(mac, w, e, Step(mac, w, e), c)
  {
    match e
    case Crash(d) => assert Moves(mac, w, e, StepCrash(w, d), c);
    case Uninstall(l, b) => assert Moves(mac, w, e, StepUninstall(w, l, b), c);
    case MarketInstall(l, b) => assert Moves(mac, w, e, StepMarketInstall(w, l, b), c);
    case EditListing(l, bps, published, free, price) =>
      assert Moves(mac, w, e, StepEdit(w, l, bps, published, free, price), c);
  }

  lemma StepMoves(mac: Mac, w: World, e: Event, c: Id)
    ensures Moves(mac, w, e, Step(mac, w, e), c)
  {
    match e
    case OrderGate(_, _, _, _) => OrderGateMoves(mac, w, e, c);
    case OrderCommit(_) => OrderCommitMoves(mac, w, e, c);
    case VerifyLock(_, _) => VerifyLockMoves(mac, w, e, c);
    case VerifyInstall(_, _) => VerifyInstallMoves(mac, w, e, c);
    case VerifyComplete(_) => VerifyCompleteMoves(mac, w, e, c);
    case VerifyFold(_) => VerifyFoldMoves(mac, w, e, c);
    case DirectGate(_, _, _) => DirectGateMoves(mac, w, e, c);
    case DirectInstall(_, _) => DirectInstallMoves(mac, w, e, c);
    case DirectFinish(_) => DirectFinishMoves(mac, w, e, c);
    case _ => AdminMoves(mac, w, e, c);
  }

  lemma AtMoves(mac: Mac, w: World, events: seq<Event>, n: nat, c: Id)
    requires n < |events|
    ensures Moves(mac, At(mac, w, events, n), events[n], At(mac, w, events, n + 1), c)
  {
    AtNext(mac, w, events, n);
    StepMoves(mac, At(mac, w, events, n), events[n], c);
  }

  // ── What a gate saw ───────────────────────────────────────────────────────

  /** Event m is c's gate for this pair, and the listing was free and published then. */
  predicate GateSaw(mac: Mac, w: World, events: seq<Event>, m: nat, c: Id, listing: Id, buyer: Id)
  {
    && m < |events| && events[m] == DirectGate(c, listing, buyer)
    && var v := At(mac, w, events, m);
       c !in v.callers && FreeNow(v, listing) && v.listings[listing].published && v.listings[listing].publisher != buyer
  }

  /** Whoever is cleared without a purchase passed a gate that saw the listing free. */
  lemma {:induction false} ClearedSawFree(mac: Mac, w: World, events: seq<Event>, n: nat, c: Id, listing: Id, buyer: Id)
    returns (m: nat)
    requires Fresh(w) && n <= |events| && c in At(mac, w, events, n).callers
    requires At(mac, w, events, n).callers[c] == Cleared(listing, buyer, None)
    ensures m < n && GateSaw(mac, w, events, m, c, listing, buyer)
  {
    AtStart(mac, w, events);
    if n == 0 {
      assert false;
    } else {
      AtMoves(mac, w, events, n - 1, c);
      if Same(At(mac, w, events, n - 1), At(mac, w, events, n), c) {
        m := ClearedSawFree(mac, w, events, n - 1, c, listing, buyer);
      } else {
        m := n - 1;
      }
    }
  }

  /** And whoever is still cleared after such a gate is cleared without a purchase. */
  lemma {:induction false} SawFreeIsCleared(mac: Mac, w: World, events: seq<Event>, m: nat, n: nat, c: Id, listing: Id, buyer: Id)
    requires m < n <= |events| && GateSaw(mac, w, events, m, c, listing, buyer)
    ensures c in At(mac, w, events, n).callers
    ensures At(mac, w, events, n).callers[c].Cleared? ==> At(mac, w, events, n).callers[c] == Cleared(listing, buyer, None)
    decreases n
  {
    if n - 1 > m {
      SawFreeIsCleared(mac, w, events, m, n - 1, c, listing, buyer);
      AtMoves(mac, w, events, n - 1, c);
    } else {
      AtNext(mac, w, events, m);
      GateClears(At(mac, w, events, m), c, listing, buyer);
    }
  }

  lemma GateClears(w: World, c: Id, listing: Id, buyer: Id)
    requires c !in w.callers && FreeNow(w, listing)
    requires w.listings[listing].published && w.listings[listing].publisher != buyer
    ensures var w' := StepDirectGate(w, c, listing, buyer);
      c in w'.callers && w'.callers[c] == Cleared(listing, buyer, None)
  {
  }

  lemma {:induction false} EditBetween(mac: Mac, w: World, events: seq<Event>, m: nat, n: nat, listing: Id) returns (j: nat)
    requires m <= n <= |events| && FreeNow(At(mac, w, events, m), listing) && !FreeNow(At(mac, w, events, n), listing)
    ensures m <= j < n && EditsToPaid(events[j], listing)
    decreases n
  {
    if FreeNow(At(mac, w, events, n - 1), listing) {
      AtMoves(mac, w, events, n - 1, 0);
      j := n - 1;
    } else {
      j := EditBetween(mac, w, events, m, n - 1, listing);
    }
  }

  // ── What was presented ────────────────────────────────────────────────────

  /** Event j presents a payment for this pair: its signature checks out, and its order had been minted here for
      this very listing and buyer. */
  ghost predicate Presented(mac: Mac, w: World, events: seq<Event>, j: nat, listing: Id, buyer: Id)
  {
    && j < |events| && events[j].VerifyLock? && events[j].v.listing == listing && events[j].v.buyer == buyer
    && ValidSignature(mac, events[j].v) && MintedFor(At(mac, w, events, j), events[j].v.order, listing, buyer)
  }

  lemma {:induction false} LockedWasPresented(mac: Mac, w: World, events: seq<Event>, n: nat, c: Id) returns (j: nat)
    requires Fresh(w) && n <= |events| && c in At(mac, w, events, n).callers && At(mac, w, events, n).callers[c].Locked?
    ensures var v := At(mac, w, events, n).callers[c].v;
      j < n && events[j] == VerifyLock(c, v) && Presented(mac, w, events, j, v.listing, v.buyer)
  {
    AtStart(mac, w, events);
    if n == 0 {
      assert false;
    } else {
      AtMoves(mac, w, events, n - 1, c);
      if Same(At(mac, w, events, n - 1), At(mac, w, events, n), c) {
        j := LockedWasPresented(mac, w, events, n - 1, c);
      } else {
        j := n - 1;
        AtInv(mac, w, events, n - 1);
        TakenIsMinted(mac, At(mac, w, events, n - 1), events[n - 1].v);
      }
    }
  }

  lemma TakenIsMinted(mac: Mac, w: World, v: Verify)
    requires Inv(mac, w) && VerifyLookup(mac, w, v).Take?
    ensures ValidSignature(mac, v) && MintedFor(w, v.order, v.listing, v.buyer)
  {
    assert RowOk(w, w.rows[VerifyLookup(mac, w, v).row]);
  }

  lemma {:induction false} InstalledWasPresented(mac: Mac, w: World, events: seq<Event>, n: nat, c: Id) returns (j: nat)
    requires Fresh(w) && n <= |events| && c in At(mac, w, events, n).callers && At(mac, w, events, n).callers[c].Installed?
    ensures var v := At(mac, w, events, n).callers[c].v;
      j < n && events[j] == VerifyLock(c, v) && Presented(mac, w, events, j, v.listing, v.buyer)
  {
    AtStart(mac, w, events);
    if n == 0 {
      assert false;
    } else {
      AtMoves(mac, w, events, n - 1, c);
      if Same(At(mac, w, events, n - 1), At(mac, w, events, n), c) {
        j := InstalledWasPresented(mac, w, events, n - 1, c);
      } else {
        j := LockedWasPresented(mac, w, events, n - 1, c);
      }
    }
  }

  /** Every sale was presented as a payment. */
  lemma {:induction false} SaleWasPresented(mac: Mac, w: World, events: seq<Event>, n: nat, k: nat) returns (j: nat)
    requires Fresh(w) && n <= |events| && k < |At(mac, w, events, n).sales|
    ensures var s := At(mac, w, events, n).sales[k]; j < n && Presented(mac, w, events, j, s.listing, s.buyer)
  {
    AtStart(mac, w, events);
    if n == 0 {
      assert false;
    } else {
      AtMoves(mac, w, events, n - 1, 0);
      if k < |At(mac, w, events, n - 1).sales| {
        j := SaleWasPresented(mac, w, events, n - 1, k);
      } else {
        j := InstalledWasPresented(mac, w, events, n - 1, events[n - 1].c);
      }
    }
  }

  // ── Every install is backed ───────────────────────────────────────────────

  ghost predicate WasPaid(mac: Mac, w: World, events: seq<Event>, n: nat, listing: Id, buyer: Id)
  {
    exists j :: 0 <= j < n && Presented(mac, w, events, j, listing, buyer)
  }

  ghost predicate SawFree(mac: Mac, w: World, events: seq<Event>, n: nat, listing: Id, buyer: Id)
  {
    n < |events| && events[n].DirectInstall? &&
    exists m :: 0 <= m < n && GateSaw(mac, w, events, m, events[n].c, listing, buyer)
  }

  /** Event n is the install that the k-th placement records. */
  predicate Places(mac: Mac, w: World, events: seq<Event>, n: nat, k: nat)
  {
    && n < |events| && |At(mac, w, events, n).placements| == k
    && |At(mac, w, events, n + 1).placements| == k + 1
  }

  /** Every placement has the event that made it, and keeps its entry. */
  lemma {:induction false} PlacedBy(mac: Mac, w: World, events: seq<Event>, n: nat, k: nat) returns (i: nat)
    requires Fresh(w) && n <= |events| && k < |At(mac, w, events, n).placements|
    ensures i < n && Places(mac, w, events, i, k)
    ensures At(mac, w, events, i + 1).placements[k] == At(mac, w, events, n).placements[k]
  {
    AtStart(mac, w, events);
    if n == 0 {
      assert false;
    } else {
      AtMoves(mac, w, events, n - 1, 0);
      if k < |At(mac, w, events, n - 1).placements| {
        i := PlacedBy(mac, w, events, n - 1, k);
      } else {
        i := n - 1;
      }
    }
  }

  lemma PurchaseWasPaid(mac: Mac, w: World, events: seq<Event>, n: nat, row: nat)
    requires Fresh(w) && n <= |events| && row < |At(mac, w, events, n).rows|
    requires At(mac, w, events, n).rows[row].status == Completed
    ensures var p := At(mac, w, events, n).rows[row]; WasPaid(mac, w, events, n, p.listing, p.buyer)
  {
    var v := At(mac, w, events, n);
    AtInv(mac, w, events, n);
    var k :| 0 <= k < |v.sales| && v.sales[k].row == row;
    assert SaleOk(mac, v, v.sales[k]);
    var j := SaleWasPresented(mac, w, events, n, k);
  }

  /** Every install the store ever triggers for a pair comes after an event that presented a signed payment over an order
      minted for that very pair, or its own gate saw the listing free; and nobody installs their own listing. */
  lemma InstallsAreBacked(mac: Mac, w: World, events: seq<Event>, k: nat) returns (n: nat)
    requires Fresh(w) && k < |Run(mac, w, events).placements|
    ensures Places(mac, w, events, n, k)
    ensures var p := Run(mac, w, events).placements[k];
      && (WasPaid(mac, w, events, n, p.listing, p.buyer) || SawFree(mac, w, events, n, p.listing, p.buyer))
      && ForeignBuyer(At(mac, w, events, n), p.listing, p.buyer)
  {
    assert events[..|events|] == events;
    n := PlacedBy(mac, w, events, |events|, k);
    var v, e := At(mac, w, events, n), events[n];
    AtMoves(mac, w, events, n, 0);
    AtInv(mac, w, events, n);
    assert PhaseOk(mac, v, e.c, v.callers[e.c]);
    if e.VerifyInstall? {
      var j := LockedWasPresented(mac, w, events, n, e.c);
    } else if v.callers[e.c].purchase.Some? {
      PurchaseWasPaid(mac, w, events, n, v.callers[e.c].purchase.value);
    } else {
      var m := ClearedSawFree(mac, w, events, n, e.c, v.callers[e.c].listing, v.callers[e.c].buyer);
    }
  }

  /** The event is a direct install that goes through for this pair. */
  predicate InstallsDirectly(w: World, e: Event, listing: Id, buyer: Id)
  {
    && e.DirectInstall? && e.outcome == Accepted && e.c in w.callers && w.callers[e.c].Cleared?
    && w.callers[e.c].listing == listing && w.callers[e.c].buyer == buyer && !Occupied(w.slots, buyer, listing)
  }

  /** A direct install of a listing that is paid at that moment goes without a payment exactly when the caller's gate saw
      the listing free and the publisher made it paid between gate and install. */
  lemma UnpaidInstallExactly(mac: Mac, w: World, events: seq<Event>, n: nat, listing: Id, buyer: Id)
    requires Fresh(w) && n < |events| && InstallsDirectly(At(mac, w, events, n), events[n], listing, buyer)
    requires !FreeNow(At(mac, w, events, n), listing)
    ensures var w' := At(mac, w, events, n + 1);
      && |w'.placements| > 0
      && (!Backed(mac, w', w'.placements[|w'.placements| - 1]) <==>
            exists m, j :: 0 <= m < j < n && GateSaw(mac, w, events, m, events[n].c, listing, buyer)
                        && EditsToPaid(events[j], listing))
      && (Backed(mac, w', w'.placements[|w'.placements| - 1]) ==> WasPaid(mac, w, events, n, listing, buyer))
  {
    var v, c := At(mac, w, events, n), events[n].c;
    var w' := At(mac, w, events, n + 1);
    AtNext(mac, w, events, n);
    DirectPlaces(v, c, v.callers[c]);
    AtInv(mac, w, events, n + 1);
    if v.callers[c].purchase.Some? {
      PurchaseBacks(mac, w', |w'.placements| - 1);
      AtInv(mac, w, events, n);
      assert PhaseOk(mac, v, c, v.callers[c]);
      PurchaseWasPaid(mac, w, events, n, v.callers[c].purchase.value);
      forall m | 0 <= m < n ensures !GateSaw(mac, w, events, m, c, listing, buyer) {
        if GateSaw(mac, w, events, m, c, listing, buyer) {
          SawFreeIsCleared(mac, w, events, m, n, c, listing, buyer);
        }
      }
    } else {
      var m := ClearedSawFree(mac, w, events, n, c, listing, buyer);
      var j := EditBetween(mac, w, events, m, n, listing);
      assert j != m;
    }
  }

  lemma DirectPlaces(w: World, c: Id, p: Phase)
    requires c in w.callers && w.callers[c] == p && p.Cleared? && !Occupied(w.slots, p.buyer, p.listing)
    ensures StepDirectInstall(w, c, Accepted).placements == w.placements + [Placement(p.listing, p.buyer, CauseOf(p))]
  {
  }

  lemma PurchaseBacks(mac: Mac, w: World, k: nat)
    requires Inv(mac, w) && k < |w.placements| && w.placements[k].cause.ByPurchase?
    ensures Backed(mac, w, w.placements[k])
  {
    var p := w.placements[k];
    assert PlacementOk(mac, w, p);
    var j :| 0 <= j < |w.sales| && w.sales[j].row == p.cause.row;
    assert SaleOk(mac, w, w.sales[j]) && RowOk(w, w.rows[p.cause.row]);
  }

  // ── What is booked ────────────────────────────────────────────────────────

  /** The order that this event writes into the row, if it is a commit of an order for the row's pair. */
  function Reordered(w: World, e: Event, row: nat): Option<string>
  {
    if e.OrderCommit? && e.c in w.callers && w.callers[e.c].Ordering? && row !in w.locks
       && Find(w.rows, w.callers[e.c].listing, w.callers[e.c].buyer, Pending) == Some(row)
    then Some(w.callers[e.c].order) else None
  }

  /** The last order written into the row by the events from..upto, or this one. */
  function LastOrder(mac: Mac, w: World, events: seq<Event>, from: nat, upto: nat, row: nat, order: string): string
    requires from <= upto <= |events|
    decreases upto
  {
    if from == upto then order
    else
      var r := Reordered(At(mac, w, events, upto - 1), events[upto - 1], row);
      if r.Some? then r.value else LastOrder(mac, w, events, from, upto - 1, row, order)
  }

  lemma CommitKeepsOrder(w: World, c: Id, row: nat)
    requires row < |w.rows|
    ensures var r := Reordered(w, OrderCommit(c), row); var w' := StepOrderCommit(w, c);
      row < |w'.rows| && w'.rows[row].order == if r.Some? then r.value else w.rows[row].order
  {
    if c in w.callers && w.callers[c].Ordering? {
      var p := w.callers[c];
      match Find(w.rows, p.listing, p.buyer, Pending)
      case Some(i) =>
        if i !in w.locks {
          assert StepOrderCommit(w, c).rows == w.rows[i := w.rows[i].(order := p.order, amount := p.amount)];
        }
      case None =>
        assert StepOrderCommit(w, c).rows == Opened(w, p.listing, p.buyer, p.order, p.amount).rows;
    }
  }

  lemma CompletionKeepsOrder(mac: Mac, w: World, c: Id, d: Id)
    requires Inv(mac, w) && c in w.callers && w.callers[c].Installed? && c != d
    ensures var row := w.callers[c].row; row < |w.rows| && StepVerifyComplete(w, d).rows[..][row] == w.rows[row]
  {
    assert PhaseOk(mac, w, c, w.callers[c]);
    if d in w.callers && w.callers[d].Installed? {
      assert PhaseOk(mac, w, d, w.callers[d]);
    }
  }

  /** While a verify call waits to complete, only an order commit for its pair changes the order of its row. */
  lemma StepOrderOfRow(mac: Mac, w: World, e: Event, c: Id)
    requires Inv(mac, w) && c in w.callers && w.callers[c].Installed? && Same(w, Step(mac, w, e), c)
    ensures var row := w.callers[c].row; var r := Reordered(w, e, row); var w' := Step(mac, w, e);
      row < |w.rows| && row < |w'.rows| && w'.rows[row].order == if r.Some? then r.value else w.rows[row].order
  {
    assert PhaseOk(mac, w, c, w.callers[c]);
    match e
    case OrderCommit(d) => CommitKeepsOrder(w, d, w.callers[c].row);
    case VerifyComplete(d) => if d != c { CompletionKeepsOrder(mac, w, c, d); }
    case DirectFinish(d) => DirectFinishKeeps(mac, w, d);
    case _ => QuietKeepsRows(mac, w, e);
  }

  lemma AtOrderOfRow(mac: Mac, w: World, events: seq<Event>, n: nat, c: Id)
    requires Fresh(w) && n < |events| && c in At(mac, w, events, n).callers && At(mac, w, events, n).callers[c].Installed?
    requires Same(At(mac, w, events, n), At(mac, w, events, n + 1), c)
    ensures var v, v' := At(mac, w, events, n), At(mac, w, events, n + 1);
      var row := v.callers[c].row; var r := Reordered(v, events[n], row);
      row < |v.rows| && row < |v'.rows| && v'.rows[row].order == if r.Some? then r.value else v.rows[row].order
  {
    AtNext(mac, w, events, n);
    AtInv(mac, w, events, n);
    StepOrderOfRow(mac, At(mac, w, events, n), events[n], c);
  }

  lemma {:induction false} DoneStays(mac: Mac, w: World, events: seq<Event>, m: nat, n: nat, c: Id)
    requires m <= n <= |events| && c in At(mac, w, events, m).callers && At(mac, w, events, m).callers[c].Done?
    ensures c in At(mac, w, events, n).callers && At(mac, w, events, n).callers[c].Done?
    decreases n
  {
    if m < n {
      DoneStays(mac, w, events, m, n - 1, c);
      AtMoves(mac, w, events, n - 1, c);
    }
  }

  /** c has just installed before event `from`, and has not completed before event `upto`. */
  ghost predicate Waiting(mac: Mac, w: World, events: seq<Event>, from: nat, upto: nat, c: Id, p: Phase)
  {
    && from <= upto <= |events| && p.Installed?
    && c in At(mac, w, events, from).callers && At(mac, w, events, from).callers[c] == p
    && c in At(mac, w, events, upto).callers && At(mac, w, events, upto).callers[c].Installed?
  }

  lemma {:induction false} StillWaiting(mac: Mac, w: World, events: seq<Event>, from: nat, n: nat, upto: nat, c: Id, p: Phase)
    requires Waiting(mac, w, events, from, upto, c, p) && from <= n <= upto
    ensures c in At(mac, w, events, n).callers && At(mac, w, events, n).callers[c] == p
    decreases n
  {
    if from < n {
      StillWaiting(mac, w, events, from, n - 1, upto, c, p);
      AtMoves(mac, w, events, n - 1, c);
      if At(mac, w, events, n).callers[c].Done? {
        DoneStays(mac, w, events, n, upto, c);
      }
    }
  }

  lemma {:induction false} OrderInWindow(mac: Mac, w: World, events: seq<Event>, from: nat, n: nat, upto: nat, c: Id, p: Phase)
    requires Fresh(w) && Waiting(mac, w, events, from, upto, c, p) && from <= n <= upto
    requires p.row < |At(mac, w, events, from).rows|
    ensures p.row < |At(mac, w, events, n).rows|
    ensures At(mac, w, events, n).rows[p.row].order
            == LastOrder(mac, w, events, from, n, p.row, At(mac, w, events, from).rows[p.row].order)
    decreases n
  {
    if from < n {
      OrderInWindow(mac, w, events, from, n - 1, upto, c, p);
      StillWaiting(mac, w, events, from, n - 1, upto, c, p);
      StillWaiting(mac, w, events, from, n, upto, c, p);
      AtOrderOfRow(mac, w, events, n - 1, c);
    }
  }

  /** The install commit leaves the row with the order that was paid. */
  lemma PaidOrderAtInstall(mac: Mac, w: World, e: Event, c: Id)
    requires Inv(mac, w) && c in w.callers && w.callers[c].Locked? && e == VerifyInstall(c, Accepted)
    ensures var row := w.callers[c].row;
      row < |w.rows| && Step(mac, w, e).rows == w.rows && w.rows[row].order == w.callers[c].v.order
  {
    assert PhaseOk(mac, w, c, w.callers[c]);
    QuietKeepsRows(mac, w, e);
  }

  /** The completing commit at event `upto` of the verify call that installed at event `at`. */
  ghost predicate Completes(mac: Mac, w: World, events: seq<Event>, at: nat, upto: nat, c: Id, p: Phase)
  {
    && at < upto < |events| && p.Installed?
    && events[at] == VerifyInstall(c, Accepted) && c in At(mac, w, events, at).callers
    && At(mac, w, events, at).callers[c] == Locked(p.v, p.row)
    && Waiting(mac, w, events, at + 1, upto, c, p)
    && events[upto] == VerifyComplete(c) && p.row !in At(mac, w, events, upto).locks
  }

  lemma SoldAs(mac: Mac, w: World, c: Id)
    requires Inv(mac, w) && c in w.callers && w.callers[c].Installed? && w.callers[c].row !in w.locks
    ensures var p, w' := w.callers[c], Step(mac, w, VerifyComplete(c));
      && p.row < |w.rows| && |w'.sales| == |w.sales| + 1
      && var s := w'.sales[|w.sales|];
         && s.listing == p.v.listing && s.buyer == p.v.buyer && s.order == p.v.order
         && p.v.order in w'.minted && s.pricedBy == w.rows[p.row].order
         && s.pricedBy in w'.minted && s.amount == w'.minted[s.pricedBy].amount
  {
    assert PhaseOk(mac, w, c, w.callers[c]);
    assert RowOk(w, w.rows[w.callers[c].row]);
  }

  /** A sale is booked at the price of the last order committed for its pair between the install and the completing
      commit, and at the price of the order that was paid if there is none: it books what was paid exactly when
      that order asked the same price. */
  lemma BookedIsPaidIff(mac: Mac, w: World, events: seq<Event>, at: nat, upto: nat, c: Id, p: Phase)
    requires Fresh(w) && Completes(mac, w, events, at, upto, c, p)
    ensures var w' := At(mac, w, events, upto + 1);
      var last := LastOrder(mac, w, events, at + 1, upto, p.row, p.v.order);
      && |w'.sales| == |At(mac, w, events, upto).sales| + 1
      && var s := w'.sales[|w'.sales| - 1];
         && s.listing == p.v.listing && s.buyer == p.v.buyer && s.order == p.v.order
         && p.v.order in w'.minted && last in w'.minted && s.amount == w'.minted[last].amount
         && (s.amount == w'.minted[p.v.order].amount <==> w'.minted[last].amount == w'.minted[p.v.order].amount)
  {
    AtNext(mac, w, events, at);
    AtInv(mac, w, events, at);
    PaidOrderAtInstall(mac, At(mac, w, events, at), events[at], c);
    OrderInWindow(mac, w, events, at + 1, upto, upto, c, p);
    StillWaiting(mac, w, events, at + 1, upto, upto, c, p);
    AtNext(mac, w, events, upto);
    AtInv(mac, w, events, upto);
    SoldAs(mac, At(mac, w, events, upto), c);
  }

  lemma {:induction false} NoReorder(mac: Mac, w: World, events: seq<Event>, from: nat, upto: nat, row: nat, order: string)
    requires from <= upto <= |events|
    requires forall j :: from <= j < upto ==> Reordered(At(mac, w, events, j), events[j], row).None?
    ensures LastOrder(mac, w, events, from, upto, row, order) == order
    decreases upto
  {
    if from < upto {
      NoReorder(mac, w, events, from, upto - 1, row, order);
    }
  }

  /** Without an order commit for the pair in that window, what was paid is booked. */
  lemma UndisturbedBooksWhatWasPaid(mac: Mac, w: World, events: seq<Event>, at: nat, upto: nat, c: Id, p: Phase)
    requires Fresh(w) && Completes(mac, w, events, at, upto, c, p)
    requires forall j :: at < j < upto ==> Reordered(At(mac, w, events, j), events[j], p.row).None?
    ensures var w' := At(mac, w, events, upto + 1);
      && w'.sales != [] && p.v.order in w'.minted
      && w'.sales[|w'.sales| - 1].order == p.v.order
      && w'.sales[|w'.sales| - 1].amount == w'.minted[p.v.order].amount
  {
    BookedIsPaidIff(mac, w, events, at, upto, c, p);
    NoReorder(mac, w, events, at + 1, upto, p.row, p.v.order);
  }
}

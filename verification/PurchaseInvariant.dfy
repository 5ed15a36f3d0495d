/** What every step of the paid-install protocol keeps. */
module PurchaseInvariant {
  import opened Wrappers
  import opened RevenueSplit
  import opened PurchaseProtocol

  ghost predicate NoneCompleted(rows: seq<Purchase>, listing: Id, buyer: Id)
  {
    forall i :: 0 <= i < |rows| ==> !Is(rows[i], listing, buyer, Completed)
  }

  ghost predicate MintedFor(w: World, order: string, listing: Id, buyer: Id)
  {
    order in w.minted && w.minted[order].listing == listing && w.minted[order].buyer == buyer
  }

  ghost predicate ForeignBuyer(w: World, listing: Id, buyer: Id)
  {
    listing in w.listings && w.listings[listing].publisher != buyer
  }

  ghost predicate RowOk(w: World, p: Purchase)
  {
    && MintedFor(w, p.order, p.listing, p.buyer)
    && ForeignBuyer(w, p.listing, p.buyer)
    && (p.status == Pending ==> p.amount == w.minted[p.order].amount && p.payment == None && p.installation == None)
    && (p.status == Completed ==>
          && p.payment.Some? && p.installation.Some?
          && (p.buyer, p.listing) in w.slots && w.slots[(p.buyer, p.listing)].id == p.installation.value)
  }

  ghost predicate RowsOk(w: World)
  {
    && (forall i :: 0 <= i < |w.rows| ==> RowOk(w, w.rows[i]))
    && (forall i, j :: 0 <= i < j < |w.rows| && w.rows[i].listing == w.rows[j].listing && w.rows[i].buyer == w.rows[j].buyer
          ==> w.rows[i].status != w.rows[j].status)
  }

  ghost predicate SaleOk(mac: Mac, w: World, s: Sale)
  {
    && s.row < |w.rows|
    && w.rows[s.row] == Purchase(s.listing, s.buyer, Completed, s.order, Some(s.payment),
                                 s.amount, s.publisherShare, s.platformShare, Some(s.inst))
    && s.signature == mac(s.order + "|" + s.payment)
    && MintedFor(w, s.pricedBy, s.listing, s.buyer) && w.minted[s.pricedBy].amount == s.amount
    && Split(s.amount, s.bps) == Shares(s.publisherShare, s.platformShare)
  }

  ghost predicate SalesOk(mac: Mac, w: World)
  {
    && (forall k :: 0 <= k < |w.sales| ==> SaleOk(mac, w, w.sales[k]))
    && (forall j, k :: 0 <= j < k < |w.sales| ==> w.sales[j].row != w.sales[k].row)
    && (forall i :: 0 <= i < |w.rows| && w.rows[i].status == Completed ==> exists k :: 0 <= k < |w.sales| && w.sales[k].row == i)
  }

  ghost predicate LocksOk(w: World)
  {
    forall r :: r in w.locks ==>
      w.locks[r] in w.callers && w.callers[w.locks[r]].Locked? && w.callers[w.locks[r]].row == r
  }

  ghost predicate Answered(w: World, listing: Id, buyer: Id, payment: string, inst: Option<nat>)
  {
    exists i :: 0 <= i < |w.rows| && Is(w.rows[i], listing, buyer, Completed)
             && w.rows[i].payment == Some(payment) && w.rows[i].installation == inst
  }

  ghost predicate PhaseOk(mac: Mac, w: World, c: int, p: Phase)
  {
    match p
    case Ordering(listing, buyer, order, amount) =>
      ForeignBuyer(w, listing, buyer) && order in w.minted && w.minted[order] == Mint(listing, buyer, amount)
    case Locked(v, row) =>
      && ForeignBuyer(w, v.listing, v.buyer) && ValidSignature(mac, v)
      && row in w.locks && w.locks[row] == c
      && row < |w.rows| && Is(w.rows[row], v.listing, v.buyer, Pending) && w.rows[row].order == v.order
      && NoneCompleted(w.rows, v.listing, v.buyer)
    case Installed(v, row, inst) =>
      && ForeignBuyer(w, v.listing, v.buyer) && ValidSignature(mac, v) && MintedFor(w, v.order, v.listing, v.buyer)
      && row < |w.rows| && Is(w.rows[row], v.listing, v.buyer, Pending)
      && NoneCompleted(w.rows, v.listing, v.buyer)
      && (v.buyer, v.listing) in w.slots && w.slots[(v.buyer, v.listing)] == Slot(inst, Live)
    case Conflicted(v) => true
    case Cleared(listing, buyer, purchase) =>
      && ForeignBuyer(w, listing, buyer)
      && (purchase.Some? ==> purchase.value < |w.rows| && Is(w.rows[purchase.value], listing, buyer, Completed))
    case Placed(listing, buyer, purchase, inst) =>
      && ForeignBuyer(w, listing, buyer)
      && (purchase.Some? ==> purchase.value < |w.rows| && Is(w.rows[purchase.value], listing, buyer, Completed))
      && (buyer, listing) in w.slots && w.slots[(buyer, listing)].id == inst
    case Done(reply) =>
      reply.Ready? ==> Answered(w, reply.listing, reply.buyer, reply.payment, reply.installation)
  }

  ghost predicate CallersOk(mac: Mac, w: World)
  {
    forall c :: c in w.callers ==> PhaseOk(mac, w, c, w.callers[c])
  }

  /** At most one verify call per pair sits between its install commit and its completing commit. */
  ghost predicate OneCompleting(w: World)
  {
    forall c, d :: c in w.callers && d in w.callers && c != d && w.callers[c].Installed? && w.callers[d].Installed?
      ==> w.callers[c].v.listing != w.callers[d].v.listing || w.callers[c].v.buyer != w.callers[d].v.buyer
  }

  ghost predicate PlacementOk(mac: Mac, w: World, p: Placement)
  {
    && ForeignBuyer(w, p.listing, p.buyer)
    && match p.cause
       case ByVerify(v) =>
         v.listing == p.listing && v.buyer == p.buyer && ValidSignature(mac, v) && MintedFor(w, v.order, p.listing, p.buyer)
       case ByPurchase(row) => row < |w.rows| && Is(w.rows[row], p.listing, p.buyer, Completed)
       case BySawFree => true
  }

  ghost predicate PlacementsOk(mac: Mac, w: World)
  {
    forall k :: 0 <= k < |w.placements| ==> PlacementOk(mac, w, w.placements[k])
  }

  function SalesOf(sales: seq<Sale>, listing: Id): nat
  {
    if sales == [] then 0
    else SalesOf(sales[..|sales| - 1], listing) + if sales[|sales| - 1].listing == listing then 1 else 0
  }

  function Occurrences(ids: seq<Id>, listing: Id): nat
  {
    if ids == [] then 0
    else Occurrences(ids[..|ids| - 1], listing) + if ids[|ids| - 1] == listing then 1 else 0
  }

  ghost predicate CountsOk(w: World)
  {
    forall l :: l in w.listings ==> w.listings[l].installCount == SalesOf(w.sales, l) + Occurrences(w.directs, l)
  }

  ghost predicate Inv(mac: Mac, w: World)
  {
    && RowsOk(w) && SalesOk(mac, w) && LocksOk(w) && CallersOk(mac, w)
    && OneCompleting(w) && PlacementsOk(mac, w) && CountsOk(w)
  }

  lemma FreshInv(mac: Mac, w: World)
    requires Fresh(w)
    ensures Inv(mac, w)
  {
  }

  // ── One caller's step, seen by everybody else ─────────────────────────────

  /** Inv without what it says about the caller taking the step. */
  ghost predicate Others(mac: Mac, w: World, c: int)
  {
    && (forall r :: r in w.locks && w.locks[r] != c ==>
          w.locks[r] in w.callers && w.callers[w.locks[r]].Locked? && w.callers[w.locks[r]].row == r)
    && (forall d :: d in w.callers && d != c ==> PhaseOk(mac, w, d, w.callers[d]))
    && (forall d, e :: d in w.callers && e in w.callers && d != e && d != c && e != c
          && w.callers[d].Installed? && w.callers[e].Installed?
          ==> w.callers[d].v.listing != w.callers[e].v.listing || w.callers[d].v.buyer != w.callers[e].v.buyer)
  }

  /** w' keeps every fact of w that rows and histories rely on. */
  ghost predicate Grows(w: World, w': World)
  {
    && w'.listings.Keys == w.listings.Keys
    && (forall l :: l in w.listings ==> w'.listings[l].publisher == w.listings[l].publisher)
    && (forall o :: o in w.minted ==> o in w'.minted && w'.minted[o] == w.minted[o])
    && (forall k :: k in w.slots ==> k in w'.slots && w'.slots[k].id == w.slots[k].id)
    && |w.rows| <= |w'.rows|
    && (forall i :: 0 <= i < |w.rows| && w.rows[i].status == Completed ==> w'.rows[i] == w.rows[i])
  }

  /** Only c moves: every other caller keeps its phase, its lock, its row and its slot. */
  ghost predicate OnlyMoves(w: World, w': World, c: int)
  {
    && (forall d :: d != c ==> (d in w.callers <==> d in w'.callers))
    && (forall d :: d != c && d in w.callers ==> d in w'.callers && w'.callers[d] == w.callers[d])
    && (forall r :: r in w'.locks && w'.locks[r] != c ==> r in w.locks && w'.locks[r] == w.locks[r])
    && (forall r :: r in w.locks && w.locks[r] != c ==> r in w'.locks && w'.locks[r] == w.locks[r])
    && (forall d :: d != c && d in w.callers && w.callers[d].Locked? && w.callers[d].row < |w.rows| <= |w'.rows| ==>
          && w'.rows[w.callers[d].row] == w.rows[w.callers[d].row]
          && NoneCompleted(w'.rows, w.callers[d].v.listing, w.callers[d].v.buyer))
    && (forall d :: d != c && d in w.callers && w.callers[d].Installed? && w.callers[d].row < |w.rows| <= |w'.rows| ==>
          var k := (w.callers[d].v.buyer, w.callers[d].v.listing);
          && Is(w'.rows[w.callers[d].row], w.callers[d].v.listing, w.callers[d].v.buyer, Pending)
          && NoneCompleted(w'.rows, w.callers[d].v.listing, w.callers[d].v.buyer)
          && (k in w.slots ==> k in w'.slots && w'.slots[k] == w.slots[k]))
  }

  lemma OthersFrame(mac: Mac, w: World, w': World, c: int)
    requires Others(mac, w, c) && Grows(w, w') && OnlyMoves(w, w', c)
    ensures Others(mac, w', c)
  {
    forall d | d in w'.callers && d != c ensures PhaseOk(mac, w', d, w'.callers[d]) {
      assert PhaseOk(mac, w, d, w.callers[d]);
    }
  }

  lemma RowsFrame(w: World, w': World)
    requires RowsOk(w) && Grows(w, w') && w'.rows == w.rows
    ensures RowsOk(w')
  {
  }

  lemma SalesFrame(mac: Mac, w: World, w': World)
    requires SalesOk(mac, w) && Grows(w, w') && w'.sales == w.sales
    requires forall i :: 0 <= i < |w'.rows| && w'.rows[i].status == Completed ==> i < |w.rows| && w.rows[i].status == Completed
    ensures SalesOk(mac, w')
  {
  }

  lemma PlacementsFrame(mac: Mac, w: World, w': World)
    requires PlacementsOk(mac, w) && Grows(w, w')
    requires w'.placements == w.placements
          || exists p :: w'.placements == w.placements + [p] && PlacementOk(mac, w', p)
    ensures PlacementsOk(mac, w')
  {
  }

  lemma CountsFrame(w: World, w': World)
    requires CountsOk(w) && Grows(w, w') && w'.sales == w.sales && w'.directs == w.directs
    requires forall l :: l in w.listings ==> w'.listings[l].installCount == w.listings[l].installCount
    ensures CountsOk(w')
  {
  }

  lemma Close(mac: Mac, w: World, c: int)
    requires RowsOk(w) && SalesOk(mac, w) && PlacementsOk(mac, w) && CountsOk(w) && Others(mac, w, c)
    requires c in w.callers ==> PhaseOk(mac, w, c, w.callers[c])
    requires forall r :: r in w.locks && w.locks[r] == c ==> c in w.callers && w.callers[c].Locked? && w.callers[c].row == r
    requires c in w.callers && w.callers[c].Installed? ==>
      forall d :: d in w.callers && d != c && w.callers[d].Installed? ==>
        w.callers[d].v.listing != w.callers[c].v.listing || w.callers[d].v.buyer != w.callers[c].v.buyer
    ensures Inv(mac, w)
  {
  }

  /** What c must satisfy once its step is over. */
  ghost predicate Settled(mac: Mac, w: World, c: int)
  {
    && (c in w.callers ==> PhaseOk(mac, w, c, w.callers[c]))
    && (forall r :: r in w.locks && w.locks[r] == c ==> c in w.callers && w.callers[c].Locked? && w.callers[c].row == r)
    && (c in w.callers && w.callers[c].Installed? ==>
          forall d :: d in w.callers && d != c && w.callers[d].Installed? ==>
            w.callers[d].v.listing != w.callers[c].v.listing || w.callers[d].v.buyer != w.callers[c].v.buyer)
  }

  lemma FromInv(mac: Mac, w: World, c: int)
    requires Inv(mac, w)
    ensures Others(mac, w, c)
  {
  }

  /** Rows stay, live marketplace rows stay, and only c's phase and c's lock change. */
  ghost predicate Alike(w: World, w': World, c: int)
  {
    && w'.rows == w.rows && w'.sales == w.sales && w'.directs == w.directs
    && w'.callers.Keys - {c} == w.callers.Keys - {c}
    && (forall d :: d != c && d in w.callers ==> d in w'.callers && w'.callers[d] == w.callers[d])
    && (forall r :: r in w'.locks && w'.locks[r] != c ==> r in w.locks && w'.locks[r] == w.locks[r])
    && (forall r :: r in w.locks && w.locks[r] != c ==> r in w'.locks && w'.locks[r] == w.locks[r])
    && (forall k :: k in w.slots && w.slots[k].state == Live ==> k in w'.slots && w'.slots[k] == w.slots[k])
  }

  lemma AlikeOnlyMoves(mac: Mac, w: World, w': World, c: int)
    requires Others(mac, w, c) && Alike(w, w', c)
    ensures OnlyMoves(w, w', c)
  {
    forall d | d != c ensures d in w.callers <==> d in w'.callers {
      assert d in w.callers.Keys - {c} <==> d in w'.callers.Keys - {c};
    }
    forall d | d != c && d in w.callers ensures PhaseOk(mac, w, d, w.callers[d]) {}
  }

  /** A step that leaves rows, sales and install counts alone. */
  lemma MoveInv(mac: Mac, w: World, w': World, c: int)
    requires Inv(mac, w) && Grows(w, w') && Alike(w, w', c) && Settled(mac, w', c) && PlacementsOk(mac, w')
    requires forall l :: l in w.listings ==> w'.listings[l].installCount == w.listings[l].installCount
    ensures Inv(mac, w')
  {
    FromInv(mac, w, c);
    AlikeOnlyMoves(mac, w, w', c);
    OthersFrame(mac, w, w', c);
    RowsFrame(w, w');
    SalesFrame(mac, w, w');
    CountsFrame(w, w');
    Close(mac, w', c);
  }

  lemma QuietStep(mac: Mac, w: World, w': World, c: int)
    requires Inv(mac, w) && Grows(w, w') && Alike(w, w', c) && Settled(mac, w', c) && w'.placements == w.placements
    requires forall l :: l in w.listings ==> w'.listings[l].installCount == w.listings[l].installCount
    ensures Inv(mac, w')
  {
    PlacementsFrame(mac, w, w');
    MoveInv(mac, w, w', c);
  }

  lemma GoFacts(mac: Mac, w: World, c: Id, p: Phase)
    ensures Grows(w, Go(w, c, p)) && Alike(w, Go(w, c, p), c)
    ensures !p.Locked? && !p.Installed? && PhaseOk(mac, Go(w, c, p), c, p) ==> Settled(mac, Go(w, c, p), c)
  {
  }

  lemma GoInv(mac: Mac, w: World, c: Id, p: Phase)
    requires Inv(mac, w) && !p.Locked? && !p.Installed? && PhaseOk(mac, Go(w, c, p), c, p)
    ensures Inv(mac, Go(w, c, p))
  {
    GoFacts(mac, w, c, p);
    QuietStep(mac, w, Go(w, c, p), c);
  }

  lemma EndInv(mac: Mac, w: World, c: Id, reply: Reply)
    requires Inv(mac, w)
    requires reply.Ready? ==> Answered(w, reply.listing, reply.buyer, reply.payment, reply.installation)
    ensures Inv(mac, End(w, c, reply))
  {
    GoInv(mac, w, c, Done(reply));
  }

  lemma OrderGateInv(mac: Mac, w: World, c: Id, listing: Id, buyer: Id, order: string)
    requires Inv(mac, w)
    ensures Inv(mac, StepOrderGate(w, c, listing, buyer, order))
  {
    if c !in w.callers && order !in w.minted {
      match OrderRefusal(w, listing, buyer)
      case Some(reason) => EndInv(mac, w, c, Refused(reason));
      case None => MintedInv(mac, w, c, order, Mint(listing, buyer, w.listings[listing].price));
    }
  }

  lemma MintedFacts(mac: Mac, w: World, c: Id, order: string, m: Mint)
    requires LocksOk(w) && order !in w.minted && c !in w.callers && ForeignBuyer(w, m.listing, m.buyer)
    ensures Grows(w, Minted(w, c, order, m)) && Alike(w, Minted(w, c, order, m), c)
    ensures Settled(mac, Minted(w, c, order, m), c)
  {
  }

  lemma MintedInv(mac: Mac, w: World, c: Id, order: string, m: Mint)
    requires Inv(mac, w) && order !in w.minted && c !in w.callers && ForeignBuyer(w, m.listing, m.buyer)
    ensures Inv(mac, Minted(w, c, order, m))
  {
    MintedFacts(mac, w, c, order, m);
    QuietStep(mac, w, Minted(w, c, order, m), c);
  }

  lemma HeldFacts(mac: Mac, w: World, c: Id, v: Verify, row: nat)
    requires LocksOk(w) && c !in w.callers && row !in w.locks
    requires PhaseOk(mac, Held(w, c, v, row), c, Locked(v, row))
    ensures Grows(w, Held(w, c, v, row)) && Alike(w, Held(w, c, v, row), c) && Settled(mac, Held(w, c, v, row), c)
  {
  }

  lemma HeldInv(mac: Mac, w: World, c: Id, v: Verify, row: nat)
    requires Inv(mac, w) && c !in w.callers && row !in w.locks
    requires PhaseOk(mac, Held(w, c, v, row), c, Locked(v, row))
    ensures Inv(mac, Held(w, c, v, row))
  {
    HeldFacts(mac, w, c, v, row);
    QuietStep(mac, w, Held(w, c, v, row), c);
  }

  lemma VerifyLockInv(mac: Mac, w: World, c: Id, v: Verify)
    requires Inv(mac, w)
    ensures Inv(mac, StepVerifyLock(mac, w, c, v))
  {
    if c !in w.callers {
      match VerifyLookup(mac, w, v)
      case Answer(reply) => EndInv(mac, w, c, reply);
      case Wait =>
      case Take(row) => HeldInv(mac, w, c, v, row);
    }
  }

  /** The caller name of a step no caller takes. */
  const NOBODY := -1

  lemma SlotFacts(w: World, listing: Id, buyer: Id, state: SlotState)
    requires !Occupied(w.slots, buyer, listing)
    ensures Grows(w, WriteSlot(w, listing, buyer, state)) && Alike(w, WriteSlot(w, listing, buyer, state), NOBODY)
  {
  }

  lemma SlotInv(mac: Mac, w: World, listing: Id, buyer: Id, state: SlotState)
    requires Inv(mac, w) && !Occupied(w.slots, buyer, listing)
    ensures Inv(mac, WriteSlot(w, listing, buyer, state))
  {
    SlotFacts(w, listing, buyer, state);
    QuietStep(mac, w, WriteSlot(w, listing, buyer, state), NOBODY);
  }

  // ── Installs ──────────────────────────────────────────────────────────────

  lemma PlaceFacts(w: World, c: Id, listing: Id, buyer: Id, cause: Cause, p: Phase)
    requires !Occupied(w.slots, buyer, listing)
    ensures Grows(w, Place(w, c, listing, buyer, cause, p)) && Alike(w, Place(w, c, listing, buyer, cause, p), c)
  {
  }

  /** A vacant slot means that nobody else is between install and completion for this pair. */
  lemma PlaceSettled(mac: Mac, w: World, c: Id, listing: Id, buyer: Id, cause: Cause, p: Phase)
    requires CallersOk(mac, w) && !Occupied(w.slots, buyer, listing)
    requires !p.Locked? && (p.Installed? ==> p.v.listing == listing && p.v.buyer == buyer)
    requires PhaseOk(mac, Place(w, c, listing, buyer, cause, p), c, p)
    ensures Settled(mac, Place(w, c, listing, buyer, cause, p), c)
  {
  }

  lemma PlaceInv(mac: Mac, w: World, c: Id, listing: Id, buyer: Id, cause: Cause, p: Phase)
    requires Inv(mac, w) && !Occupied(w.slots, buyer, listing)
    requires !p.Locked? && (p.Installed? ==> p.v.listing == listing && p.v.buyer == buyer)
    requires PhaseOk(mac, Place(w, c, listing, buyer, cause, p), c, p)
    requires PlacementOk(mac, w, Placement(listing, buyer, cause))
    ensures Inv(mac, Place(w, c, listing, buyer, cause, p))
  {
    var w' := Place(w, c, listing, buyer, cause, p);
    PlaceFacts(w, c, listing, buyer, cause, p);
    PlaceSettled(mac, w, c, listing, buyer, cause, p);
    PlacementsFrame(mac, w, w');
    MoveInv(mac, w, w', c);
  }

  lemma VerifyInstallInv(mac: Mac, w: World, c: Id, outcome: Outcome)
    requires Inv(mac, w)
    ensures Inv(mac, StepVerifyInstall(w, c, outcome))
  {
    if c in w.callers && w.callers[c].Locked? {
      var Locked(v, row) := w.callers[c];
      assert PhaseOk(mac, w, c, Locked(v, row));
      if Occupied(w.slots, v.buyer, v.listing) {
        GoInv(mac, w, c, Conflicted(v));
      } else {
        match outcome
        case Rejected => EndInv(mac, w, c, Refused(InstallFailed));
        case ConnectFailed =>
          SlotInv(mac, w, v.listing, v.buyer, Broken);
          EndInv(mac, WriteSlot(w, v.listing, v.buyer, Broken), c, Refused(InstallFailed));
        case Accepted => VerifyPlaceInv(mac, w, c, v, row);
      }
    }
  }

  lemma VerifyPlaceInv(mac: Mac, w: World, c: Id, v: Verify, row: nat)
    requires Inv(mac, w) && c in w.callers && w.callers[c] == Locked(v, row) && !Occupied(w.slots, v.buyer, v.listing)
    ensures Inv(mac, Place(w, c, v.listing, v.buyer, ByVerify(v),
                           Installed(v, row, Written(w.slots, v.buyer, v.listing, Live).id)))
  {
    assert PhaseOk(mac, w, c, Locked(v, row));
    assert RowOk(w, w.rows[row]);
    PlaceInv(mac, w, c, v.listing, v.buyer, ByVerify(v), Installed(v, row, Written(w.slots, v.buyer, v.listing, Live).id));
  }

  lemma DirectInstallInv(mac: Mac, w: World, c: Id, outcome: Outcome)
    requires Inv(mac, w)
    ensures Inv(mac, StepDirectInstall(w, c, outcome))
  {
    if c in w.callers && w.callers[c].Cleared? {
      var Cleared(listing, buyer, purchase) := w.callers[c];
      assert PhaseOk(mac, w, c, Cleared(listing, buyer, purchase));
      if Occupied(w.slots, buyer, listing) {
        EndInv(mac, w, c, Refused(AlreadyInstalled));
      } else {
        match outcome
        case Rejected => EndInv(mac, w, c, Refused(InstallFailed));
        case ConnectFailed =>
          SlotInv(mac, w, listing, buyer, Broken);
          EndInv(mac, WriteSlot(w, listing, buyer, Broken), c, Refused(InstallFailed));
        case Accepted =>
          var cause := if purchase.Some? then ByPurchase(purchase.value) else BySawFree;
          PlaceInv(mac, w, c, listing, buyer, cause,
                   Placed(listing, buyer, purchase, Written(w.slots, buyer, listing, Live).id));
      }
    }
  }

  lemma VerifyFoldInv(mac: Mac, w: World, c: Id)
    requires Inv(mac, w)
    ensures Inv(mac, StepVerifyFold(w, c))
  {
    if c in w.callers && w.callers[c].Conflicted? {
      EndInv(mac, w, c, FoldReply(w, w.callers[c].v));
    }
  }

  lemma DirectGateInv(mac: Mac, w: World, c: Id, listing: Id, buyer: Id)
    requires Inv(mac, w)
    ensures Inv(mac, StepDirectGate(w, c, listing, buyer))
  {
    if c !in w.callers {
      match DirectClearance(w, listing, buyer)
      case Deny(reason) => EndInv(mac, w, c, Refused(reason));
      case Clear(purchase) => GoInv(mac, w, c, Cleared(listing, buyer, purchase));
    }
  }

  lemma CrashInv(mac: Mac, w: World, c: Id)
    requires Inv(mac, w)
    ensures Inv(mac, StepCrash(w, c))
  {
    if c in w.callers && !w.callers[c].Done? {
      EndInv(mac, w, c, Refused(Lost));
    }
  }

  lemma UninstallInv(mac: Mac, w: World, listing: Id, buyer: Id)
    requires Inv(mac, w)
    ensures Inv(mac, StepUninstall(w, listing, buyer))
  {
    if Occupied(w.slots, buyer, listing) && !Completing(w, listing, buyer) {
      var w' := StepUninstall(w, listing, buyer);
      FromInv(mac, w, NOBODY);
      UninstallMoves(mac, w, listing, buyer);
      OthersFrame(mac, w, w', NOBODY);
      RowsFrame(w, w');
      SalesFrame(mac, w, w');
      PlacementsFrame(mac, w, w');
      CountsFrame(w, w');
      Close(mac, w', NOBODY);
    }
  }

  lemma UninstallMoves(mac: Mac, w: World, listing: Id, buyer: Id)
    requires Others(mac, w, NOBODY) && Occupied(w.slots, buyer, listing) && !Completing(w, listing, buyer)
    ensures Grows(w, StepUninstall(w, listing, buyer)) && OnlyMoves(w, StepUninstall(w, listing, buyer), NOBODY)
  {
    forall d | d in w.callers ensures PhaseOk(mac, w, d, w.callers[d]) {}
  }

  lemma EditFacts(w: World, listing: Id, bps: int, published: bool, free: bool, price: int)
    ensures var w' := StepEdit(w, listing, bps, published, free, price);
      && Grows(w, w') && Alike(w, w', NOBODY) && w'.placements == w.placements
      && forall l :: l in w.listings ==> w'.listings[l].installCount == w.listings[l].installCount
  {
  }

  lemma EditInv(mac: Mac, w: World, listing: Id, bps: int, published: bool, free: bool, price: int)
    requires Inv(mac, w)
    ensures Inv(mac, StepEdit(w, listing, bps, published, free, price))
  {
    EditFacts(w, listing, bps, published, free, price);
    QuietStep(mac, w, StepEdit(w, listing, bps, published, free, price), NOBODY);
  }

  // ── Orders ────────────────────────────────────────────────────────────────

  lemma RepricedRows(w: World, i: nat, order: string, amount: int)
    requires RowsOk(w) && i < |w.rows| && w.rows[i].status == Pending
    requires MintedFor(w, order, w.rows[i].listing, w.rows[i].buyer) && w.minted[order].amount == amount
    ensures Grows(w, Repriced(w, i, order, amount)) && RowsOk(Repriced(w, i, order, amount))
  {
  }

  lemma RepricedMoves(mac: Mac, w: World, i: nat, order: string, amount: int)
    requires Others(mac, w, NOBODY) && i < |w.rows| && i !in w.locks && w.rows[i].status == Pending
    ensures OnlyMoves(w, Repriced(w, i, order, amount), NOBODY)
  {
    forall d | d in w.callers ensures PhaseOk(mac, w, d, w.callers[d]) {}
  }

  lemma OpenedRows(w: World, listing: Id, buyer: Id, order: string, amount: int)
    requires RowsOk(w) && Find(w.rows, listing, buyer, Pending).None?
    requires ForeignBuyer(w, listing, buyer) && MintedFor(w, order, listing, buyer) && w.minted[order].amount == amount
    ensures Grows(w, Opened(w, listing, buyer, order, amount)) && RowsOk(Opened(w, listing, buyer, order, amount))
  {
  }

  lemma OpenedMoves(mac: Mac, w: World, listing: Id, buyer: Id, order: string, amount: int)
    requires Others(mac, w, NOBODY)
    ensures OnlyMoves(w, Opened(w, listing, buyer, order, amount), NOBODY)
  {
    forall d | d in w.callers ensures PhaseOk(mac, w, d, w.callers[d]) {}
  }

  /** Rows may be opened or repriced, but nothing is completed. */
  lemma RowsMoveInv(mac: Mac, w: World, w': World)
    requires Inv(mac, w) && Grows(w, w') && OnlyMoves(w, w', NOBODY) && RowsOk(w')
    requires w'.sales == w.sales && w'.directs == w.directs && w'.placements == w.placements
    requires w'.callers == w.callers && w'.locks == w.locks && w'.listings == w.listings
    requires forall i :: 0 <= i < |w'.rows| && w'.rows[i].status == Completed ==> i < |w.rows| && w.rows[i].status == Completed
    ensures Inv(mac, w')
  {
    FromInv(mac, w, NOBODY);
    OthersFrame(mac, w, w', NOBODY);
    SalesFrame(mac, w, w');
    PlacementsFrame(mac, w, w');
    CountsFrame(w, w');
    Close(mac, w', NOBODY);
  }

  lemma OrderCommitInv(mac: Mac, w: World, c: Id)
    requires Inv(mac, w)
    ensures Inv(mac, StepOrderCommit(w, c))
  {
    if c in w.callers && w.callers[c].Ordering? {
      var Ordering(listing, buyer, order, amount) := w.callers[c];
      assert PhaseOk(mac, w, c, w.callers[c]);
      match Find(w.rows, listing, buyer, Pending)
      case Some(i) => if i !in w.locks { RepricedInv(mac, w, c, i, order, amount); }
      case None => OpenedInv(mac, w, c, listing, buyer, order, amount);
    }
  }

  lemma RepricedInv(mac: Mac, w: World, c: Id, i: nat, order: string, amount: int)
    requires Inv(mac, w) && i < |w.rows| && i !in w.locks && w.rows[i].status == Pending
    requires MintedFor(w, order, w.rows[i].listing, w.rows[i].buyer) && w.minted[order].amount == amount
    ensures Inv(mac, End(Repriced(w, i, order, amount), c, OrderCreated))
  {
    FromInv(mac, w, NOBODY);
    RepricedRows(w, i, order, amount);
    RepricedMoves(mac, w, i, order, amount);
    RowsMoveInv(mac, w, Repriced(w, i, order, amount));
    EndInv(mac, Repriced(w, i, order, amount), c, OrderCreated);
  }

  lemma OpenedInv(mac: Mac, w: World, c: Id, listing: Id, buyer: Id, order: string, amount: int)
    requires Inv(mac, w) && Find(w.rows, listing, buyer, Pending).None?
    requires ForeignBuyer(w, listing, buyer) && MintedFor(w, order, listing, buyer) && w.minted[order].amount == amount
    ensures Inv(mac, End(Opened(w, listing, buyer, order, amount), c, OrderCreated))
  {
    FromInv(mac, w, NOBODY);
    OpenedRows(w, listing, buyer, order, amount);
    OpenedMoves(mac, w, listing, buyer, order, amount);
    RowsMoveInv(mac, w, Opened(w, listing, buyer, order, amount));
    EndInv(mac, Opened(w, listing, buyer, order, amount), c, OrderCreated);
  }

  // ── Completion ────────────────────────────────────────────────────────────

  lemma SoldRows(w: World, v: Verify, row: nat, inst: nat)
    requires RowsOk(w) && row < |w.rows| && Is(w.rows[row], v.listing, v.buyer, Pending)
    requires NoneCompleted(w.rows, v.listing, v.buyer) && MintedFor(w, v.order, v.listing, v.buyer)
    requires (v.buyer, v.listing) in w.slots && w.slots[(v.buyer, v.listing)].id == inst
    ensures Grows(w, Sold(w, v, row, inst)) && RowsOk(Sold(w, v, row, inst))
  {
  }

  lemma SoldHasSales(mac: Mac, w: World, v: Verify, row: nat, inst: nat)
    requires SalesOk(mac, w) && row < |w.rows|
    ensures var w' := Sold(w, v, row, inst);
      forall i :: 0 <= i < |w'.rows| && w'.rows[i].status == Completed ==>
        exists k :: 0 <= k < |w'.sales| && w'.sales[k].row == i
  {
    var w' := Sold(w, v, row, inst);
    forall i | 0 <= i < |w'.rows| && w'.rows[i].status == Completed
      ensures exists k :: 0 <= k < |w'.sales| && w'.sales[k].row == i
    {
      if i == row {
        assert w'.sales[|w.sales|].row == i;
      } else {
        var k :| 0 <= k < |w.sales| && w.sales[k].row == i;
        assert w'.sales[k].row == i;
      }
    }
  }

  lemma SoldSales(mac: Mac, w: World, v: Verify, row: nat, inst: nat)
    requires RowsOk(w) && SalesOk(mac, w) && row < |w.rows| && Is(w.rows[row], v.listing, v.buyer, Pending)
    requires ValidSignature(mac, v) && Grows(w, Sold(w, v, row, inst))
    ensures SalesOk(mac, Sold(w, v, row, inst))
  {
    var w' := Sold(w, v, row, inst);
    var n := |w.sales|;
    assert RowOk(w, w.rows[row]);
    forall k | 0 <= k < |w'.sales| ensures SaleOk(mac, w', w'.sales[k]) {
      if k < n { assert SaleOk(mac, w, w.sales[k]); }
    }
    SoldHasSales(mac, w, v, row, inst);
    forall j | 0 <= j < n ensures w.sales[j].row != row {
      assert SaleOk(mac, w, w.sales[j]);
    }
  }

  lemma SoldCounts(w: World, v: Verify, row: nat, inst: nat)
    requires CountsOk(w) && row < |w.rows|
    ensures CountsOk(Sold(w, v, row, inst))
  {
  }

  /** Everybody else of the same pair is kept out: a lock would block the commit, a second install is impossible. */
  lemma SoldMoves(mac: Mac, w: World, c: Id, v: Verify, row: nat, inst: nat)
    requires RowsOk(w) && Others(mac, w, c) && OneCompleting(w)
    requires c in w.callers && w.callers[c] == Installed(v, row, inst)
    requires row < |w.rows| && row !in w.locks && Is(w.rows[row], v.listing, v.buyer, Pending)
    ensures OnlyMoves(w, Sold(w, v, row, inst), c)
  {
    var w' := Sold(w, v, row, inst);
    forall d | d in w.callers && d != c && (w.callers[d].Locked? || w.callers[d].Installed?)
      ensures w.callers[d].row < |w.rows| && w.callers[d].row != row
      ensures w.callers[d].v.listing != v.listing || w.callers[d].v.buyer != v.buyer
    {
      assert PhaseOk(mac, w, d, w.callers[d]);
    }
    forall d | d in w.callers && d != c && (w.callers[d].Locked? || w.callers[d].Installed?)
      ensures NoneCompleted(w'.rows, w.callers[d].v.listing, w.callers[d].v.buyer)
      ensures Is(w'.rows[w.callers[d].row], w.callers[d].v.listing, w.callers[d].v.buyer, Pending)
    {
      assert PhaseOk(mac, w, d, w.callers[d]);
    }
  }

  lemma SoldAnswered(w: World, v: Verify, row: nat, inst: nat)
    requires row < |w.rows| && Is(w.rows[row], v.listing, v.buyer, Pending)
    ensures Answered(Sold(w, v, row, inst), v.listing, v.buyer, v.payment, Some(inst))
  {
    var rows := Sold(w, v, row, inst).rows;
    assert Is(rows[row], v.listing, v.buyer, Completed) && rows[row].payment == Some(v.payment);
  }

  /** Ending c's request on a world that is in order for everybody else. */
  lemma EndFromOthers(mac: Mac, w: World, c: Id, reply: Reply)
    requires RowsOk(w) && SalesOk(mac, w) && PlacementsOk(mac, w) && CountsOk(w) && Others(mac, w, c)
    requires reply.Ready? ==> Answered(w, reply.listing, reply.buyer, reply.payment, reply.installation)
    ensures Inv(mac, End(w, c, reply))
  {
    var w' := End(w, c, reply);
    GoFacts(mac, w, c, Done(reply));
    AlikeOnlyMoves(mac, w, w', c);
    OthersFrame(mac, w, w', c);
    RowsFrame(w, w');
    SalesFrame(mac, w, w');
    PlacementsFrame(mac, w, w');
    CountsFrame(w, w');
    Close(mac, w', c);
  }

  lemma VerifyCompleteInv(mac: Mac, w: World, c: Id)
    requires Inv(mac, w)
    ensures Inv(mac, StepVerifyComplete(w, c))
  {
    if c in w.callers && w.callers[c].Installed? && w.callers[c].row !in w.locks {
      var Installed(v, row, inst) := w.callers[c];
      assert PhaseOk(mac, w, c, w.callers[c]);
      SoldInv(mac, w, c, v, row, inst);
    }
  }

  lemma SoldInv(mac: Mac, w: World, c: Id, v: Verify, row: nat, inst: nat)
    requires Inv(mac, w) && c in w.callers && w.callers[c] == Installed(v, row, inst) && row !in w.locks
    requires PhaseOk(mac, w, c, w.callers[c])
    ensures Inv(mac, End(Sold(w, v, row, inst), c, Ready(v.listing, v.buyer, v.payment, Some(inst))))
  {
    var w' := Sold(w, v, row, inst);
    FromInv(mac, w, c);
    SoldRows(w, v, row, inst);
    SoldSales(mac, w, v, row, inst);
    SoldCounts(w, v, row, inst);
    SoldMoves(mac, w, c, v, row, inst);
    SoldAnswered(w, v, row, inst);
    OthersFrame(mac, w, w', c);
    PlacementsFrame(mac, w, w');
    EndFromOthers(mac, w', c, Ready(v.listing, v.buyer, v.payment, Some(inst)));
  }

  lemma DirectFinishInv(mac: Mac, w: World, c: Id)
    requires Inv(mac, w)
    ensures Inv(mac, StepDirectFinish(w, c))
  {
    if c in w.callers && w.callers[c].Placed? {
      var Placed(listing, buyer, purchase, inst) := w.callers[c];
      assert PhaseOk(mac, w, c, w.callers[c]);
      LinkedIsSame(w, listing, buyer, purchase, inst);
      DirectInv(mac, w, c, listing, inst);
    }
  }

  /** Re-linking a completed purchase after a direct install changes nothing: the marketplace row keeps its id. */
  lemma LinkedIsSame(w: World, listing: Id, buyer: Id, purchase: Option<nat>, inst: nat)
    requires RowsOk(w)
    requires purchase.Some? ==> purchase.value < |w.rows| && Is(w.rows[purchase.value], listing, buyer, Completed)
    requires (buyer, listing) in w.slots && w.slots[(buyer, listing)].id == inst
    ensures Linked(w.rows, purchase, inst) == w.rows
  {
  }

  lemma DirectInv(mac: Mac, w: World, c: Id, listing: Id, inst: nat)
    requires Inv(mac, w)
    ensures Inv(mac, End(w.(listings := Counted(w.listings, listing), directs := w.directs + [listing]),
                         c, DirectlyInstalled(inst)))
  {
    var w' := w.(listings := Counted(w.listings, listing), directs := w.directs + [listing]);
    DirectCounts(w, listing);
    DirectFacts(w, listing);
    FromInv(mac, w, c);
    AlikeButDirects(mac, w, listing, c);
    OthersFrame(mac, w, w', c);
    RowsFrame(w, w');
    SalesFrame(mac, w, w');
    PlacementsFrame(mac, w, w');
    EndFromOthers(mac, w', c, DirectlyInstalled(inst));
  }

  lemma DirectCounts(w: World, listing: Id)
    requires CountsOk(w)
    ensures CountsOk(w.(listings := Counted(w.listings, listing), directs := w.directs + [listing]))
  {
    assert (w.directs + [listing])[..|w.directs|] == w.directs;
  }

  lemma DirectFacts(w: World, listing: Id)
    ensures Grows(w, w.(listings := Counted(w.listings, listing), directs := w.directs + [listing]))
  {
  }

  lemma AlikeButDirects(mac: Mac, w: World, listing: Id, c: int)
    requires Others(mac, w, c)
    ensures OnlyMoves(w, w.(listings := Counted(w.listings, listing), directs := w.directs + [listing]), c)
  {
    forall d | d != c && d in w.callers ensures PhaseOk(mac, w, d, w.callers[d]) {}
  }

  lemma StepInv(mac: Mac, w: World, e: Event)
    requires Inv(mac, w)
    ensures Inv(mac, Step(mac, w, e))
  {
    match e
    case OrderGate(c, listing, buyer, order) => OrderGateInv(mac, w, c, listing, buyer, order);
    case OrderCommit(c) => OrderCommitInv(mac, w, c);
    case VerifyLock(c, v) => VerifyLockInv(mac, w, c, v);
    case VerifyInstall(c, outcome) => VerifyInstallInv(mac, w, c, outcome);
    case VerifyComplete(c) => VerifyCompleteInv(mac, w, c);
    case VerifyFold(c) => VerifyFoldInv(mac, w, c);
    case DirectGate(c, listing, buyer) => DirectGateInv(mac, w, c, listing, buyer);
    case DirectInstall(c, outcome) => DirectInstallInv(mac, w, c, outcome);
    case DirectFinish(c) => DirectFinishInv(mac, w, c);
    case Crash(c) => CrashInv(mac, w, c);
    case Uninstall(listing, buyer) => UninstallInv(mac, w, listing, buyer);
    case MarketInstall(listing, buyer) =>
      if !Occupied(w.slots, buyer, listing) { SlotInv(mac, w, listing, buyer, Live); }
    case EditListing(listing, bps, published, free, price) => EditInv(mac, w, listing, bps, published, free, price);
  }

  lemma {:induction false} RunInv(mac: Mac, w: World, events: seq<Event>)
    requires Inv(mac, w)
    ensures Inv(mac, Run(mac, w, events))
    decreases |events|
  {
    if events != [] {
      StepInv(mac, w, events[0]);
      RunInv(mac, Step(mac, w, events[0]), events[1..]);
    }
  }
}

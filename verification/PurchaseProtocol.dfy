/** The paid-install protocol of the agent store as a state machine.

    One event is one commit (or one refused request) of one caller; any number of callers interleave.
    An event whose caller is not waiting for it, or whose row is locked by another caller, changes nothing. */
module PurchaseProtocol {
  import opened Wrappers
  import opened RevenueSplit

  type Id = nat

  /** The payment gateway's signature of an order and a payment. */
  type Mac = string -> string

  datatype Listing = Listing(publisher: Id, bps: int, published: bool, free: bool, price: int, installCount: nat)

  datatype Status = Pending | Completed

  datatype Purchase = Purchase(
    listing: Id, buyer: Id, status: Status,
    order: string, payment: Option<string>,
    amount: int, publisherShare: int, platformShare: int,
    installation: Option<nat>)

  /** The marketplace row of one (company, template); a listing owns exactly one template.
      The row is revived after an uninstall, so its id never changes. A failed install keeps the row. */
  datatype SlotState = Live | Broken | Removed
  datatype Slot = Slot(id: nat, state: SlotState)

  datatype Mint = Mint(listing: Id, buyer: Id, amount: int)

  datatype Verify = Verify(buyer: Id, listing: Id, order: string, payment: string, signature: string)

  datatype Reply =
    | OrderCreated
    | Ready(listing: Id, buyer: Id, payment: string, installation: Option<nat>)
    | DirectlyInstalled(inst: nat)
    | Refused(reason: Refusal)

  datatype Refusal =
    NotAvailable | OwnListing | IsFree | PaymentRequired | BadPrice | BadSignature
    | NoGateway | AlreadyPurchased | NoPendingPurchase | WrongOrder | RetryLater | InstallFailed | AlreadyInstalled | Lost

  datatype Phase =
    | Ordering(listing: Id, buyer: Id, order: string, amount: int)
    | Locked(v: Verify, row: nat)
    | Installed(v: Verify, row: nat, inst: nat)
    | Conflicted(v: Verify)
    | Cleared(listing: Id, buyer: Id, purchase: Option<nat>)
    | Placed(listing: Id, buyer: Id, purchase: Option<nat>, inst: nat)
    | Done(reply: Reply)

  /** History: one entry per execution of the completing commit. pricedBy is the order the booked amount came from. */
  datatype Sale = Sale(row: nat, listing: Id, buyer: Id, order: string, payment: string, signature: string,
                       pricedBy: string, bps: int, amount: int, publisherShare: int, platformShare: int, inst: nat)

  datatype Cause = ByVerify(v: Verify) | ByPurchase(row: nat) | BySawFree

  /** History: one entry per marketplace install the store triggered. */
  datatype Placement = Placement(listing: Id, buyer: Id, cause: Cause)

  /** directs is a history too: one entry per counted direct install. */
  datatype World = World(
    listings: map<Id, Listing>,
    rows: seq<Purchase>,
    slots: map<(Id, Id), Slot>,
    locks: map<nat, Id>,
    callers: map<Id, Phase>,
    minted: map<string, Mint>,
    sales: seq<Sale>,
    placements: seq<Placement>,
    directs: seq<Id>,
    gateway: bool)   // the payment gateway is configured

  datatype Outcome = Accepted | Rejected | ConnectFailed

  datatype Event =
    | OrderGate(c: Id, listing: Id, buyer: Id, order: string)
    | OrderCommit(c: Id)
    | VerifyLock(c: Id, v: Verify)
    | VerifyInstall(c: Id, outcome: Outcome)
    | VerifyComplete(c: Id)
    | VerifyFold(c: Id)
    | DirectGate(c: Id, listing: Id, buyer: Id)
    | DirectInstall(c: Id, outcome: Outcome)
    | DirectFinish(c: Id)
    | Crash(c: Id)
    | Uninstall(listing: Id, buyer: Id)
    | MarketInstall(listing: Id, buyer: Id)
    | EditListing(listing: Id, bps: int, published: bool, free: bool, price: int)

  // ── Row lookups ───────────────────────────────────────────────────────────

  predicate Is(p: Purchase, listing: Id, buyer: Id, status: Status)
  {
    p.listing == listing && p.buyer == buyer && p.status == status
  }

  /** The first row of this pair with this status. */
  function Find(rows: seq<Purchase>, listing: Id, buyer: Id, status: Status): (r: Option<nat>)
    ensures r.Some? ==> r.value < |rows| && Is(rows[r.value], listing, buyer, status)
    ensures r.None? ==> forall i :: 0 <= i < |rows| ==> !Is(rows[i], listing, buyer, status)
  {
    if rows == [] then None
    else
      var last := |rows| - 1;
      var r := Find(rows[..last], listing, buyer, status);
      if r.Some? then r
      else if Is(rows[last], listing, buyer, status) then Some(last)
      else None
  }

  predicate Occupied(slots: map<(Id, Id), Slot>, buyer: Id, listing: Id)
  {
    (buyer, listing) in slots && slots[(buyer, listing)].state != Removed
  }

  /** The slot row after an install attempt that got as far as writing it. */
  function Written(slots: map<(Id, Id), Slot>, buyer: Id, listing: Id, state: SlotState): Slot
  {
    var id := if (buyer, listing) in slots then slots[(buyer, listing)].id else |slots|;
    Slot(id, state)
  }

  function Unlock(locks: map<nat, Id>, c: Id): map<nat, Id>
  {
    map r | r in locks && locks[r] != c :: locks[r]
  }

  predicate ValidSignature(mac: Mac, v: Verify)
  {
    v.signature == mac(v.order + "|" + v.payment)
  }

  // ── Steps ─────────────────────────────────────────────────────────────────

  /** Move to the next phase, giving up any lock. */
  function Go(w: World, c: Id, p: Phase): World
  {
    w.(callers := w.callers[c := p], locks := Unlock(w.locks, c))
  }

  function End(w: World, c: Id, reply: Reply): World
  {
    Go(w, c, Done(reply))
  }

  /** Why create_purchase_order refuses, in the order it checks. */
  function OrderRefusal(w: World, listing: Id, buyer: Id): (r: Option<Refusal>)
    ensures r.None? ==> listing in w.listings && w.listings[listing].publisher != buyer && w.listings[listing].price > 0
  {
    if listing !in w.listings || !w.listings[listing].published then Some(NotAvailable)
    else if w.listings[listing].publisher == buyer then Some(OwnListing)
    else if w.listings[listing].free then Some(IsFree)
    else if Find(w.rows, listing, buyer, Completed).Some? then Some(AlreadyPurchased)
    else if !w.gateway then Some(NoGateway)
    else if w.listings[listing].price <= 0 then Some(BadPrice)
    else None
  }

  function StepOrderGate(w: World, c: Id, listing: Id, buyer: Id, order: string): World
  {
    if c in w.callers || order in w.minted then w
    else
      match OrderRefusal(w, listing, buyer)
      case Some(reason) => End(w, c, Refused(reason))
      case None => Minted(w, c, order, Mint(listing, buyer, w.listings[listing].price))
  }

  function Minted(w: World, c: Id, order: string, m: Mint): World
  {
    w.(minted := w.minted[order := m], callers := w.callers[c := Ordering(m.listing, m.buyer, order, m.amount)])
  }

  function StepOrderCommit(w: World, c: Id): World
  {
    if c !in w.callers || !w.callers[c].Ordering? then w
    else
      var Ordering(listing, buyer, order, amount) := w.callers[c];
      match Find(w.rows, listing, buyer, Pending)
      case Some(i) => if i in w.locks then w else End(Repriced(w, i, order, amount), c, OrderCreated)
      case None => End(Opened(w, listing, buyer, order, amount), c, OrderCreated)
  }

  function Repriced(w: World, i: nat, order: string, amount: int): World
    requires i < |w.rows|
  {
    w.(rows := w.rows[i := w.rows[i].(order := order, amount := amount)])
  }

  function Opened(w: World, listing: Id, buyer: Id, order: string, amount: int): World
  {
    w.(rows := w.rows + [Purchase(listing, buyer, Pending, order, None, amount, 0, 0, None)])
  }

  function ReplayReply(p: Purchase, v: Verify): Reply
  {
    if p.payment == Some(v.payment)
    then Ready(v.listing, v.buyer, v.payment, p.installation)
    else Refused(AlreadyPurchased)
  }

  datatype Lookup = Answer(reply: Reply) | Take(row: nat) | Wait

  /** What verify decides under the row lock. It waits while another caller holds the row. */
  function VerifyLookup(mac: Mac, w: World, v: Verify): (r: Lookup)
    ensures r.Take? ==>
      && v.listing in w.listings && w.listings[v.listing].publisher != v.buyer && ValidSignature(mac, v)
      && r.row < |w.rows| && Is(w.rows[r.row], v.listing, v.buyer, Pending)
      && r.row !in w.locks && w.rows[r.row].order == v.order
      && forall i :: 0 <= i < |w.rows| ==> !Is(w.rows[i], v.listing, v.buyer, Completed)
    ensures r.Answer? && r.reply.Ready? ==>
      && r.reply.listing == v.listing && r.reply.buyer == v.buyer && r.reply.payment == v.payment
      && exists i :: 0 <= i < |w.rows| && Is(w.rows[i], v.listing, v.buyer, Completed)
                  && w.rows[i].payment == Some(v.payment) && w.rows[i].installation == r.reply.installation
  {
    if v.listing !in w.listings || !w.listings[v.listing].published then Answer(Refused(NotAvailable))
    else if w.listings[v.listing].publisher == v.buyer then Answer(Refused(OwnListing))
    else if !w.gateway then Answer(Refused(NoGateway))
    else if !ValidSignature(mac, v) then Answer(Refused(BadSignature))
    else
      match Find(w.rows, v.listing, v.buyer, Completed)
      case Some(i) => if i in w.locks then Wait else Answer(ReplayReply(w.rows[i], v))
      case None =>
        match Find(w.rows, v.listing, v.buyer, Pending)
        case None => Answer(Refused(NoPendingPurchase))
        case Some(i) =>
          if i in w.locks then Wait
          else if w.rows[i].order != v.order then Answer(Refused(WrongOrder))
          else Take(i)
  }

  function StepVerifyLock(mac: Mac, w: World, c: Id, v: Verify): World
  {
    if c in w.callers then w
    else
      match VerifyLookup(mac, w, v)
      case Answer(reply) => End(w, c, reply)
      case Wait => w
      case Take(row) => Held(w, c, v, row)
  }

  function Held(w: World, c: Id, v: Verify, row: nat): World
  {
    w.(locks := w.locks[row := c], callers := w.callers[c := Locked(v, row)])
  }

  function WriteSlot(w: World, listing: Id, buyer: Id, state: SlotState): World
  {
    w.(slots := w.slots[(buyer, listing) := Written(w.slots, buyer, listing, state)])
  }

  function Place(w: World, c: Id, listing: Id, buyer: Id, cause: Cause, p: Phase): World
  {
    Go(WriteSlot(w, listing, buyer, Live).(placements := w.placements + [Placement(listing, buyer, cause)]), c, p)
  }

  function StepVerifyInstall(w: World, c: Id, outcome: Outcome): World
  {
    if c !in w.callers || !w.callers[c].Locked? then w
    else
      var Locked(v, row) := w.callers[c];
      if Occupied(w.slots, v.buyer, v.listing) then Go(w, c, Conflicted(v))
      else
        match outcome
        case Rejected => End(w, c, Refused(InstallFailed))
        case ConnectFailed => End(WriteSlot(w, v.listing, v.buyer, Broken), c, Refused(InstallFailed))
        case Accepted =>
          Place(w, c, v.listing, v.buyer, ByVerify(v),
                Installed(v, row, Written(w.slots, v.buyer, v.listing, Live).id))
  }

  function RateOf(w: World, listing: Id): int
  {
    if listing in w.listings then w.listings[listing].bps else 7000
  }

  /** The completing commit. It does not look at the row's status; the amount is the row's amount as it is now,
      while the metadata written back is the copy taken under the lock. */
  function CompletedRow(w: World, v: Verify, p: Purchase, inst: nat): Purchase
  {
    var shares := Split(p.amount, RateOf(w, v.listing));
    p.(status := Completed, order := v.order, payment := Some(v.payment),
       publisherShare := shares.publisher, platformShare := shares.platform, installation := Some(inst))
  }

  function Counted(listings: map<Id, Listing>, listing: Id): map<Id, Listing>
  {
    if listing in listings
    then listings[listing := listings[listing].(installCount := listings[listing].installCount + 1)]
    else listings
  }

  function StepVerifyComplete(w: World, c: Id): World
  {
    if c !in w.callers || !w.callers[c].Installed? then w
    else
      var Installed(v, row, inst) := w.callers[c];
      if row >= |w.rows| || row in w.locks then w
      else End(Sold(w, v, row, inst), c, Ready(v.listing, v.buyer, v.payment, Some(inst)))
  }

  function SaleOf(w: World, v: Verify, row: nat, inst: nat): Sale
    requires row < |w.rows|
  {
    var now := CompletedRow(w, v, w.rows[row], inst);
    Sale(row, v.listing, v.buyer, v.order, v.payment, v.signature, w.rows[row].order,
         RateOf(w, v.listing), now.amount, now.publisherShare, now.platformShare, inst)
  }

  function Sold(w: World, v: Verify, row: nat, inst: nat): World
    requires row < |w.rows|
  {
    w.(rows := w.rows[row := CompletedRow(w, v, w.rows[row], inst)],
       listings := Counted(w.listings, v.listing),
       sales := w.sales + [SaleOf(w, v, row, inst)])
  }

  /** After a conflict verify rolls back and re-reads: the completed purchase of this payment, or "retry". */
  function FoldReply(w: World, v: Verify): (r: Reply)
    ensures r.Ready? ==>
      && r.listing == v.listing && r.buyer == v.buyer && r.payment == v.payment
      && exists i :: 0 <= i < |w.rows| && Is(w.rows[i], v.listing, v.buyer, Completed)
                  && w.rows[i].payment == Some(v.payment) && w.rows[i].installation == r.installation
  {
    match Find(w.rows, v.listing, v.buyer, Completed)
    case Some(i) =>
      var reply := ReplayReply(w.rows[i], v);
      if reply.Ready? then reply else Refused(RetryLater)
    case None => Refused(RetryLater)
  }

  function StepVerifyFold(w: World, c: Id): World
  {
    if c !in w.callers || !w.callers[c].Conflicted? then w
    else End(w, c, FoldReply(w, w.callers[c].v))
  }

  datatype Clearance = Deny(reason: Refusal) | Clear(purchase: Option<nat>)

  function DirectClearance(w: World, listing: Id, buyer: Id): (r: Clearance)
    ensures r.Clear? ==>
      && listing in w.listings && w.listings[listing].publisher != buyer
      && (r.purchase.None? ==> w.listings[listing].free)
      && (r.purchase.Some? ==> r.purchase.value < |w.rows| && Is(w.rows[r.purchase.value], listing, buyer, Completed))
  {
    if listing !in w.listings || !w.listings[listing].published then Deny(NotAvailable)
    else if w.listings[listing].publisher == buyer then Deny(OwnListing)
    else if w.listings[listing].free then Clear(None)
    else
      match Find(w.rows, listing, buyer, Completed)
      case None => Deny(PaymentRequired)
      case Some(i) => Clear(Some(i))
  }

  function StepDirectGate(w: World, c: Id, listing: Id, buyer: Id): World
  {
    if c in w.callers then w
    else
      match DirectClearance(w, listing, buyer)
      case Deny(reason) => End(w, c, Refused(reason))
      case Clear(purchase) => Go(w, c, Cleared(listing, buyer, purchase))
  }

  function StepDirectInstall(w: World, c: Id, outcome: Outcome): World
  {
    if c !in w.callers || !w.callers[c].Cleared? then w
    else
      var Cleared(listing, buyer, purchase) := w.callers[c];
      if Occupied(w.slots, buyer, listing) then End(w, c, Refused(AlreadyInstalled))
      else
        match outcome
        case Rejected => End(w, c, Refused(InstallFailed))
        case ConnectFailed => End(WriteSlot(w, listing, buyer, Broken), c, Refused(InstallFailed))
        case Accepted =>
          Place(w, c, listing, buyer, if purchase.Some? then ByPurchase(purchase.value) else BySawFree,
                Placed(listing, buyer, purchase, Written(w.slots, buyer, listing, Live).id))
  }

  function StepDirectFinish(w: World, c: Id): World
  {
    if c !in w.callers || !w.callers[c].Placed? then w
    else
      var Placed(listing, buyer, purchase, inst) := w.callers[c];
      if purchase.Some? && purchase.value in w.locks then w
      else
        End(w.(listings := Counted(w.listings, listing), directs := w.directs + [listing],
               rows := Linked(w.rows, purchase, inst)),
            c, DirectlyInstalled(inst))
  }

  function Linked(rows: seq<Purchase>, purchase: Option<nat>, inst: nat): seq<Purchase>
  {
    if purchase.Some? && purchase.value < |rows|
    then rows[purchase.value := rows[purchase.value].(installation := Some(inst))]
    else rows
  }

  /** The caller dies between two commits; the database drops its lock. */
  function StepCrash(w: World, c: Id): World
  {
    if c !in w.callers || w.callers[c].Done? then w else End(w, c, Refused(Lost))
  }

  predicate Completing(w: World, listing: Id, buyer: Id)
  {
    exists c | c in w.callers ::
      && w.callers[c].Installed?
      && w.callers[c].v.listing == listing && w.callers[c].v.buyer == buyer
  }

  /** Uninstalling is kept out of the window between an install commit and its completing commit. */
  function StepUninstall(w: World, listing: Id, buyer: Id): World
  {
    if !Occupied(w.slots, buyer, listing) || Completing(w, listing, buyer) then w
    else w.(slots := w.slots[(buyer, listing) := w.slots[(buyer, listing)].(state := Removed)])
  }

  /** An install made through the marketplace itself, not through the store. */
  function StepMarketInstall(w: World, listing: Id, buyer: Id): World
  {
    if Occupied(w.slots, buyer, listing) then w
    else WriteSlot(w, listing, buyer, Live)
  }

  function StepEdit(w: World, listing: Id, bps: int, published: bool, free: bool, price: int): World
  {
    if listing !in w.listings then w
    else w.(listings := w.listings[listing :=
              w.listings[listing].(bps := bps, published := published, free := free, price := price)])
  }

  function Step(mac: Mac, w: World, e: Event): World
  {
    match e
    case OrderGate(c, listing, buyer, order) => StepOrderGate(w, c, listing, buyer, order)
    case OrderCommit(c) => StepOrderCommit(w, c)
    case VerifyLock(c, v) => StepVerifyLock(mac, w, c, v)
    case VerifyInstall(c, outcome) => StepVerifyInstall(w, c, outcome)
    case VerifyComplete(c) => StepVerifyComplete(w, c)
    case VerifyFold(c) => StepVerifyFold(w, c)
    case DirectGate(c, listing, buyer) => StepDirectGate(w, c, listing, buyer)
    case DirectInstall(c, outcome) => StepDirectInstall(w, c, outcome)
    case DirectFinish(c) => StepDirectFinish(w, c)
    case Crash(c) => StepCrash(w, c)
    case Uninstall(listing, buyer) => StepUninstall(w, listing, buyer)
    case MarketInstall(listing, buyer) => StepMarketInstall(w, listing, buyer)
    case EditListing(listing, bps, published, free, price) => StepEdit(w, listing, bps, published, free, price)
  }

  function Run(mac: Mac, w: World, events: seq<Event>): World
    decreases |events|
  {
    if events == [] then w
    else Run(mac, Step(mac, w, events[0]), events[1..])
  }

  /** No purchase, no caller and no install count yet; listings and marketplace rows are arbitrary. */
  predicate Fresh(w: World)
  {
    && w.rows == [] && w.sales == [] && w.placements == [] && w.directs == []
    && w.callers == map[] && w.locks == map[] && w.minted == map[]
    && forall l | l in w.listings :: w.listings[l].installCount == 0
  }
}

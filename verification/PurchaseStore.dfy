/** The agent store's purchase methods, updating rows and counters in place.
    Each method body runs between two commits; its contract is the protocol step it performs. */
module PurchaseStore {
  import opened Wrappers
  import opened RevenueSplit
  import opened PurchaseProtocol

  class Store {
    const mac: Mac
    const gateway: bool
    var listings: map<Id, Listing>
    var rows: seq<Purchase>
    var slots: map<(Id, Id), Slot>
    var locks: map<nat, Id>
    var callers: map<Id, Phase>
    var minted: map<string, Mint>
    var sales: seq<Sale>
    var placements: seq<Placement>
    var directs: seq<Id>

    function State(): World
      reads this
    {
      World(listings, rows, slots, locks, callers, minted, sales, placements, directs, gateway)
    }

    constructor (mac: Mac, gateway: bool, listings: map<Id, Listing>)
      requires forall l :: l in listings ==> listings[l].installCount == 0
      ensures this.mac == mac && this.gateway == gateway && this.listings == listings && slots == map[]
      ensures Fresh(State())
    {
      this.mac, this.gateway, this.listings := mac, gateway, listings;
      rows, slots, locks, callers := [], map[], map[], map[];
      minted, sales, placements, directs := map[], [], [], [];
    }

    method EndRequest(c: Id, reply: Reply)
      modifies this`callers, this`locks
      ensures State() == End(old(State()), c, reply)
    {
      callers := callers[c := Done(reply)];
      locks := Unlock(locks, c);
    }

    method CreatePurchaseOrder(c: Id, listing: Id, buyer: Id, order: string)
      requires c !in callers && order !in minted
      modifies this
      ensures State() == StepOrderGate(old(State()), c, listing, buyer, order)
    {
      if listing !in listings || !listings[listing].published {
        EndRequest(c, Refused(NotAvailable));
        return;
      }
      var row := listings[listing];
      if row.publisher == buyer {
        EndRequest(c, Refused(OwnListing));
      } else if row.free {
        EndRequest(c, Refused(IsFree));
      } else if Find(rows, listing, buyer, Completed).Some? {
        EndRequest(c, Refused(AlreadyPurchased));
      } else if !gateway {
        EndRequest(c, Refused(NoGateway));
      } else if row.price <= 0 {
        EndRequest(c, Refused(BadPrice));
      } else {
        minted := minted[order := Mint(listing, buyer, row.price)];
        callers := callers[c := Ordering(listing, buyer, order, row.price)];
      }
    }

    method RecordPendingPurchase(c: Id)
      requires c in callers && callers[c].Ordering?
      modifies this
      ensures State() == StepOrderCommit(old(State()), c)
    {
      var Ordering(listing, buyer, order, amount) := callers[c];
      var existing := Find(rows, listing, buyer, Pending);
      if existing.Some? {
        if existing.value in locks {
          return;
        }
        var purchase := rows[existing.value];
        purchase := purchase.(order := order, amount := amount);
        rows := rows[existing.value := purchase];
      } else {
        rows := rows + [Purchase(listing, buyer, Pending, order, None, amount, 0, 0, None)];
      }
      EndRequest(c, OrderCreated);
    }

    method LockRelevantPurchase(c: Id, v: Verify)
      requires c !in callers
      modifies this
      ensures State() == StepVerifyLock(mac, old(State()), c, v)
    {
      if v.listing !in listings || !listings[v.listing].published {
        EndRequest(c, Refused(NotAvailable));
      } else if listings[v.listing].publisher == v.buyer {
        EndRequest(c, Refused(OwnListing));
      } else if !gateway {
        EndRequest(c, Refused(NoGateway));
      } else if !ValidSignature(mac, v) {
        EndRequest(c, Refused(BadSignature));
      } else {
        var completed := Find(rows, v.listing, v.buyer, Completed);
        if completed.Some? {
          if completed.value !in locks {
            EndRequest(c, ReplayReply(rows[completed.value], v));
          }
          return;
        }
        var pending := Find(rows, v.listing, v.buyer, Pending);
        if pending.None? {
          EndRequest(c, Refused(NoPendingPurchase));
        } else if pending.value !in locks {
          if rows[pending.value].order != v.order {
            EndRequest(c, Refused(WrongOrder));
          } else {
            locks := locks[pending.value := c];
            callers := callers[c := Locked(v, pending.value)];
          }
        }
      }
    }

    method InstallForPurchase(c: Id, outcome: Outcome)
      requires c in callers && callers[c].Locked?
      modifies this
      ensures State() == StepVerifyInstall(old(State()), c, outcome)
    {
      var Locked(v, row) := callers[c];
      var key := (v.buyer, v.listing);
      if Occupied(slots, v.buyer, v.listing) {
        callers := callers[c := Conflicted(v)];
        locks := Unlock(locks, c);
        return;
      }
      match outcome
      case Rejected =>
        EndRequest(c, Refused(InstallFailed));
      case ConnectFailed =>
        slots := slots[key := Written(slots, v.buyer, v.listing, Broken)];
        EndRequest(c, Refused(InstallFailed));
      case Accepted =>
        var slot := Written(slots, v.buyer, v.listing, Live);
        slots := slots[key := slot];
        placements := placements + [Placement(v.listing, v.buyer, ByVerify(v))];
        callers := callers[c := Installed(v, row, slot.id)];
        locks := Unlock(locks, c);
    }

    method IncrementInstallCount(listing: Id)
      modifies this`listings
      ensures listings == Counted(old(listings), listing)
    {
      if listing in listings {
        var row := listings[listing];
        listings := listings[listing := row.(installCount := row.installCount + 1)];
      }
    }

    method CompletePurchase(c: Id)
      requires c in callers && callers[c].Installed? && callers[c].row < |rows| && callers[c].row !in locks
      modifies this
      ensures State() == StepVerifyComplete(old(State()), c)
    {
      var Installed(v, row, inst) := callers[c];
      ghost var sale := SaleOf(State(), v, row, inst);
      var bps := if v.listing in listings then listings[v.listing].bps else 7000;
      var purchase := rows[row];
      var pricedBy, amount := purchase.order, purchase.amount;
      var publisherShare := HalfEven(amount * bps);
      var platformShare := amount - publisherShare;
      purchase := purchase.(status := Completed, publisherShare := publisherShare, platformShare := platformShare);
      purchase := purchase.(installation := Some(inst), order := v.order, payment := Some(v.payment));
      rows := rows[row := purchase];
      IncrementInstallCount(v.listing);
      sales := sales + [Sale(row, v.listing, v.buyer, v.order, v.payment, v.signature, pricedBy, bps, amount,
                             publisherShare, platformShare, inst)];
      assert sales[|sales| - 1] == sale;
      EndRequest(c, Ready(v.listing, v.buyer, v.payment, Some(inst)));
    }

    method FoldBack(c: Id)
      requires c in callers && callers[c].Conflicted?
      modifies this
      ensures State() == StepVerifyFold(old(State()), c)
    {
      var v := callers[c].v;
      var completed := Find(rows, v.listing, v.buyer, Completed);
      if completed.Some? && rows[completed.value].payment == Some(v.payment) {
        EndRequest(c, Ready(v.listing, v.buyer, v.payment, rows[completed.value].installation));
      } else {
        EndRequest(c, Refused(RetryLater));
      }
    }

    method InstallGate(c: Id, listing: Id, buyer: Id)
      requires c !in callers
      modifies this
      ensures State() == StepDirectGate(old(State()), c, listing, buyer)
    {
      if listing !in listings || !listings[listing].published {
        EndRequest(c, Refused(NotAvailable));
        return;
      }
      var purchase := None;
      if listings[listing].publisher == buyer {
        EndRequest(c, Refused(OwnListing));
        return;
      }
      if !listings[listing].free {
        purchase := Find(rows, listing, buyer, Completed);
        if purchase.None? {
          EndRequest(c, Refused(PaymentRequired));
          return;
        }
      }
      callers := callers[c := Cleared(listing, buyer, purchase)];
      locks := Unlock(locks, c);
    }

    method FinishDirectInstall(c: Id)
      requires c in callers && callers[c].Placed?
      requires callers[c].purchase.Some? ==> callers[c].purchase.value < |rows| && callers[c].purchase.value !in locks
      modifies this
      ensures State() == StepDirectFinish(old(State()), c)
    {
      var Placed(listing, buyer, purchase, inst) := callers[c];
      IncrementInstallCount(listing);
      directs := directs + [listing];
      if purchase.Some? {
        rows := rows[purchase.value := rows[purchase.value].(installation := Some(inst))];
      }
      EndRequest(c, DirectlyInstalled(inst));
    }
  }
}

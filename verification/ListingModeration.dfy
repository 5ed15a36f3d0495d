/** The moderation lifecycle of a store listing: publisher steps, admin steps, and what they can reach together. */
module ListingModeration {
  import opened Wrappers

  datatype Status = Draft | Private | PendingReview | Published | Suspended | Rejected | Archived

  datatype Listing = Listing(status: Status, featured: bool, publishedAt: Option<int>)

  datatype Act =
    | Submit
    | SetStatus(status: Status)
    | Approve(now: int)
    | Reject
    | Suspend
    | Feature
    | Unfeature
    | VerifyBadge

  predicate ByPublisher(a: Act)
  {
    a.Submit? || a.SetStatus?
  }

  predicate Created(l: Listing)
  {
    l.status in {Draft, Private, PendingReview} && !l.featured && l.publishedAt == None
  }

  /** One request; a refused request commits nothing. */
  function Apply(l: Listing, a: Act): Listing
  {
    match a
    case Submit => if l.status in {Draft, Private, Rejected} then l.(status := PendingReview) else l
    case SetStatus(s) =>
      if s !in {Draft, Private, Archived} then l
      else if l.status == Published && s == Archived then l.(status := Archived, featured := false)
      else if l.status in {Draft, Private, Rejected, Archived} then l.(status := s)
      else l
    case Approve(now) =>
      l.(status := Published, publishedAt := if l.publishedAt.Some? then l.publishedAt else Some(now))
    case Reject => l.(status := Rejected)
    case Suspend => l.(status := Suspended, featured := false)
    case Feature => if l.status == Published then l.(featured := true) else l
    case Unfeature => l.(featured := false)
    case VerifyBadge => l
  }

  function Run(l: Listing, acts: seq<Act>): Listing
    decreases |acts|
  {
    if acts == [] then l else Run(Apply(l, acts[0]), acts[1..])
  }

  ghost predicate Reachable(l: Listing)
  {
    exists l0: Listing, acts: seq<Act> :: Created(l0) && Run(l0, acts) == l
  }

  /** What every reachable listing satisfies. */
  predicate Sound(l: Listing)
  {
    && (l.status == Published ==> l.publishedAt.Some?)
    && (l.featured ==> l.publishedAt.Some? && l.status != Suspended)
  }

  lemma {:induction false} RunSound(l: Listing, acts: seq<Act>)
    requires Sound(l)
    ensures Sound(Run(l, acts))
    decreases |acts|
  {
    if acts != [] {
      RunSound(Apply(l, acts[0]), acts[1..]);
    }
  }

  lemma {:induction false} RunAppend(l: Listing, first: seq<Act>, rest: seq<Act>)
    ensures Run(l, first + rest) == Run(Run(l, first), rest)
    decreases |first|
  {
    if first == [] {
      assert first + rest == rest;
    } else {
      assert (first + rest)[1..] == first[1..] + rest;
      RunAppend(Apply(l, first[0]), first[1..], rest);
    }
  }

  lemma Extend(l: Listing, a: Act)
    requires Reachable(l)
    ensures Reachable(Apply(l, a))
  {
    var l0, acts :| Created(l0) && Run(l0, acts) == l;
    RunAppend(l0, acts, [a]);
    assert Run(l, [a]) == Run(Apply(l, a), []);
    assert Run(l0, acts + [a]) == Apply(l, a);
  }

  lemma CreatedReachable(l: Listing)
    requires Created(l)
    ensures Reachable(l)
  {
    assert Run(l, []) == l;
  }

  lemma UnstampedReachable(l: Listing)
    requires Sound(l) && l.publishedAt == None
    ensures Reachable(l)
  {
    var l0 := Listing(Draft, false, None);
    CreatedReachable(l0);
    match l.status
    case Suspended => Extend(l0, Suspend);
    case Rejected => Extend(l0, Reject);
    case Archived => Extend(l0, SetStatus(Archived));
    case _ => CreatedReachable(l);
  }

  lemma StampedReachable(l: Listing)
    requires Sound(l) && l.publishedAt.Some?
    ensures Reachable(l)
  {
    var l0 := Listing(Draft, false, None);
    CreatedReachable(l0);
    Extend(l0, Approve(l.publishedAt.value));
    var shown := Listing(Published, false, l.publishedAt);
    if l.featured {
      Extend(shown, Feature);
    }
    var top := Listing(Published, l.featured, l.publishedAt);
    var turned := Listing(Rejected, l.featured, l.publishedAt);
    Extend(top, Reject);
    match l.status
    case Published =>
    case Rejected =>
    case Suspended => Extend(top, Suspend);
    case PendingReview => Extend(turned, Submit);
    case _ => Extend(turned, SetStatus(l.status));
  }

  /** The reachable listings, exactly: published implies stamped; the featured flag implies stamped and not
      suspended - and nothing more, because a rejection keeps the flag. */
  lemma ReachableExactly(l: Listing)
    ensures Reachable(l) <==> Sound(l)
  {
    if Reachable(l) {
      var l0, acts :| Created(l0) && Run(l0, acts) == l;
      RunSound(l0, acts);
    }
    if Sound(l) {
      if l.publishedAt.None? { UnstampedReachable(l); } else { StampedReachable(l); }
    }
  }

  /** No run of publisher steps publishes a listing or lifts a suspension, and the only way it takes a published
      listing down is into the archive, off the shelf. */
  lemma {:induction false} PublisherStepsAlone(l: Listing, acts: seq<Act>)
    requires forall a :: a in acts ==> ByPublisher(a)
    ensures Run(l, acts).status == Published ==> Run(l, acts) == l
    ensures l.status == Suspended ==> Run(l, acts) == l
    ensures l.status == Published && Run(l, acts) != l ==> !Run(l, acts).featured
    ensures Run(l, acts).featured ==> l.featured
    decreases |acts|
  {
    if acts != [] {
      assert ByPublisher(acts[0]);
      PublisherStepsAlone(Apply(l, acts[0]), acts[1..]);
    }
  }

  ghost predicate PublisherReaches(l: Listing, m: Listing)
  {
    exists acts: seq<Act> :: (forall a :: a in acts ==> ByPublisher(a)) && Run(l, acts) == m
  }

  /** In the publisher's hands: neither suspended nor waiting for the review. */
  predicate Movable(l: Listing)
  {
    l.status != Suspended && l.status != PendingReview
  }

  lemma {:induction false} PublisherStays(l: Listing, acts: seq<Act>)
    requires forall a :: a in acts ==> ByPublisher(a)
    ensures var m := Run(l, acts);
      m == l || (Movable(l) && m.status in {Draft, Private, Archived, PendingReview}
                 && m.publishedAt == l.publishedAt && m.featured == (l.featured && l.status != Published))
    decreases |acts|
  {
    if acts != [] {
      assert ByPublisher(acts[0]);
      PublisherStays(Apply(l, acts[0]), acts[1..]);
    }
  }

  lemma RunActs(l: Listing, a: Act, b: Act)
    ensures Run(l, [a]) == Apply(l, a)
    ensures Run(l, [a, b]) == Apply(Apply(l, a), b)
  {
    assert [a][1..] == [] && [a, b][1..] == [b] && [b][1..] == [];
    assert Run(Apply(l, a), [b]) == Run(Apply(Apply(l, a), b), []);
  }

  lemma PublisherGets(l: Listing, status: Status)
    requires Movable(l) && status in {Draft, Private, Archived, PendingReview}
    ensures PublisherReaches(l, Listing(status, l.featured && l.status != Published, l.publishedAt))
  {
    var m := Listing(status, l.featured && l.status != Published, l.publishedAt);
    var acts :=
      if status == PendingReview then [SetStatus(Archived), SetStatus(Draft)] + [Submit]
      else [SetStatus(Archived), SetStatus(status)];
    RunActs(l, SetStatus(Archived), SetStatus(if status == PendingReview then Draft else status));
    if status == PendingReview {
      RunAppend(l, [SetStatus(Archived), SetStatus(Draft)], [Submit]);
      RunActs(m.(status := Draft), Submit, Submit);
    }
    assert Run(l, acts) == m;
  }

  /** What a publisher can make of a listing without an admin, exactly: nothing of a suspended one or one under review;
      any other can become a draft, private, archived or submitted, a published one losing the flag, and the first
      publication date stays. */
  lemma PublisherReachesExactly(l: Listing, m: Listing)
    ensures PublisherReaches(l, m) <==>
      m == l || (Movable(l) && m.status in {Draft, Private, Archived, PendingReview}
                 && m.publishedAt == l.publishedAt && m.featured == (l.featured && l.status != Published))
  {
    if PublisherReaches(l, m) {
      var acts: seq<Act> :| (forall a :: a in acts ==> ByPublisher(a)) && Run(l, acts) == m;
      PublisherStays(l, acts);
    }
    if m == l {
      assert Run(l, []) == m;
    } else if Movable(l) && m.status in {Draft, Private, Archived, PendingReview} {
      PublisherGets(l, m.status);
    }
  }

  lemma {:induction false} FirstPublicationIsKept(l: Listing, acts: seq<Act>)
    requires l.publishedAt.Some?
    ensures Run(l, acts).publishedAt == l.publishedAt
    decreases |acts|
  {
    if acts != [] {
      FirstPublicationIsKept(Apply(l, acts[0]), acts[1..]);
    }
  }

  /** Who put the flag up: whenever a run ends featured, either it started so or at some point an admin
      featured the listing while it was published, and nothing since took the flag down. */
  lemma {:induction false} FeaturedHasACause(l: Listing, acts: seq<Act>) returns (k: nat)
    requires Run(l, acts).featured && !l.featured
    ensures k < |acts| && acts[k] == Feature && Run(l, acts[..k]).status == Published
    ensures forall j :: k < j <= |acts| ==> Run(l, acts[..j]).featured
    decreases |acts|
  {
    var last := |acts| - 1;
    assert acts == acts[..last] + [acts[last]];
    RunAppend(l, acts[..last], [acts[last]]);
    var before := Run(l, acts[..last]);
    assert Run(before, [acts[last]]) == Run(Apply(before, acts[last]), []);
    assert acts[..|acts|] == acts;
    if before.featured {
      k := FeaturedHasACause(l, acts[..last]);
      assert acts[..last][..k] == acts[..k];
      forall j | k < j <= |acts| ensures Run(l, acts[..j]).featured {
        if j <= last { assert acts[..last][..j] == acts[..j]; }
      }
    } else {
      k := last;
    }
  }

  /** storefront: published first, then the flag, then the first twelve. */
  function FeaturedShelf(listings: seq<Listing>): (shelf: seq<Listing>)
    ensures |shelf| <= 12 && shelf <= Featured(listings)
    ensures forall l :: l in shelf ==> l in listings && l.status == Published && l.featured
    ensures forall l :: l in listings && l.status == Published && l.featured ==> l in shelf || |shelf| == 12
  {
    var shown := Featured(listings);
    if |shown| <= 12 then shown else shown[..12]
  }

  function Featured(listings: seq<Listing>): (shown: seq<Listing>)
    ensures forall l :: l in shown <==> l in listings && l.status == Published && l.featured
  {
    if listings == [] then []
    else
      var head := if listings[0].status == Published && listings[0].featured then [listings[0]] else [];
      head + Featured(listings[1..])
  }

  /** The shelf follows the order of the listings: one more at the end goes to the end. */
  lemma {:induction false} FeaturedInOrder(listings: seq<Listing>, l: Listing)
    ensures Featured(listings + [l]) == Featured(listings) + if l.status == Published && l.featured then [l] else []
  {
    if listings == [] {
      assert listings + [l] == [l] && [l][1..] == [];
    } else {
      assert (listings + [l])[1..] == listings[1..] + [l];
      FeaturedInOrder(listings[1..], l);
    }
  }

  /** A rejection only hides a featured listing: the next approval brings back the very same row,
      flag and first publication included, without anybody featuring it again. */
  lemma RejectionKeepsTheFlag(l: Listing, now: int)
    requires l.status == Published && Sound(l)
    ensures Run(l, [Reject]) == l.(status := Rejected)
    ensures Run(l, [Reject, Submit, Approve(now)]) == l
  {
    var l1 := l.(status := Rejected);
    var l2 := l.(status := PendingReview);
    assert [Reject][1..] == [] && Run(l, [Reject]) == Run(l1, []);
    assert [Reject, Submit, Approve(now)][1..] == [Submit, Approve(now)];
    assert [Submit, Approve(now)][1..] == [Approve(now)] && [Approve(now)][1..] == [];
    assert Run(l, [Reject, Submit, Approve(now)]) == Run(l1, [Submit, Approve(now)]);
    assert Run(l1, [Submit, Approve(now)]) == Run(l2, [Approve(now)]);
    assert Run(l2, [Approve(now)]) == Run(l, []);
  }

  /** The listing row the service updates in place. */
  class ListingRow {
    var status: Status
    var featured: bool
    var publishedAt: Option<int>

    function Value(): Listing
      reads this
    {
      Listing(status, featured, publishedAt)
    }

    constructor (submitForReview: bool, asPrivate: bool)
      ensures Created(Value())
    {
      status := if submitForReview then PendingReview else if asPrivate then Private else Draft;
      featured, publishedAt := false, None;
    }

    method SubmitListing() returns (ok: bool)
      modifies this
      ensures Value() == Apply(old(Value()), Submit)
      ensures ok <==> old(status) in {Draft, Private, Rejected}
      ensures Value() == if ok then old(Value()).(status := PendingReview) else old(Value())
    {
      if status !in {Draft, Private, Rejected} {
        return false;
      }
      status := PendingReview;
      return true;
    }

    method SetListingStatus(target: Status) returns (ok: bool)
      modifies this
      ensures Value() == Apply(old(Value()), SetStatus(target))
      ensures ok <==>
        && target in {Draft, Private, Archived}
        && (old(status) in {Draft, Private, Rejected, Archived} || (old(status) == Published && target == Archived))
      ensures Value() ==
        if ok then Listing(target, old(featured) && old(status) != Published, old(publishedAt)) else old(Value())
    {
      if target !in {Draft, Private, Archived} {
        return false;
      }
      if status == Published && target == Archived {
        status := Archived;
        featured := false;
      } else if status in {Draft, Private, Rejected, Archived} {
        status := target;
      } else {
        return false;
      }
      return true;
    }

    method ModerateListing(action: Act) returns (ok: bool)
      requires !ByPublisher(action)
      modifies this
      ensures Value() == Apply(old(Value()), action)
      ensures ok <==> !(action.Feature? && old(status) != Published)
      ensures status == match action
        case Approve(_) => Published
        case Reject => Rejected
        case Suspend => Suspended
        case _ => old(status)
      ensures featured == match action
        case Feature => ok || old(featured)
        case Suspend => false
        case Unfeature => false
        case _ => old(featured)
      ensures publishedAt == if action.Approve? && old(publishedAt).None? then Some(action.now) else old(publishedAt)
    {
      ok := true;
      match action
      case Approve(now) =>
        status := Published;
        publishedAt := if publishedAt.Some? then publishedAt else Some(now);
      case Reject =>
        status := Rejected;
      case Suspend =>
        status := Suspended;
        featured := false;
      case Feature =>
        var committed := featured;
        featured := true;
        if status != Published {
          featured := committed;  // the request fails before its commit
          ok := false;
        }
      case Unfeature =>
        featured := false;
      case VerifyBadge =>
    }
  }
}

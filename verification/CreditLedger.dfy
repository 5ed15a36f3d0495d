/** The AI credit ledger: reserve, call, then settle or refund, many requests interleaving on one balance.

    The balance column holds four decimals, so every write rounds. One event is one commit, or one failure
    that commits nothing. */
module CreditLedger {

  // ── The balance column ────────────────────────────────────────────────────

  const HALF_UNIT := 0.00005

  /** The nearest multiple of 0.0001, halves away from zero. */
  function Stored(x: real): real
  {
    if x >= 0.0 then (x * 10000.0 + 0.5).Floor as real / 10000.0
    else -((-x * 10000.0 + 0.5).Floor as real / 10000.0)
  }

  function Units(k: int): real
  {
    k as real / 10000.0
  }

  ghost predicate OnGrid(x: real)
  {
    exists k: int :: x == Units(k)
  }

  lemma StoredIsNear(x: real)
    ensures -HALF_UNIT <= Stored(x) - x <= HALF_UNIT
    ensures Stored(x) >= 0.0 <==> x > -HALF_UNIT
  {
  }

  lemma StoredFixesGrid(x: real)
    requires OnGrid(x)
    ensures Stored(x) == x
  {
    var k: int :| x == Units(k);
    if x >= 0.0 {
      assert x * 10000.0 == k as real;
      assert (k as real + 0.5).Floor == k;
    } else {
      assert -x * 10000.0 == (-k) as real;
      assert ((-k) as real + 0.5).Floor == -k;
    }
  }

  lemma GridSum(x: real, y: real)
    requires OnGrid(x) && OnGrid(y)
    ensures OnGrid(x + y) && OnGrid(x - y)
  {
    var j: int :| x == Units(j);
    var k: int :| y == Units(k);
    assert x + y == Units(j + k);
    assert x - y == Units(j - k);
  }

  // ── Requests ──────────────────────────────────────────────────────────────

  datatype Phase =
    | Reserved        // upfront cost taken
    | Created         // request row written, provider phase
    | Abandoned       // failed after the reservation but before the guarded block: never refunded
    | Failing         // an exception before settlement, refund still to come
    | Refunded        // upfront cost given back
    | Stranded        // the refund itself failed
    | Settled         // actual cost charged
    | Reported        // success recorded and answered
    | LateFailing     // an exception after settlement, "refund" still to come
    | OverRefunded    // upfront cost given back on top of the settlement
    | LateStranded    // that refund failed, the settlement stands

  datatype Request = Request(upfront: real, actual: real, phase: Phase)

  datatype Ledger = Ledger(balance: real, requests: seq<Request>, drift: real, writes: nat)

  datatype Event =
    | Reserve(upfront: real)
    | Create(i: nat, ok: bool)
    | ProviderFails(i: nat)
    | Settle(i: nat, actual: real)
    | Report(i: nat, ok: bool)
    | Refund(i: nat, ok: bool)

  /** Write the balance: the column rounds, drift remembers by how much. */
  function Write(l: Ledger, value: real): Ledger
  {
    l.(balance := Stored(value), drift := l.drift + (Stored(value) - value), writes := l.writes + 1)
  }

  function Put(l: Ledger, i: nat, r: Request): Ledger
  {
    if i < |l.requests| then l.(requests := l.requests[i := r]) else l
  }

  function StepReserve(l: Ledger, upfront: real): Ledger
  {
    if l.balance < upfront then l
    else
      var w := Write(l, l.balance - upfront);
      w.(requests := l.requests + [Request(upfront, 0.0, Reserved)])
  }

  function StepRefund(l: Ledger, i: nat, ok: bool): Ledger
    requires i < |l.requests|
  {
    var r := l.requests[i];
    match r.phase
    case Failing =>
      if ok then Put(Write(l, l.balance + r.upfront), i, r.(phase := Refunded)) else Put(l, i, r.(phase := Stranded))
    case LateFailing =>
      if ok then Put(Write(l, l.balance + r.upfront), i, r.(phase := OverRefunded)) else Put(l, i, r.(phase := LateStranded))
    case _ => l
  }

  function Step(l: Ledger, e: Event): Ledger
  {
    if e.Reserve? then StepReserve(l, e.upfront)
    else if e.i >= |l.requests| then l
    else
      var r := l.requests[e.i];
      match e
      case Create(i, ok) => if r.phase != Reserved then l else Put(l, i, r.(phase := if ok then Created else Abandoned))
      case ProviderFails(i) => if r.phase != Created then l else Put(l, i, r.(phase := Failing))
      case Settle(i, actual) =>
        if r.phase != Created then l
        else Put(Write(l, l.balance + (r.upfront - actual)), i, r.(phase := Settled, actual := actual))
      case Report(i, ok) => if r.phase != Settled then l else Put(l, i, r.(phase := if ok then Reported else LateFailing))
      case Refund(i, ok) => StepRefund(l, i, ok)
  }

  function Run(l: Ledger, events: seq<Event>): Ledger
    decreases |events|
  {
    if events == [] then l else Run(Step(l, events[0]), events[1..])
  }

  // ── Conservation ──────────────────────────────────────────────────────────

  /** What a request has taken from the balance so far, failure point by failure point. */
  function NetCharge(r: Request): real
  {
    match r.phase
    case Reserved => r.upfront
    case Created => r.upfront
    case Abandoned => r.upfront
    case Failing => r.upfront
    case Refunded => 0.0
    case Stranded => r.upfront
    case Settled => r.actual
    case Reported => r.actual
    case LateFailing => r.actual
    case OverRefunded => r.actual - r.upfront
    case LateStranded => r.actual
  }

  function Charges(requests: seq<Request>): real
  {
    if requests == [] then 0.0
    else Charges(requests[..|requests| - 1]) + NetCharge(requests[|requests| - 1])
  }

  lemma {:induction false} ChargesUpdate(requests: seq<Request>, i: nat, r: Request)
    requires i < |requests|
    ensures Charges(requests[i := r]) == Charges(requests) - NetCharge(requests[i]) + NetCharge(r)
  {
    var last := |requests| - 1;
    if i == last {
      assert requests[i := r][..last] == requests[..last];
    } else {
      assert requests[i := r][..last] == requests[..last][i := r];
      ChargesUpdate(requests[..last], i, r);
    }
  }

  lemma ChargesAppend(requests: seq<Request>, r: Request)
    ensures Charges(requests + [r]) == Charges(requests) + NetCharge(r)
  {
    assert (requests + [r])[..|requests|] == requests;
  }

  /** Balance plus everything charged, less what rounding moved. */
  function Total(l: Ledger): real
  {
    l.balance + Charges(l.requests) - l.drift
  }

  lemma StepKeepsTotal(l: Ledger, e: Event)
    ensures Total(Step(l, e)) == Total(l)
  {
    if e.Reserve? {
      ChargesAppend(l.requests, Request(e.upfront, 0.0, Reserved));
    } else if e.i < |l.requests| && Step(l, e) != l {
      ChargesUpdate(l.requests, e.i, Step(l, e).requests[e.i]);
    }
  }

  lemma StepDrift(l: Ledger, e: Event)
    requires -(HALF_UNIT * l.writes as real) <= l.drift <= HALF_UNIT * l.writes as real
    ensures var l' := Step(l, e); -(HALF_UNIT * l'.writes as real) <= l'.drift <= HALF_UNIT * l'.writes as real
  {
  }

  predicate Opening(l: Ledger)
  {
    l.requests == [] && l.drift == 0.0 && l.writes == 0
  }

  lemma {:induction false} RunTotal(l: Ledger, events: seq<Event>)
    requires -(HALF_UNIT * l.writes as real) <= l.drift <= HALF_UNIT * l.writes as real
    ensures Total(Run(l, events)) == Total(l)
    ensures var l' := Run(l, events); -(HALF_UNIT * l'.writes as real) <= l'.drift <= HALF_UNIT * l'.writes as real
    decreases |events|
  {
    if events != [] {
      StepKeepsTotal(l, events[0]);
      StepDrift(l, events[0]);
      RunTotal(Step(l, events[0]), events[1..]);
    }
  }

  /** At every commit of every interleaving the balance is the opening balance less the net charges,
      to within half a unit of the column per write. */
  lemma Conservation(l: Ledger, events: seq<Event>)
    requires Opening(l)
    ensures var l' := Run(l, events);
      && l'.balance == l.balance - Charges(l'.requests) + l'.drift
      && -(HALF_UNIT * l'.writes as real) <= l'.drift <= HALF_UNIT * l'.writes as real
  {
    RunTotal(l, events);
  }

  ghost predicate ExactEvent(e: Event)
  {
    (e.Reserve? ==> OnGrid(e.upfront)) && (e.Settle? ==> OnGrid(e.actual))
  }

  ghost predicate ExactLedger(l: Ledger)
  {
    && OnGrid(l.balance) && l.drift == 0.0
    && forall i :: 0 <= i < |l.requests| ==> OnGrid(l.requests[i].upfront) && OnGrid(l.requests[i].actual)
  }

  lemma WriteExact(l: Ledger, value: real)
    requires OnGrid(value)
    ensures Write(l, value).balance == value && Write(l, value).drift == l.drift
  {
    StoredFixesGrid(value);
  }

  lemma StepExact(l: Ledger, e: Event)
    requires ExactLedger(l) && ExactEvent(e)
    ensures ExactLedger(Step(l, e))
  {
    if e.Reserve? {
      GridSum(l.balance, e.upfront);
      WriteExact(l, l.balance - e.upfront);
      assert 0.0 == Units(0) && OnGrid(0.0);
    } else if e.i < |l.requests| {
      var r := l.requests[e.i];
      GridSum(l.balance, r.upfront);
      WriteExact(l, l.balance + r.upfront);
      if e.Settle? {
        GridSum(r.upfront, e.actual);
        GridSum(l.balance, r.upfront - e.actual);
        WriteExact(l, l.balance + (r.upfront - e.actual));
      }
    }
  }

  /** With costs that fit the column nothing is rounded, and the equation is exact. */
  lemma {:induction false} ExactConservation(l: Ledger, events: seq<Event>)
    requires ExactLedger(l) && forall e :: e in events ==> ExactEvent(e)
    ensures ExactLedger(Run(l, events))
    ensures Run(l, events).balance + Charges(Run(l, events).requests) == l.balance + Charges(l.requests)
    decreases |events|
  {
    if events != [] {
      StepExact(l, events[0]);
      StepKeepsTotal(l, events[0]);
      ExactConservation(Step(l, events[0]), events[1..]);
    }
  }

  // ── When the plain promise holds ──────────────────────────────────────────

  /** What the ledger promises a request has cost: the reservation while it runs, the actual cost of an answer,
      nothing for an error. */
  function Promised(r: Request): real
  {
    match r.phase
    case Reserved => r.upfront
    case Created => r.upfront
    case Failing => r.upfront
    case Settled => r.actual
    case Reported => r.actual
    case LateFailing => r.actual
    case _ => 0.0
  }

  function Promises(requests: seq<Request>): real
  {
    if requests == [] then 0.0
    else Promises(requests[..|requests| - 1]) + Promised(requests[|requests| - 1])
  }

  /** What one event takes from the account beyond the promise: the reservation lost when the request row cannot be
      written or the refund fails, and after a late failure the answer's cost, less the reservation given back. */
  function Deviation(l: Ledger, e: Event): real
  {
    if e.Reserve? || e.i >= |l.requests| then 0.0
    else
      var r := l.requests[e.i];
      match e
      case Create(_, false) => if r.phase == Reserved then r.upfront else 0.0
      case Refund(_, false) =>
        if r.phase == Failing then r.upfront else if r.phase == LateFailing then r.actual else 0.0
      case Refund(_, true) => if r.phase == LateFailing then r.actual - r.upfront else 0.0
      case _ => 0.0
  }

  function Deviations(l: Ledger, events: seq<Event>): real
    decreases |events|
  {
    if events == [] then 0.0 else Deviation(l, events[0]) + Deviations(Step(l, events[0]), events[1..])
  }

  lemma {:induction false} PromisesUpdate(requests: seq<Request>, i: nat, r: Request)
    requires i < |requests|
    ensures Promises(requests[i := r]) == Promises(requests) - Promised(requests[i]) + Promised(r)
  {
    var last := |requests| - 1;
    if i == last {
      assert requests[i := r][..last] == requests[..last];
    } else {
      assert requests[i := r][..last] == requests[..last][i := r];
      PromisesUpdate(requests[..last], i, r);
    }
  }

  lemma PromisesAppend(requests: seq<Request>, r: Request)
    ensures Promises(requests + [r]) == Promises(requests) + Promised(r)
  {
    assert (requests + [r])[..|requests|] == requests;
  }

  lemma PhaseDeviates(l: Ledger, e: Event)
    requires !e.Reserve? && e.i < |l.requests|
    ensures |Step(l, e).requests| == |l.requests|
    ensures var r := Step(l, e).requests[e.i];
      && Step(l, e).requests == l.requests[e.i := r]
      && NetCharge(r) - Promised(r) == NetCharge(l.requests[e.i]) - Promised(l.requests[e.i]) + Deviation(l, e)
  {
  }

  lemma StepDeviates(l: Ledger, e: Event)
    ensures var l' := Step(l, e);
      Charges(l'.requests) - Promises(l'.requests) == Charges(l.requests) - Promises(l.requests) + Deviation(l, e)
  {
    if e.Reserve? {
      ChargesAppend(l.requests, Request(e.upfront, 0.0, Reserved));
      PromisesAppend(l.requests, Request(e.upfront, 0.0, Reserved));
    } else if e.i < |l.requests| {
      PhaseDeviates(l, e);
      ChargesUpdate(l.requests, e.i, Step(l, e).requests[e.i]);
      PromisesUpdate(l.requests, e.i, Step(l, e).requests[e.i]);
    }
  }

  lemma {:induction false} RunDeviates(l: Ledger, events: seq<Event>)
    ensures var l' := Run(l, events);
      Charges(l'.requests) - Promises(l'.requests)
        == Charges(l.requests) - Promises(l.requests) + Deviations(l, events)
    decreases |events|
  {
    if events != [] {
      StepDeviates(l, events[0]);
      RunDeviates(Step(l, events[0]), events[1..]);
    }
  }

  /** At every commit of every interleaving the balance misses the promise by exactly what the failures met so far have
      taken, each at its own failure point. */
  lemma DeviationByFailurePoint(l: Ledger, events: seq<Event>)
    requires Opening(l)
    ensures var l' := Run(l, events);
      l'.balance == l.balance - Promises(l'.requests) - Deviations(l, events) + l'.drift
  {
    Conservation(l, events);
    RunDeviates(l, events);
  }

  predicate InsideProviderPhase(e: Event)
  {
    !(e.Create? && !e.ok) && !(e.Report? && !e.ok) && !(e.Refund? && !e.ok)
  }

  predicate NoneLate(l: Ledger)
  {
    forall i :: 0 <= i < |l.requests| ==> l.requests[i].phase != LateFailing
  }

  lemma {:induction false} NoDeviations(l: Ledger, events: seq<Event>)
    requires NoneLate(l) && forall e :: e in events ==> InsideProviderPhase(e)
    ensures Deviations(l, events) == 0.0
    decreases |events|
  {
    if events != [] {
      assert InsideProviderPhase(events[0]);
      NoDeviations(Step(l, events[0]), events[1..]);
    }
  }

  /** If requests fail only inside the provider phase, the balance is the opening balance less outstanding
      reservations and settled actual costs. */
  lemma ConservationInsideProviderPhase(l: Ledger, events: seq<Event>)
    requires Opening(l) && forall e :: e in events ==> InsideProviderPhase(e)
    ensures var l' := Run(l, events); l'.balance == l.balance - Promises(l'.requests) + l'.drift
  {
    DeviationByFailurePoint(l, events);
    NoDeviations(l, events);
  }

  // ── Solvency ──────────────────────────────────────────────────────────────

  /** The exact bounds: a reservation rounds to no less than zero, and a settlement to no more than its reservation. */
  predicate Covered(l: Ledger, e: Event)
  {
    && (e.Reserve? ==> e.upfront > -HALF_UNIT)
    && (e.Settle? && e.i < |l.requests| ==> e.actual < l.requests[e.i].upfront + HALF_UNIT)
  }

  predicate Solvent(l: Ledger)
  {
    l.balance >= 0.0 && forall i :: 0 <= i < |l.requests| ==> l.requests[i].upfront > -HALF_UNIT
  }

  lemma StepSolvent(l: Ledger, e: Event)
    requires Solvent(l) && Covered(l, e)
    ensures Solvent(Step(l, e))
  {
    if e.Reserve? {
      StoredIsNear(l.balance - e.upfront);
    } else if e.i < |l.requests| {
      StoredIsNear(l.balance + l.requests[e.i].upfront);
      if e.Settle? { StoredIsNear(l.balance + (l.requests[e.i].upfront - e.actual)); }
    }
  }

  ghost predicate CoveredRun(l: Ledger, events: seq<Event>)
    decreases |events|
  {
    events == [] || (Covered(l, events[0]) && CoveredRun(Step(l, events[0]), events[1..]))
  }

  /** Then no interleaving overdraws the account, at any commit. */
  lemma {:induction false} NeverOverdrawn(l: Ledger, events: seq<Event>, k: nat)
    requires Solvent(l) && CoveredRun(l, events) && k <= |events|
    ensures Run(l, events[..k]).balance >= 0.0
    decreases |events|
  {
    if k > 0 {
      StepSolvent(l, events[0]);
      assert events[..k][0] == events[0] && events[..k][1..] == events[1..][..k - 1];
      NeverOverdrawn(Step(l, events[0]), events[1..], k - 1);
    }
  }

  function AfterSettlement(balance: real, upfront: real, actual: real): real
  {
    Stored(balance + (upfront - actual))
  }

  /** One settlement can overdraw some account exactly when it exceeds its reservation by half a unit or more. */
  lemma SettlementSafeIff(upfront: real, actual: real)
    ensures (forall balance: real :: balance >= 0.0 ==> AfterSettlement(balance, upfront, actual) >= 0.0)
       <==> actual < upfront + HALF_UNIT
  {
    if actual < upfront + HALF_UNIT {
      forall balance: real | balance >= 0.0 ensures AfterSettlement(balance, upfront, actual) >= 0.0 {
        StoredIsNear(balance + (upfront - actual));
      }
    } else {
      StoredIsNear(0.0 + (upfront - actual));
      assert AfterSettlement(0.0, upfront, actual) < 0.0;
    }
  }

  function AfterRefund(balance: real, upfront: real): real
  {
    Stored(balance + upfront)
  }

  /** One refund can overdraw some account exactly when its reservation is half a unit or more below zero. */
  lemma RefundSafeIff(upfront: real)
    ensures (forall balance: real :: balance >= 0.0 ==> AfterRefund(balance, upfront) >= 0.0) <==> upfront > -HALF_UNIT
  {
    if upfront > -HALF_UNIT {
      forall balance: real | balance >= 0.0 ensures AfterRefund(balance, upfront) >= 0.0 {
        StoredIsNear(balance + upfront);
      }
    } else {
      StoredIsNear(0.0 + upfront);
      assert AfterRefund(0.0, upfront) < 0.0;
    }
  }

  /** Reservations of at least `least`, settlements of at most `excess` more than the reservation. */
  ghost predicate BoundedRun(l: Ledger, events: seq<Event>, least: real, excess: real)
    decreases |events|
  {
    events == [] ||
    (&& (events[0].Reserve? ==> events[0].upfront >= least)
     && (events[0].Settle? && events[0].i < |l.requests| ==> events[0].actual <= l.requests[events[0].i].upfront + excess)
     && BoundedRun(Step(l, events[0]), events[1..], least, excess))
  }

  /** No run under these bounds ends with a negative balance. */
  ghost predicate Safe(least: real, excess: real)
  {
    forall l: Ledger, events: seq<Event> ::
      Opening(l) && l.balance >= 0.0 && BoundedRun(l, events, least, excess) ==> Run(l, events).balance >= 0.0
  }

  lemma {:induction false} BoundedIsCovered(l: Ledger, events: seq<Event>, least: real, excess: real)
    requires BoundedRun(l, events, least, excess) && least > -HALF_UNIT && excess < HALF_UNIT
    ensures CoveredRun(l, events)
    decreases |events|
  {
    if events != [] {
      BoundedIsCovered(Step(l, events[0]), events[1..], least, excess);
    }
  }

  lemma RunNext(l: Ledger, e: Event, rest: seq<Event>)
    ensures Run(l, [e] + rest) == Run(Step(l, e), rest)
  {
    assert ([e] + rest)[1..] == rest;
  }

  lemma BoundedNext(l: Ledger, e: Event, rest: seq<Event>, least: real, excess: real)
    requires e.Reserve? ==> e.upfront >= least
    requires e.Settle? && e.i < |l.requests| ==> e.actual <= l.requests[e.i].upfront + excess
    requires BoundedRun(Step(l, e), rest, least, excess)
    ensures BoundedRun(l, [e] + rest, least, excess)
  {
    assert ([e] + rest)[1..] == rest;
  }

  function Empty(balance: real): Ledger
  {
    Ledger(balance, [], 0.0, 0)
  }

  const FAIL_AND_REFUND := [Create(0, true)] + ([ProviderFails(0)] + ([Refund(0, true)] + []))

  lemma AfterFailure(l: Ledger, r: Request)
    requires |l.requests| == 2 && l.requests[0] == r && r.phase == Reserved
    ensures Run(l, FAIL_AND_REFUND).balance == Stored(l.balance + r.upfront)
  {
    var l1 := Put(l, 0, r.(phase := Created));
    var l2 := Put(l1, 0, r.(phase := Failing));
    RunNext(l, Create(0, true), [ProviderFails(0)] + ([Refund(0, true)] + []));
    RunNext(l1, ProviderFails(0), [Refund(0, true)] + []);
    RunNext(l2, Refund(0, true), []);
  }

  lemma {:induction false} FailureIsBounded(l: Ledger, least: real, excess: real)
    ensures BoundedRun(l, FAIL_AND_REFUND, least, excess)
  {
    var l1 := Step(l, Create(0, true));
    var l2 := Step(l1, ProviderFails(0));
    BoundedNext(l2, Refund(0, true), [], least, excess);
    BoundedNext(l1, ProviderFails(0), [Refund(0, true)] + [], least, excess);
    BoundedNext(l, Create(0, true), [ProviderFails(0)] + ([Refund(0, true)] + []), least, excess);
  }

  /** Request 0 reserves u, request 1 reserves v, then request 0 fails and is refunded. */
  function LentAndSpent(u: real, v: real): seq<Event>
  {
    [Reserve(u)] + ([Reserve(v)] + FAIL_AND_REFUND)
  }

  lemma AfterLending(u: real, v: real)
    requires u <= 0.0 && v <= Stored(0.0 - u)
    ensures Run(Empty(0.0), LentAndSpent(u, v)).balance == Stored(Stored(Stored(0.0 - u) - v) + u)
  {
    var l1 := StepReserve(Empty(0.0), u);
    var l2 := StepReserve(l1, v);
    assert l1.requests == [Request(u, 0.0, Reserved)] && l1.balance == Stored(0.0 - u);
    assert l2.requests == [Request(u, 0.0, Reserved), Request(v, 0.0, Reserved)];
    RunNext(Empty(0.0), Reserve(u), [Reserve(v)] + FAIL_AND_REFUND);
    RunNext(l1, Reserve(v), FAIL_AND_REFUND);
    AfterFailure(l2, Request(u, 0.0, Reserved));
  }

  lemma LendingIsBounded(u: real, v: real, least: real, excess: real)
    requires u >= least && v >= least
    ensures BoundedRun(Empty(0.0), LentAndSpent(u, v), least, excess)
  {
    var l1 := Step(Empty(0.0), Reserve(u));
    FailureIsBounded(Step(l1, Reserve(v)), least, excess);
    BoundedNext(l1, Reserve(v), FAIL_AND_REFUND, least, excess);
    BoundedNext(Empty(0.0), Reserve(u), [Reserve(v)] + FAIL_AND_REFUND, least, excess);
  }

  /** A reservation of minus half a unit or less lends credit: spent by another request, it is missed on refund. */
  lemma NegativeReservationOverdraws(u: real, least: real, excess: real)
    requires u <= -HALF_UNIT && least <= u
    ensures var events := LentAndSpent(u, Stored(0.0 - u));
      Run(Empty(0.0), events).balance < 0.0 && BoundedRun(Empty(0.0), events, least, excess)
  {
    var v := Stored(0.0 - u);
    StoredIsNear(0.0 - u);
    AfterLending(u, v);
    LendingIsBounded(u, v, least, excess);
    StoredIsNear(v - v);
    assert Stored(v - v) == 0.0;
    StoredIsNear(0.0 + u);
  }

  lemma ExcessOverdraws(p: real, least: real, excess: real)
    requires p >= 0.0 && p >= least && excess >= HALF_UNIT
    ensures var events := [Reserve(p)] + ([Create(0, true)] + ([Settle(0, p + excess)] + []));
      Run(Empty(p), events).balance < 0.0 && BoundedRun(Empty(p), events, least, excess)
  {
    var l1 := Step(Empty(p), Reserve(p));
    var l2 := Step(l1, Create(0, true));
    var e2 := [Settle(0, p + excess)] + [];
    var e1 := [Create(0, true)] + e2;
    assert l1.requests == [Request(p, 0.0, Reserved)] && l1.balance == Stored(p - p);
    assert Stored(p - p) == 0.0;
    StoredIsNear(0.0 + (p - (p + excess)));
    RunNext(Empty(p), Reserve(p), e1);
    RunNext(l1, Create(0, true), e2);
    RunNext(l2, Settle(0, p + excess), []);
    BoundedNext(l2, Settle(0, p + excess), [], least, excess);
    BoundedNext(l1, Create(0, true), e2, least, excess);
    BoundedNext(Empty(p), Reserve(p), e1, least, excess);
  }

  /** The account is safe in every run exactly when reservations stay above minus half a unit and settlements exceed
      their reservations by less than half a unit. */
  lemma NeverOverdrawnExactly(least: real, excess: real)
    ensures Safe(least, excess) <==> least > -HALF_UNIT && excess < HALF_UNIT
  {
    if least > -HALF_UNIT && excess < HALF_UNIT {
      forall l: Ledger, events: seq<Event> | Opening(l) && l.balance >= 0.0 && BoundedRun(l, events, least, excess)
        ensures Run(l, events).balance >= 0.0
      {
        BoundedIsCovered(l, events, least, excess);
        NeverOverdrawn(l, events, |events|);
        assert events[..|events|] == events;
      }
    } else if least <= -HALF_UNIT {
      NegativeReservationOverdraws(least, least, excess);
      assert Opening(Empty(0.0));
    } else {
      var p := if least > 0.0 then least else 0.0;
      ExcessOverdraws(p, least, excess);
      assert Opening(Empty(p));
    }
  }
}

/** The gateway's chat and generate requests on one company's account, updating the balance in place. */
module AiGateway {
  import opened CreditLedger
  import opened CreditPricing
  import opened ProviderFallback

  datatype Faults = Faults(create: bool, report: bool, refund: bool)

  datatype Reply<+T> = InsufficientCredits | Crashed | ProviderError | Reported(provider: string, response: T)

  /** Provider i is the first to answer, the reply is its answer, and the errors are those of the providers before it. */
  ghost predicate AnsweredBy<T>(order: seq<string>, calls: string -> Call<T>, i: nat, reply: Reply<T>, errors: seq<string>)
    requires i < |order| && reply.Reported?
  {
    && FirstToAnswer(order, calls, i) && reply.provider == order[i]
    && calls(order[i]) == Answers(reply.response) && errors == order[..i]
  }

  class Account {
    var balance: real
    var requests: seq<Request>
    ghost var drift: real
    ghost var writes: nat

    ghost function State(): Ledger
      reads this
    {
      Ledger(balance, requests, drift, writes)
    }

    constructor (balance: real)
      ensures this.balance == balance && Opening(State())
    {
      this.balance := balance;
      requests, drift, writes := [], 0.0, 0;
    }

    method WriteBalance(value: real)
      modifies this`balance, this`drift, this`writes
      ensures State() == Write(old(State()), value)
      ensures -HALF_UNIT <= drift - old(drift) <= HALF_UNIT
    {
      StoredIsNear(value);
      balance := Stored(value);
      drift := drift + (balance - value);
      writes := writes + 1;
    }

    /** Lock the row, check, deduct, commit. */
    method ReserveCredits(upfront: real) returns (id: nat, ok: bool)
      modifies this
      ensures State() == Step(old(State()), Reserve(upfront))
      ensures ok <==> old(balance) >= upfront
      ensures ok ==> id == old(|requests|)
      ensures -HALF_UNIT <= drift - old(drift) <= HALF_UNIT
    {
      id := |requests|;
      if balance < upfront {
        return id, false;
      }
      WriteBalance(balance - upfront);
      requests := requests + [Request(upfront, 0.0, Reserved)];
      return id, true;
    }

    method CreateRequest(id: nat, ok: bool)
      requires id < |requests| && requests[id].phase == Reserved
      modifies this`requests
      ensures State() == Step(old(State()), Create(id, ok))
    {
      requests := requests[id := requests[id].(phase := if ok then Created else Abandoned)];
    }

    method FailProvider(id: nat)
      requires id < |requests| && requests[id].phase == Created
      modifies this`requests
      ensures State() == Step(old(State()), ProviderFails(id))
    {
      requests := requests[id := requests[id].(phase := Failing)];
    }

    method SettleRequest(id: nat, actual: real)
      requires id < |requests| && requests[id].phase == Created
      modifies this
      ensures State() == Step(old(State()), Settle(id, actual))
      ensures -HALF_UNIT <= drift - old(drift) <= HALF_UNIT
    {
      WriteBalance(balance + (requests[id].upfront - actual));
      requests := requests[id := requests[id].(phase := Settled, actual := actual)];
    }

    method ReportRequest(id: nat, ok: bool)
      requires id < |requests| && requests[id].phase == Settled
      modifies this`requests
      ensures State() == Step(old(State()), Report(id, ok))
    {
      requests := requests[id := requests[id].(phase := if ok then Phase.Reported else LateFailing)];
    }

    /** The exception handler: it gives back the upfront cost, whether or not the request was settled. */
    method RefundRequest(id: nat, ok: bool)
      requires id < |requests| && requests[id].phase in {Failing, LateFailing}
      modifies this
      ensures State() == Step(old(State()), Refund(id, ok))
      ensures -HALF_UNIT <= drift - old(drift) <= HALF_UNIT
    {
      var request := requests[id];
      if ok {
        WriteBalance(balance + request.upfront);
        requests := requests[id := request.(phase := if request.phase == Failing then Refunded else OverRefunded)];
      } else {
        requests := requests[id := request.(phase := if request.phase == Failing then Stranded else LateStranded)];
      }
    }

    /** The guarded block after an answer: settle, report, and on a late failure the handler. */
    method SettleAndReport(id: nat, actual: real, ok: Faults)
      requires id < |requests| && requests[id].phase == Created
      modifies this
      ensures Total(State()) == old(Total(State()))
      ensures requests == old(requests)[id := Request(old(requests[id].upfront), actual, Late(ok))]
      ensures -2.0 * HALF_UNIT <= drift - old(drift) <= 2.0 * HALF_UNIT
    {
      StepKeepsTotal(State(), Settle(id, actual));
      SettleRequest(id, actual);
      StepKeepsTotal(State(), Report(id, ok.report));
      ReportRequest(id, ok.report);
      if !ok.report {
        StepKeepsTotal(State(), Refund(id, ok.refund));
        RefundRequest(id, ok.refund);
      }
    }

    /** The guarded block without an answer: the handler gives the reservation back. */
    method FailAndRefund(id: nat, refund: bool)
      requires id < |requests| && requests[id].phase == Created
      modifies this
      ensures Total(State()) == old(Total(State()))
      ensures requests == old(requests)[id := old(requests[id]).(phase := if refund then Refunded else Stranded)]
      ensures -HALF_UNIT <= drift - old(drift) <= HALF_UNIT
    {
      StepKeepsTotal(State(), ProviderFails(id));
      FailProvider(id);
      StepKeepsTotal(State(), Refund(id, refund));
      RefundRequest(id, refund);
    }

    /** The unguarded part: reserve, then write the request row. */
    method Open(upfront: real, create: bool) returns (id: nat, ok: bool)
      modifies this
      ensures ok <==> old(balance) >= upfront
      ensures !ok ==> State() == old(State())
      ensures -HALF_UNIT <= drift - old(drift) <= HALF_UNIT
      ensures ok ==>
        && id == |old(requests)| && Total(State()) == old(Total(State()))
        && requests == old(requests) + [Request(upfront, 0.0, if create then Created else Abandoned)]
    {
      StepKeepsTotal(State(), Reserve(upfront));
      id, ok := ReserveCredits(upfront);
      if ok {
        StepKeepsTotal(State(), Create(id, create));
        CreateRequest(id, create);
      }
    }

    /** Reserve, ask the providers in order, settle or refund. */
    method Serve<T>(provider: string, allowed: seq<string>, enableFallback: bool, calls: string -> Call<T>,
                    upfront: real, price: T -> real, ok: Faults)
      returns (reply: Reply<T>, errors: seq<string>)
      requires provider in allowed
      modifies this
      ensures reply.InsufficientCredits? <==> old(balance) < upfront
      ensures reply.InsufficientCredits? ==> State() == old(State())
      ensures -3.0 * HALF_UNIT <= drift - old(drift) <= 3.0 * HALF_UNIT
      ensures !reply.InsufficientCredits? ==>
        var ran := Outcome(FallbackOrder(provider, allowed, enableFallback), calls);
        && Total(State()) == old(Total(State()))
        && requests == old(requests) + [Final(ran, upfront, price, ok)]
        && reply == Answer(ran, ok)
      ensures reply.Reported? ==>
        var order := FallbackOrder(provider, allowed, enableFallback);
        errors == order[..FailedPrefix(order, calls)]
    {
      errors := [];
      var id, reserved := Open(upfront, ok.create);
      if !reserved {
        return InsufficientCredits, errors;
      }
      if !ok.create {
        return Crashed, errors;
      }
      var order := BuildFallbackOrder(provider, allowed, enableFallback);
      var ran: Ran<T>;
      ran, errors := AskProviders(order, calls);
      if ran.Answered? {
        SettleAndReport(id, price(ran.response), ok);
        if ok.report {
          return Reply.Reported(ran.provider, ran.response), errors;
        }
      } else {
        FailAndRefund(id, ok.refund);
      }
      return ProviderError, errors;
    }

    /** One whole chat request, undisturbed: who is told what, and what it takes from the balance, to within three
        roundings. */
    method Chat<T>(provider: string, allowed: seq<string>, enableFallback: bool, calls: string -> Call<T>,
                   upfront: real, price: T -> real, ok: Faults)
      returns (reply: Reply<T>, errors: seq<string>)
      requires provider in allowed
      modifies this
      ensures reply.InsufficientCredits? <==> old(balance) < upfront
      ensures reply.InsufficientCredits? ==> State() == old(State())
      ensures reply.Crashed? <==> old(balance) >= upfront && !ok.create
      ensures var order := FallbackOrder(provider, allowed, enableFallback);
        && (reply.Reported? <==> old(balance) >= upfront && ok.create && ok.report && SomeoneAnswers(order, calls))
        && (reply.Reported? ==> exists i :: 0 <= i < |order| && AnsweredBy(order, calls, i, reply, errors))
      ensures !reply.InsufficientCredits? ==>
        var ran := Outcome(FallbackOrder(provider, allowed, enableFallback), calls);
        && Total(State()) == old(Total(State()))
        && requests == old(requests) + [Final(ran, upfront, price, ok)]
        && balance - drift == old(balance - drift) - Cost(ran, upfront, price, ok)
        && -3.0 * HALF_UNIT <= balance - (old(balance) - Cost(ran, upfront, price, ok)) <= 3.0 * HALF_UNIT
      ensures old(balance) >= upfront ==>
        var order := FallbackOrder(provider, allowed, enableFallback);
        var taken := old(balance - drift) - (balance - drift);
        && (!ok.create ==> taken == upfront)
        && (ok.create && !SomeoneAnswers(order, calls) ==>
              taken == if ok.refund then 0.0 else upfront)
        && (forall i :: 0 <= i < |order| && ok.create && FirstToAnswer(order, calls, i) ==>
              taken == price(calls(order[i]).response) - if !ok.report && ok.refund then upfront else 0.0)
    {
      ghost var before := State();
      ghost var order := FallbackOrder(provider, allowed, enableFallback);
      AnsweredExactly(order, calls);
      reply, errors := Serve(provider, allowed, enableFallback, calls, upfront, price, ok);
      if !reply.InsufficientCredits? {
        CostIsTaken(before, State(), Outcome(order, calls), upfront, price, ok);
        if reply.Reported? {
          assert AnsweredBy(order, calls, FailedPrefix(order, calls), reply, errors);
        }
      }
    }
  }

  lemma CostIsTaken<T>(before: Ledger, after: Ledger, ran: Ran<T>, upfront: real, price: T -> real, ok: Faults)
    requires Total(after) == Total(before) && after.requests == before.requests + [Final(ran, upfront, price, ok)]
    ensures after.balance - after.drift == before.balance - before.drift - Cost(ran, upfront, price, ok)
  {
    ChargesAppend(before.requests, Final(ran, upfront, price, ok));
    CostIsCharged(ran, upfront, price, ok);
  }

  function Late(ok: Faults): Phase
  {
    if ok.report then Phase.Reported else if ok.refund then OverRefunded else LateStranded
  }

  /** The request record a chat call leaves behind, by where it failed. */
  function Final<T>(ran: Ran<T>, upfront: real, price: T -> real, ok: Faults): Request
  {
    if !ok.create then Request(upfront, 0.0, Abandoned)
    else if !ran.Answered? then Request(upfront, 0.0, if ok.refund then Refunded else Stranded)
    else Request(upfront, price(ran.response), Late(ok))
  }

  function Answer<T>(ran: Ran<T>, ok: Faults): Reply<T>
  {
    if !ok.create then Crashed
    else if ran.Answered? && ok.report then Reply.Reported(ran.provider, ran.response)
    else ProviderError
  }

  /** What one chat call costs: nothing for an error that is refunded, the answer's price for a reported answer, the
      upfront cost where nobody refunds it; a failure after the settlement is refunded on top of it. */
  function Cost<T>(ran: Ran<T>, upfront: real, price: T -> real, ok: Faults): real
  {
    if !ok.create then upfront
    else if ran.Answered? then price(ran.response) - if !ok.report && ok.refund then upfront else 0.0
    else if ok.refund then 0.0 else upfront
  }

  lemma CostIsCharged<T>(ran: Ran<T>, upfront: real, price: T -> real, ok: Faults)
    ensures NetCharge(Final(ran, upfront, price, ok)) == Cost(ran, upfront, price, ok)
  {
  }

  /** All providers failing costs nothing, provided the guarded block is reached and the refund commits. */
  lemma AllFailedIsFree<T>(order: seq<string>, calls: string -> Call<T>, upfront: real, price: T -> real, ok: Faults)
    requires forall name :: name in order ==> calls(name).CallFails?
    requires upfront != 0.0
    ensures Cost(Outcome(order, calls), upfront, price, ok) == 0.0 <==> ok.create && ok.refund
  {
    FirstAnswerWins(order, calls, 0);
  }

  // ── Pricing meets the ledger ──────────────────────────────────────────────

  ghost predicate QuotedAs(upfront: real, model: string, promptLength: nat, maxTokens: nat)
  {
    upfront == UpfrontCost(model, promptLength, maxTokens)
  }

  /** A settlement for a request quoted for one model and served, within its allowances, by one priced no higher. */
  ghost predicate ServedAs(upfront: real, actual: real, requested: string, used: string, promptLength: nat, maxTokens: nat,
                           inputTokens: nat, outputTokens: nat)
  {
    && QuotedAs(upfront, requested, promptLength, maxTokens)
    && AtMost(RatesOf(used), RatesOf(requested))
    && inputTokens as real <= InputAllowance(promptLength) && outputTokens <= maxTokens
    && actual == EstimatedCost(used, inputTokens as real, outputTokens as real)
  }

  ghost predicate Quoted(l: Ledger, e: Event)
  {
    && (e.Reserve? ==> exists model: string, p: nat, m: nat :: QuotedAs(e.upfront, model, p, m))
    && (e.Settle? && e.i < |l.requests| ==>
          exists requested: string, used: string, p: nat, m: nat, i: nat, o: nat ::
            ServedAs(l.requests[e.i].upfront, e.actual, requested, used, p, m, i, o))
  }

  ghost predicate QuotedRun(l: Ledger, events: seq<Event>)
    decreases |events|
  {
    events == [] || (Quoted(l, events[0]) && QuotedRun(Step(l, events[0]), events[1..]))
  }

  lemma QuotedIsCovered(l: Ledger, e: Event)
    requires Quoted(l, e)
    ensures Covered(l, e)
  {
    if e.Reserve? {
      var model: string, p: nat, m: nat :| QuotedAs(e.upfront, model, p, m);
      UpfrontCovers(model, model, p, m, 0, 0);
    } else if e.Settle? && e.i < |l.requests| {
      var requested: string, used: string, p: nat, m: nat, i: nat, o: nat :|
        ServedAs(l.requests[e.i].upfront, e.actual, requested, used, p, m, i, o);
      UpfrontCovers(requested, used, p, m, i, o);
    }
  }

  lemma {:induction false} QuotedRunIsCovered(l: Ledger, events: seq<Event>)
    requires QuotedRun(l, events)
    ensures CoveredRun(l, events)
    decreases |events|
  {
    if events != [] {
      QuotedIsCovered(l, events[0]);
      QuotedRunIsCovered(Step(l, events[0]), events[1..]);
    }
  }

  /** Requests quoted and served by the price table never overdraw the account, at any commit of any interleaving,
      whatever else fails. */
  lemma PricedRequestsNeverOverdraw(l: Ledger, events: seq<Event>, k: nat)
    requires Solvent(l) && QuotedRun(l, events) && k <= |events|
    ensures Run(l, events[..k]).balance >= 0.0
  {
    QuotedRunIsCovered(l, events);
    NeverOverdrawn(l, events, k);
  }

  // ── Negative max_tokens ───────────────────────────────────────────────────

  /** Which max_tokens make a request lend credit: none of a free model, and of any other exactly those at or below
      a negative limit that depends on the prompt. */
  lemma LendsExactly(model: string, promptLength: nat, maxTokens: int)
    ensures var r := RatesOf(model);
      UpfrontCost(model, promptLength, maxTokens) <= -HALF_UNIT
      <==> r.output > 0.0
           && maxTokens as real <= -(InputAllowance(promptLength) * r.input + 1000.0 * HALF_UNIT) / r.output
  {
    var r := RatesOf(model);
    var a := InputAllowance(promptLength) * r.input;
    assert a >= 0.0;
    assert UpfrontCost(model, promptLength, maxTokens) * 1000.0 == a + maxTokens as real * r.output;
    if r.output > 0.0 {
      Divide(maxTokens as real, r.output, -(a + 1000.0 * HALF_UNIT));
    }
  }

  lemma Divide(m: real, q: real, x: real)
    requires q > 0.0
    ensures m * q <= x <==> m <= x / q
  {
    assert x == x / q * q;
  }

  /** For every model that is not free and every prompt there is a max_tokens with which a request, together with an
      ordinary request of the same model, overdraws an empty account as soon as it fails. */
  lemma NegativeMaxTokensOverdraws(model: string, promptLength: nat) returns (maxTokens: int)
    requires RatesOf(model).output > 0.0
    ensures maxTokens < 0
    ensures var u, v := UpfrontCost(model, promptLength, maxTokens), UpfrontCost(model, promptLength, 1000);
      Run(Empty(0.0), LentAndSpent(u, v)).balance < 0.0
  {
    var v := UpfrontCost(model, promptLength, 1000);
    maxTokens := DeepEnough(model, promptLength, v + HALF_UNIT);
    var u := UpfrontCost(model, promptLength, maxTokens);
    LendingOverdraws(u, v);
  }

  lemma DeepEnough(model: string, promptLength: nat, depth: real) returns (maxTokens: int)
    requires RatesOf(model).output > 0.0
    ensures UpfrontCost(model, promptLength, maxTokens) <= -depth
    ensures depth >= 0.0 ==> maxTokens < 0
    ensures UpfrontCost(model, promptLength, 1000) >= RatesOf(model).output
  {
    var r := RatesOf(model);
    var a := InputAllowance(promptLength) * r.input;
    assert a >= 0.0;
    var x := (a + 1000.0 * depth) / r.output;
    maxTokens := -(x.Floor + 1);
    Divide(maxTokens as real, r.output, -(a + 1000.0 * depth));
    assert -(a + 1000.0 * depth) / r.output == -x;
    assert UpfrontCost(model, promptLength, maxTokens) * 1000.0 == a + maxTokens as real * r.output;
    assert UpfrontCost(model, promptLength, 1000) * 1000.0 == a + 1000.0 * r.output;
    if depth >= 0.0 {
      Divide(0.0, r.output, a + 1000.0 * depth);
    }
  }

  lemma LendingOverdraws(u: real, v: real)
    requires v >= 3.0 * HALF_UNIT && u <= -v - HALF_UNIT
    ensures Run(Empty(0.0), LentAndSpent(u, v)).balance < 0.0
  {
    StoredIsNear(0.0 - u);
    AfterLending(u, v);
    StoredIsNear(Stored(0.0 - u) - v);
    StoredIsNear(Stored(Stored(0.0 - u) - v) + u);
  }

  // ── Rate limit ────────────────────────────────────────────────────────────

  function Minute(now: nat): nat
  {
    now / 60
  }

  /** The requests let through, by arrival time: the limit counts every arrival of the calendar minute. */
  function Admitted(arrivals: seq<nat>, limit: nat): seq<nat>
  {
    if arrivals == [] then []
    else
      var earlier, now := arrivals[..|arrivals| - 1], arrivals[|arrivals| - 1];
      Admitted(earlier, limit) + if InMinute(earlier, Minute(now)) + 1 > limit then [] else [now]
  }

  function InMinute(times: seq<nat>, minute: nat): nat
  {
    if times == [] then 0
    else InMinute(times[..|times| - 1], minute) + if Minute(times[|times| - 1]) == minute then 1 else 0
  }

  function InWindow(times: seq<nat>, start: nat): nat
  {
    if times == [] then 0
    else InWindow(times[..|times| - 1], start) + if start <= times[|times| - 1] < start + 60 then 1 else 0
  }

  function AtMostLimit(n: nat, limit: nat): nat
  {
    if n <= limit then n else limit
  }

  lemma OneMoreIn(times: seq<nat>, now: nat, minute: nat)
    ensures InMinute(times + [now], minute) == InMinute(times, minute) + if Minute(now) == minute then 1 else 0
    ensures times + [] == times
  {
    assert (times + [now])[..|times|] == times;
  }

  /** Of the arrivals of every calendar minute exactly the smaller of their number and the limit is let through. */
  lemma {:induction false} AdmittedExactly(arrivals: seq<nat>, limit: nat, minute: nat)
    ensures InMinute(Admitted(arrivals, limit), minute) == AtMostLimit(InMinute(arrivals, minute), limit)
  {
    if arrivals != [] {
      var earlier, now := arrivals[..|arrivals| - 1], arrivals[|arrivals| - 1];
      AdmittedExactly(earlier, limit, minute);
      OneMoreIn(Admitted(earlier, limit), now, minute);
    }
  }

  lemma {:induction false} AdmittedPerMinute(arrivals: seq<nat>, limit: nat, minute: nat)
    ensures InMinute(Admitted(arrivals, limit), minute) <= limit
    ensures InMinute(Admitted(arrivals, limit), minute) <= InMinute(arrivals, minute)
  {
    if arrivals != [] {
      var earlier, now := arrivals[..|arrivals| - 1], arrivals[|arrivals| - 1];
      AdmittedPerMinute(earlier, limit, minute);
      OneMoreIn(Admitted(earlier, limit), now, minute);
    }
  }

  lemma {:induction false} WindowSpansTwoMinutes(times: seq<nat>, start: nat)
    ensures InWindow(times, start) <= InMinute(times, Minute(start)) + InMinute(times, Minute(start) + 1)
  {
    if times != [] {
      WindowSpansTwoMinutes(times[..|times| - 1], start);
    }
  }

  /** A sliding minute admits at most twice the limit, because the counter is per calendar minute. */
  lemma AdmittedPerWindow(arrivals: seq<nat>, limit: nat, start: nat)
    ensures InWindow(Admitted(arrivals, limit), start) <= 2 * limit
  {
    WindowSpansTwoMinutes(Admitted(arrivals, limit), start);
    AdmittedPerMinute(arrivals, limit, Minute(start));
    AdmittedPerMinute(arrivals, limit, Minute(start) + 1);
  }
}

/** The worker process: the loop, its failure handlers and the queue functions, over mutable lists. */
module WorkerProcess {
  import opened Wrappers
  import opened Text
  import opened JobWorker

  const PROMOTE_LIMIT := 50

  /** What the pop of a round comes to: a timeout or an error, a job, or a job that never arrives. */
  datatype Pop = Nothing | Process(result: Result, ok: Faults, now: real) | Lose(dies: bool)

  datatype Round = Round(now: real, good: nat, pop: Pop)

  lemma {:induction false} RunAppend(cfg: Config, q: Queue, first: seq<Event>, rest: seq<Event>)
    ensures Run(cfg, q, first + rest) == Run(cfg, Run(cfg, q, first), rest)
    decreases |first|
  {
    if first == [] {
      assert first + rest == rest;
    } else {
      assert (first + rest)[1..] == first[1..] + rest;
      RunAppend(cfg, Step(cfg, q, first[0]), first[1..], rest);
    }
  }

  lemma RunOneMore(cfg: Config, q: Queue, events: seq<Event>, e: Event)
    ensures Run(cfg, q, events + [e]) == Step(cfg, Run(cfg, q, events), e)
  {
    RunAppend(cfg, q, events, [e]);
    assert [e][1..] == [];
  }

  /** Each step promotes a due job; the first `good` pushes go through, and a failing one is the last. */
  ghost predicate Promotions(cfg: Config, q: Queue, now: real, good: nat, steps: seq<Event>)
  {
    && |steps| <= good + 1
    && forall i :: 0 <= i < |steps| ==> steps[i] == Promote(now, i < good) && AnyDue(Run(cfg, q, steps[..i]), now)
  }

  /** And they stop only at the limit, at a failing push, or when nothing is due. */
  ghost predicate IsBatch(cfg: Config, q: Queue, now: real, limit: nat, good: nat, steps: seq<Event>)
  {
    && Promotions(cfg, q, now, good, steps) && |steps| <= limit
    && (AnyDue(Run(cfg, q, steps), now) ==> |steps| == limit || |steps| == good + 1)
  }

  lemma OneMorePromotion(cfg: Config, q: Queue, now: real, good: nat, steps: seq<Event>)
    requires Promotions(cfg, q, now, good, steps) && |steps| <= good && AnyDue(Run(cfg, q, steps), now)
    ensures Promotions(cfg, q, now, good, steps + [Promote(now, |steps| < good)])
  {
    var more := steps + [Promote(now, |steps| < good)];
    assert more[..|steps|] == steps;
    assert forall i :: 0 <= i < |steps| ==> more[..i] == steps[..i] && more[i] == steps[i];
  }

  /** What the pop of a round makes of the ready list: a turn, a loss, or nothing. */
  function Popped(r: Round, q: Queue): seq<Event>
  {
    if q.ready == [] || r.pop.Nothing? then []
    else if r.pop.Process? then [Turn(r.pop.result, r.pop.ok, r.pop.now)]
    else [Vanish(r.pop.dies)]
  }

  /** A batch of promotions, then the pop. */
  ghost predicate IsRound(cfg: Config, q: Queue, r: Round, part: seq<Event>)
  {
    exists n: nat :: n <= |part| && RoundAt(cfg, q, r, part, n)
  }

  ghost predicate RoundAt(cfg: Config, q: Queue, r: Round, part: seq<Event>, n: nat)
    requires n <= |part|
  {
    && IsBatch(cfg, q, r.now, PROMOTE_LIMIT, r.good, part[..n])
    && part[n..] == Popped(r, Run(cfg, q, part[..n]))
  }

  lemma RoundTaken(cfg: Config, q: Queue, r: Round, promoted: seq<Event>)
    requires IsBatch(cfg, q, r.now, PROMOTE_LIMIT, r.good, promoted)
    ensures IsRound(cfg, q, r, promoted + Popped(r, Run(cfg, q, promoted)))
  {
    var part := promoted + Popped(r, Run(cfg, q, promoted));
    assert part[..|promoted|] == promoted;
    assert RoundAt(cfg, q, r, part, |promoted|);
  }

  function Flat(parts: seq<seq<Event>>): seq<Event>
  {
    if parts == [] then [] else Flat(parts[..|parts| - 1]) + parts[|parts| - 1]
  }

  /** Part by part, the steps taken in the first rounds. */
  ghost predicate AreRounds(cfg: Config, q: Queue, rounds: seq<Round>, parts: seq<seq<Event>>)
  {
    && |parts| <= |rounds|
    && forall i :: 0 <= i < |parts| ==> IsRound(cfg, Run(cfg, q, Flat(parts[..i])), rounds[i], parts[i])
  }

  lemma OneMoreRound(cfg: Config, q: Queue, rounds: seq<Round>, parts: seq<seq<Event>>, part: seq<Event>)
    requires AreRounds(cfg, q, rounds, parts) && |parts| < |rounds|
    requires IsRound(cfg, Run(cfg, q, Flat(parts)), rounds[|parts|], part)
    ensures AreRounds(cfg, q, rounds, parts + [part])
  {
    var more := parts + [part];
    assert more[..|parts|] == parts;
    forall i | 0 <= i < |more| ensures IsRound(cfg, Run(cfg, q, Flat(more[..i])), rounds[i], more[i]) {
      if i < |parts| {
        assert more[..i] == parts[..i];
      }
    }
  }

  lemma RunFlat(cfg: Config, q: Queue, parts: seq<seq<Event>>, part: seq<Event>)
    ensures Run(cfg, q, Flat(parts + [part])) == Run(cfg, Run(cfg, q, Flat(parts)), part)
  {
    assert (parts + [part])[..|parts|] == parts;
    RunAppend(cfg, q, Flat(parts), part);
  }

  /** The four Redis keys, and whether the process is still running. */
  class Worker {
    var ready: seq<Entry>
    var delayed: seq<Entry>
    var dead: seq<Entry>
    var done: seq<Entry>
    var crashed: bool
    ghost var popped: seq<Entry>
    ghost var retried: seq<Entry>

    ghost function State(): Queue
      reads this
    {
      Queue(ready, delayed, dead, done, crashed, popped, retried)
    }

    constructor (jobs: seq<Entry>)
      ensures State() == Queue(jobs, [], [], [], false, [], [])
    {
      ready, delayed, dead, done, crashed := jobs, [], [], [], false;
      popped, retried := [], [];
    }

    /** What a turn has appended to the lists so far. */
    twostate predicate Appended(g: Effect)
      reads this
    {
      && ready == old(ready) && popped == old(popped)
      && delayed == old(delayed) + g.delayed && retried == old(retried) + g.delayed
      && dead == old(dead) + g.dead && done == old(done) + g.done
      && crashed == (old(crashed) || g.crashed)
    }

    method PushRaw(e: Entry, ok: Faults)
      modifies this
      ensures Appended(RawPush(e, ok))
    {
      if ok.rawPush {
        dead := dead + [e];
      } else {
        crashed := true;
      }
    }

    method PushDead(e: Entry, ok: Faults)
      modifies this
      ensures Appended(DeadLetter(e, ok))
    {
      if ok.deadPush {
        dead := dead + [e];
      }
    }

    method EnqueueDelayed(e: Entry, ok: Faults) returns (raised: bool)
      modifies this
      ensures raised == !ok.delayPush
      ensures Appended(if raised then NOTHING else NOTHING.(delayed := [e]))
    {
      raised := !ok.delayPush;
      if ok.delayPush {
        delayed := delayed + [e];
        retried := retried + [e];
      }
    }

    /** _handle_webhook_failure, from the computed limits on. */
    method FailWebhook(cfg: Config, e: Entry, j: Job, reason: string, retryable: bool, ok: Faults, now: real)
      returns (raised: bool)
      requires e.raw == Payload(j) && j.kind == Webhook
      modifies this
      ensures var h := HandleFailure(cfg, e, j, reason, retryable, ok, now); raised == h.raised && Appended(h.effect)
    {
      var attempt := Attempt(j);
      if !ok.setup || attempt.None? {
        return true;
      }
      if !retryable || attempt.value >= cfg.webhookMax {
        PushDead(e, ok);
        return !ok.ack;
      }
      var next := NextEntry(j, attempt.value, cfg.webhookDelay(attempt.value), now);
      raised := EnqueueDelayed(next, ok);
      if !raised {
        raised := !ok.ack;
      }
    }

    /** _handle_domain_job_failure */
    method FailDomain(cfg: Config, e: Entry, j: Job, reason: string, ok: Faults, now: real) returns (raised: bool)
      requires e.raw == Payload(j) && j.kind == Domain
      modifies this
      ensures forall retryable ::
        var h := HandleFailure(cfg, e, j, reason, retryable, ok, now); raised == h.raised && Appended(h.effect)
    {
      var attempt, max := Attempt(j), OrDefault(j.maxAttempts, 6);
      if !ok.setup || attempt.None? || max.None? {
        return true;
      }
      if attempt.value >= max.value {
        PushDead(e, ok);
        return false;
      }
      if attempt.value >= FLOAT_LIMIT {
        return true;
      }
      var delay := Min(Pow2(attempt.value), 300.0);
      raised := EnqueueDelayed(NextEntry(j, attempt.value, delay, now), ok);
    }

    /** _handle_studio_job_failure */
    method FailStudio(cfg: Config, e: Entry, j: Job, reason: string, ok: Faults, now: real) returns (raised: bool)
      requires e.raw == Payload(j) && j.kind == Studio
      modifies this
      ensures forall retryable ::
        var h := HandleFailure(cfg, e, j, reason, retryable, ok, now); raised == h.raised && Appended(h.effect)
    {
      var attempt, max := Attempt(j), OrDefault(j.maxAttempts, 4);
      if !ok.setup || attempt.None? || max.None? || OrDefault(j.timeout, 900).None? {
        return true;
      }
      if Contains(Lower(reason), "timeout") || attempt.value >= max.value {
        PushDead(e, ok);
        return false;
      }
      if attempt.value >= FLOAT_LIMIT {
        return true;
      }
      var delay := Min(Pow2(attempt.value), 120.0);
      raised := EnqueueDelayed(NextEntry(j, attempt.value, delay, now), ok);
    }

    method Fail(cfg: Config, e: Entry, j: Job, reason: string, retryable: bool, ok: Faults, now: real)
      requires e.raw == Payload(j)
      modifies this
      ensures Appended(Handle(cfg, e, Failure(reason, retryable), ok, now))
    {
      var raised := true;
      match j.kind {
        case Webhook => raised := FailWebhook(cfg, e, j, reason, retryable, ok, now);
        case Studio => raised := FailStudio(cfg, e, j, reason, ok, now);
        case Domain => raised := FailDomain(cfg, e, j, reason, ok, now);
        case Other =>
      }
      if raised {
        PushRaw(e, ok);
      }
    }

    /** The body of the main loop after a successful blpop. */
    method Turn(cfg: Config, result: Result, ok: Faults, now: real)
      requires ready != [] && !crashed
      modifies this
      ensures State() == StepTurn(cfg, old(State()), result, ok, now)
    {
      var e := ready[0];
      ready := ready[1..];
      popped := popped + [e];
      match e.raw {
        case NotJson(_) =>
          if ok.rawPush {
            dead := dead + [e];
          }
        case NotObject(_) =>
          crashed := true;
        case Payload(j) =>
          if result.Success? {
            done := done + [e];
          } else {
            Fail(cfg, e, j, result.reason, result.retryable, ok, now);
          }
      }
    }

    /** One job leaves the delayed set; its push to the ready list may raise. */
    method Move(pushed: bool)
      requires delayed != []
      modifies this
      ensures State() == Moved(old(State()), pushed)
    {
      var i := Earliest(delayed);
      var e := delayed[i];
      delayed := Without(delayed, i);
      if pushed {
        ready := ready + [e];
      }
    }

    /** promote_due_jobs */
    method PromoteDue(cfg: Config, now: real, limit: nat, good: nat) returns (ghost steps: seq<Event>)
      requires !crashed
      modifies this
      ensures State() == Run(cfg, old(State()), steps) && !crashed
      ensures IsBatch(cfg, old(State()), now, if limit < 1 then 1 else limit, good, steps)
    {
      var room := if limit < 1 then 1 else limit;
      var moved := 0;
      steps := [];
      while moved < room && delayed != [] && delayed[Earliest(delayed)].readyAt <= now
        invariant moved == |steps| <= room && moved <= good
        invariant State() == Run(cfg, old(State()), steps) && !crashed
        invariant Promotions(cfg, old(State()), now, good, steps)
      {
        ghost var before := steps;
        RunOneMore(cfg, old(State()), steps, Promote(now, moved < good));
        assert AnyDue(State(), now);
        Move(moved < good);
        steps := steps + [Promote(now, moved < good)];
        OneMorePromotion(cfg, old(State()), now, good, before);
        if moved == good {
          return;
        }
        moved := moved + 1;
      }
    }

    /** One round of the main loop: promote, pop, process. */
    method Round(cfg: Config, r: Round) returns (ghost promoted: seq<Event>)
      requires !crashed
      modifies this
      ensures IsBatch(cfg, old(State()), r.now, PROMOTE_LIMIT, r.good, promoted)
      ensures State() == Run(cfg, old(State()), promoted + Popped(r, Run(cfg, old(State()), promoted)))
    {
      promoted := PromoteDue(cfg, r.now, PROMOTE_LIMIT, r.good);
      ghost var popping := Popped(r, State());
      RunAppend(cfg, old(State()), promoted, popping);
      if ready == [] {
        return;
      }
      match r.pop {
        case Nothing =>
        case Process(result, ok, now) =>
          assert popping[1..] == [];
          Turn(cfg, result, ok, now);
        case Lose(dies) =>
          assert popping[1..] == [];
          ready, popped, crashed := ready[1..], popped + [ready[0]], dies;
      }
    }

    /** The main loop, driven by what happens to it in each round; `rest` is what it did not come to. */
    method MainLoop(cfg: Config, rounds: seq<Round>) returns (ghost parts: seq<seq<Event>>, rest: seq<Round>)
      modifies this
      ensures State() == Run(cfg, old(State()), Flat(parts)) && AreRounds(cfg, old(State()), rounds, parts)
      ensures rest == rounds[|parts|..] && (rest != [] ==> crashed)
    {
      var i := 0;
      parts := [];
      while i < |rounds| && !crashed
        invariant i == |parts|
        invariant State() == Run(cfg, old(State()), Flat(parts)) && AreRounds(cfg, old(State()), rounds, parts)
      {
        ghost var before := State();
        ghost var promoted := Round(cfg, rounds[i]);
        ghost var part := promoted + Popped(rounds[i], Run(cfg, before, promoted));
        RoundTaken(cfg, before, rounds[i], promoted);
        OneMoreRound(cfg, old(State()), rounds, parts, part);
        RunFlat(cfg, old(State()), parts, part);
        parts := parts + [part];
        i := i + 1;
      }
      rest := rounds[i..];
    }
  }
}

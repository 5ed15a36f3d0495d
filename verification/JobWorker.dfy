/** The background worker: jobs move between ready, delayed, dead and done.

    One event is one turn of the main loop, or the promotion of one due job. Faults say which Redis or
    outbox call of a turn fails. */
module JobWorker {
  import opened Wrappers
  import opened Text
  import opened TimeoutTexts

  /** payload.get(...): absent, an integer, or something int() rejects. */
  datatype Field = Missing | Num(n: int) | Garbage

  datatype Kind = Webhook | Studio | Domain | Other

  datatype Job = Job(id: nat, kind: Kind, attempt: Field, maxAttempts: Field, timeout: Field)

  /** What blpop hands out: bytes that are no JSON, JSON that is no object, or a job. */
  datatype Raw = NotJson(id: nat) | NotObject(id: nat) | Payload(job: Job)

  datatype Entry = Entry(raw: Raw, readyAt: real, delay: real)

  datatype Result = Success | Failure(reason: string, retryable: bool)

  /** True where the call goes through. */
  datatype Faults = Faults(setup: bool, deadPush: bool, delayPush: bool, ack: bool, rawPush: bool)

  const NO_FAULT := Faults(true, true, true, true, true)

  datatype Config = Config(webhookMax: int, webhookDelay: int -> real)

  datatype Queue = Queue(
    ready: seq<Entry>, delayed: seq<Entry>, dead: seq<Entry>, done: seq<Entry>,
    crashed: bool,
    popped: seq<Entry>,    // history: every entry handed to the loop
    retried: seq<Entry>)   // history: every entry put on the delayed list

  datatype Event =
    | Turn(result: Result, ok: Faults, now: real)
    | Promote(now: real, pushed: bool)  // one due job leaves the delayed set; its push may fail
    | Vanish(dies: bool)                // killed, or cut off from Redis, between the pop and any push

  function Id(e: Entry): nat
  {
    if e.raw.Payload? then e.raw.job.id else e.raw.id
  }

  // ── The failure handlers ──────────────────────────────────────────────────

  /** int(payload.get(...) or default) */
  function OrDefault(f: Field, default: int): Option<int>
  {
    match f
    case Missing => Some(default)
    case Num(n) => Some(if n == 0 then default else n)
    case Garbage => None
  }

  function Attempt(j: Job): Option<int>
  {
    OrDefault(j.attempt, 1)
  }

  function MaxAttempts(cfg: Config, j: Job): Option<int>
  {
    match j.kind
    case Webhook => Some(cfg.webhookMax)
    case Studio => OrDefault(j.maxAttempts, 4)
    case Domain => OrDefault(j.maxAttempts, 6)
    case Other => None
  }

  function Cap(k: Kind): real
  {
    if k == Studio then 120.0 else 300.0
  }

  function Pow2(n: int): (p: real)
    ensures p > 0.0
    decreases if n < 0 then -n else n
  {
    if n == 0 then 1.0 else if n > 0 then 2.0 * Pow2(n - 1) else Pow2(n + 1) / 2.0
  }

  function Min(x: real, y: real): real
  {
    if x <= y then x else y
  }

  /** 2.0 ** attempt overflows from here on. */
  const FLOAT_LIMIT := 1024

  datatype Decision = Raise | Kill | Retry(attempt: int, delay: real)

  function Backoff(j: Job, attempt: int): Decision
  {
    if attempt >= FLOAT_LIMIT then Raise else Retry(attempt, Min(Pow2(attempt), Cap(j.kind)))
  }

  function Decide(cfg: Config, j: Job, reason: string, retryable: bool): Decision
  {
    if Attempt(j).None? || MaxAttempts(cfg, j).None? then Raise
    else
      var attempt, max := Attempt(j).value, MaxAttempts(cfg, j).value;
      match j.kind
      case Webhook => if !retryable || attempt >= max then Kill else Retry(attempt, cfg.webhookDelay(attempt))
      case Domain => if attempt >= max then Kill else Backoff(j, attempt)
      case _ =>
        if OrDefault(j.timeout, 900).None? then Raise
        else if Contains(Lower(reason), "timeout") || attempt >= max then Kill
        else Backoff(j, attempt)
  }

  /** What a turn appends to the lists. */
  datatype Effect = Effect(delayed: seq<Entry>, dead: seq<Entry>, done: seq<Entry>, crashed: bool)

  const NOTHING := Effect([], [], [], false)

  function And(a: Effect, b: Effect): Effect
  {
    Effect(a.delayed + b.delayed, a.dead + b.dead, a.done + b.done, a.crashed || b.crashed)
  }

  /** The fallback push of the raw bytes; an error here leaves the main loop. */
  function RawPush(e: Entry, ok: Faults): Effect
  {
    if ok.rawPush then NOTHING.(dead := [e]) else NOTHING.(crashed := true)
  }

  /** dead_letter reports a failed push in its result, which nobody reads. */
  function DeadLetter(e: Entry, ok: Faults): Effect
  {
    if ok.deadPush then NOTHING.(dead := [e]) else NOTHING
  }

  function NextEntry(j: Job, attempt: int, delay: real, now: real): Entry
  {
    Entry(Payload(j.(attempt := Num(attempt + 1))), now + delay, delay)
  }

  /** What a handler did before it returned or raised. */
  datatype Handled = Handled(effect: Effect, raised: bool)

  /** The outbox ack of a webhook comes after the push. */
  function Carry(e: Entry, j: Job, d: Decision, ok: Faults, now: real): Handled
  {
    var ackFails := j.kind == Webhook && !ok.ack;
    match d
    case Raise => Handled(NOTHING, true)
    case Kill => Handled(DeadLetter(e, ok), ackFails)
    case Retry(attempt, delay) =>
      if !ok.delayPush then Handled(NOTHING, true)
      else Handled(NOTHING.(delayed := [NextEntry(j, attempt, delay, now)]), ackFails)
  }

  function HandleFailure(cfg: Config, e: Entry, j: Job, reason: string, retryable: bool, ok: Faults, now: real): Handled
  {
    if !ok.setup then Handled(NOTHING, true) else Carry(e, j, Decide(cfg, j, reason, retryable), ok, now)
  }

  /** The main loop answers an error of a handler with a raw push. */
  function Caught(e: Entry, h: Handled, ok: Faults): Effect
  {
    if h.raised then And(h.effect, RawPush(e, ok)) else h.effect
  }

  function Handle(cfg: Config, e: Entry, result: Result, ok: Faults, now: real): Effect
  {
    match e.raw
    case NotJson(_) => if ok.rawPush then NOTHING.(dead := [e]) else NOTHING
    case NotObject(_) => NOTHING.(crashed := true)
    case Payload(j) =>
      match result
      case Success => NOTHING.(done := [e])
      case Failure(reason, retryable) =>
        if j.kind == Other then RawPush(e, ok)
        else Caught(e, HandleFailure(cfg, e, j, reason, retryable, ok, now), ok)
  }

  // ── Turns and promotions ──────────────────────────────────────────────────

  function StepTurn(cfg: Config, q: Queue, result: Result, ok: Faults, now: real): Queue
    requires q.ready != []
  {
    var e := q.ready[0];
    var g := Handle(cfg, e, result, ok, now);
    Queue(q.ready[1..], q.delayed + g.delayed, q.dead + g.dead, q.done + g.done,
          g.crashed, q.popped + [e], q.retried + g.delayed)
  }

  function Without(s: seq<Entry>, i: nat): seq<Entry>
    requires i < |s|
  {
    s[..i] + s[i + 1..]
  }

  /** The first entry of least score. */
  function Earliest(s: seq<Entry>): (i: nat)
    requires s != []
    ensures i < |s| && forall k :: 0 <= k < |s| ==> s[i].readyAt <= s[k].readyAt
    decreases |s|
  {
    var last := |s| - 1;
    if last == 0 then 0
    else
      var i := Earliest(s[..last]);
      assert forall k :: 0 <= k < last ==> s[..last][k] == s[k];
      if s[last].readyAt < s[i].readyAt then last else i
  }

  predicate AnyDue(q: Queue, now: real)
  {
    q.delayed != [] && q.delayed[Earliest(q.delayed)].readyAt <= now
  }

  /** The earliest entry leaves the delayed set before its push to the ready list. */
  function Moved(q: Queue, pushed: bool): Queue
    requires q.delayed != []
  {
    var i := Earliest(q.delayed);
    q.(delayed := Without(q.delayed, i), ready := if pushed then q.ready + [q.delayed[i]] else q.ready)
  }

  /** The popped entry is nowhere any more. */
  function StepVanish(q: Queue, dies: bool): Queue
    requires q.ready != []
  {
    q.(ready := q.ready[1..], popped := q.popped + [q.ready[0]], crashed := dies)
  }

  function Step(cfg: Config, q: Queue, e: Event): Queue
  {
    if q.crashed then q
    else
      match e
      case Turn(result, ok, now) => if q.ready == [] then q else StepTurn(cfg, q, result, ok, now)
      case Promote(now, pushed) => if AnyDue(q, now) then Moved(q, pushed) else q
      case Vanish(dies) => if q.ready == [] then q else StepVanish(q, dies)
  }

  function Run(cfg: Config, q: Queue, events: seq<Event>): Queue
    decreases |events|
  {
    if events == [] then q else Run(cfg, Step(cfg, q, events[0]), events[1..])
  }

  // ── What an entry weighs ──────────────────────────────────────────────────

  /** How often an entry can still be processed: max(1, max_attempts - attempt + 1). */
  function Rounds(cfg: Config, e: Entry): (r: int)
    ensures r >= 1
  {
    if !e.raw.Payload? || Attempt(e.raw.job).None? || MaxAttempts(cfg, e.raw.job).None? then 1
    else
      var left := MaxAttempts(cfg, e.raw.job).value - Attempt(e.raw.job).value;
      if left < 0 then 1 else left + 1
  }

  /** Sum of min(2^i, cap) over a <= i < m. */
  function BackSum(a: int, m: int, cap: real): (s: real)
    requires cap > 0.0
    ensures s >= 0.0
    decreases m - a
  {
    if a >= m then 0.0 else Min(Pow2(a), cap) + BackSum(a + 1, m, cap)
  }

  predicate HasBackoff(e: Entry)
  {
    e.raw.Payload? && e.raw.job.kind in {Studio, Domain}
  }

  /** The most a studio or domain job can still be delayed for. */
  function Potential(cfg: Config, e: Entry): (r: real)
    ensures r >= 0.0
  {
    if !HasBackoff(e) || Attempt(e.raw.job).None? || MaxAttempts(cfg, e.raw.job).None? then 0.0
    else BackSum(Attempt(e.raw.job).value, MaxAttempts(cfg, e.raw.job).value, Cap(e.raw.job.kind))
  }

  /** Every job, or one. */
  datatype Scope = All | Only(id: nat)

  predicate Meant(which: Scope, e: Entry)
  {
    which.All? || Id(e) == which.id
  }

  datatype Weight =
    | Count(which: Scope)
    | RoundsLeft(cfg: Config, which: Scope)
    | BackoffLeft(cfg: Config, which: Scope)
    | Delay(which: Scope)

  function Weigh(w: Weight, e: Entry): (r: real)
    ensures r >= 0.0 || w.Delay?
    ensures !Meant(w.which, e) ==> r == 0.0
  {
    if !Meant(w.which, e) then 0.0
    else
      match w
      case Count(_) => 1.0
      case RoundsLeft(cfg, _) => Rounds(cfg, e) as real
      case BackoffLeft(cfg, _) => Potential(cfg, e)
      case Delay(_) => if HasBackoff(e) then e.delay else 0.0
  }

  // ── Sums over lists of entries ────────────────────────────────────────────

  function Sum(w: Weight, s: seq<Entry>): real
  {
    if s == [] then 0.0 else Weigh(w, s[0]) + Sum(w, s[1..])
  }

  lemma {:induction false} SumAppend(w: Weight, s: seq<Entry>, t: seq<Entry>)
    ensures Sum(w, s + t) == Sum(w, s) + Sum(w, t)
    decreases |s|
  {
    if s == [] {
      assert s + t == t;
    } else {
      assert (s + t)[1..] == s[1..] + t;
      SumAppend(w, s[1..], t);
    }
  }

  lemma SumOne(w: Weight, e: Entry)
    ensures Sum(w, [e]) == Weigh(w, e)
  {
    assert [e][1..] == [];
  }

  lemma {:induction false} SumWithout(w: Weight, s: seq<Entry>, i: nat)
    requires i < |s|
    ensures Sum(w, Without(s, i)) == Sum(w, s) - Weigh(w, s[i])
  {
    SumAppend(w, s[..i], s[i + 1..]);
    SumAppend(w, s[..i], s[i..]);
    assert s[..i] + s[i..] == s;
    assert s[i..][1..] == s[i + 1..];
  }

  /** Everything the queue still holds, in any list. */
  function Held(w: Weight, q: Queue): real
  {
    Sum(w, q.ready) + Sum(w, q.delayed) + Sum(w, q.dead) + Sum(w, q.done)
  }

  /** What is still to be processed. */
  function Pending(w: Weight, q: Queue): real
  {
    Sum(w, q.ready) + Sum(w, q.delayed)
  }

  function Added(w: Weight, g: Effect): real
  {
    Sum(w, g.delayed) + Sum(w, g.dead) + Sum(w, g.done)
  }

  lemma TurnSums(cfg: Config, q: Queue, result: Result, ok: Faults, now: real, w: Weight)
    requires q.ready != []
    ensures var q', g := StepTurn(cfg, q, result, ok, now), Handle(cfg, q.ready[0], result, ok, now);
      && Held(w, q') == Held(w, q) - Weigh(w, q.ready[0]) + Added(w, g)
      && Pending(w, q') == Pending(w, q) - Weigh(w, q.ready[0]) + Sum(w, g.delayed)
      && Sum(w, q'.popped) == Sum(w, q.popped) + Weigh(w, q.ready[0])
      && Sum(w, q'.retried) == Sum(w, q.retried) + Sum(w, g.delayed)
  {
    var g := Handle(cfg, q.ready[0], result, ok, now);
    SumAppend(w, q.delayed, g.delayed);
    SumAppend(w, q.dead, g.dead);
    SumAppend(w, q.done, g.done);
    SumAppend(w, q.popped, [q.ready[0]]);
    SumAppend(w, q.retried, g.delayed);
  }

  lemma VanishSums(q: Queue, dies: bool, w: Weight)
    requires q.ready != []
    ensures var q' := StepVanish(q, dies);
      && Held(w, q') == Held(w, q) - Weigh(w, q.ready[0])
      && Pending(w, q') == Pending(w, q) - Weigh(w, q.ready[0])
      && Sum(w, q'.popped) == Sum(w, q.popped) + Weigh(w, q.ready[0])
  {
    SumAppend(w, q.popped, [q.ready[0]]);
    SumOne(w, q.ready[0]);
  }

  lemma MovedSums(q: Queue, pushed: bool, w: Weight)
    requires q.delayed != []
    ensures pushed ==> Pending(w, Moved(q, pushed)) == Pending(w, q)
    ensures !w.Delay? ==> Pending(w, Moved(q, pushed)) <= Pending(w, q)
  {
    var i := Earliest(q.delayed);
    SumWithout(w, q.delayed, i);
    SumAppend(w, q.ready, [q.delayed[i]]);
    SumOne(w, q.delayed[i]);
  }

  // ── No job is lost ────────────────────────────────────────────────────────

  /** A turn on this entry leaves no copy of it behind. */
  predicate Loses(cfg: Config, e: Entry, result: Result, ok: Faults)
  {
    match e.raw
    case NotJson(_) => !ok.rawPush
    case NotObject(_) => true
    case Payload(j) =>
      result.Failure? &&
      if j.kind == Other || !ok.setup then !ok.rawPush
      else LosesOn(j, Decide(cfg, j, result.reason, result.retryable), ok)
  }

  predicate LosesOn(j: Job, d: Decision, ok: Faults)
  {
    match d
    case Raise => !ok.rawPush
    case Kill => !ok.deadPush && (j.kind == Webhook && !ok.ack ==> !ok.rawPush)
    case Retry(_, _) => !ok.delayPush && !ok.rawPush
  }

  /** A turn on this entry leaves two copies: the outbox ack of a webhook raised after the push. */
  predicate Duplicates(cfg: Config, e: Entry, result: Result, ok: Faults)
  {
    && e.raw.Payload? && result.Failure? && ok.setup
    && DuplicatesOn(e.raw.job, Decide(cfg, e.raw.job, result.reason, result.retryable), ok)
  }

  predicate DuplicatesOn(j: Job, d: Decision, ok: Faults)
  {
    j.kind == Webhook && !ok.ack && ok.rawPush && ((d.Kill? && ok.deadPush) || (d.Retry? && ok.delayPush))
  }

  lemma AddedAnd(w: Weight, a: Effect, b: Effect)
    ensures Added(w, And(a, b)) == Added(w, a) + Added(w, b)
  {
    SumAppend(w, a.delayed, b.delayed);
    SumAppend(w, a.dead, b.dead);
    SumAppend(w, a.done, b.done);
  }

  lemma CarryAccounts(e: Entry, j: Job, d: Decision, ok: Faults, now: real, which: Scope)
    requires e.raw == Payload(j)
    ensures Added(Count(which), Caught(e, Carry(e, j, d, ok, now), ok)) ==
            if !Meant(which, e) || LosesOn(j, d, ok) then 0.0 else if DuplicatesOn(j, d, ok) then 2.0 else 1.0
  {
    var w := Count(which);
    SumOne(w, e);
    var h := Carry(e, j, d, ok, now);
    AddedAnd(w, h.effect, RawPush(e, ok));
    if d.Retry? {
      var n := NextEntry(j, d.attempt, d.delay, now);
      SumOne(w, n);
      assert Weigh(w, n) == Weigh(w, e);
    }
  }

  /** The popped entry ends as done, delayed or dead exactly once, except where Loses or Duplicates says. */
  lemma HandleAccounts(cfg: Config, e: Entry, result: Result, ok: Faults, now: real, which: Scope)
    ensures Added(Count(which), Handle(cfg, e, result, ok, now)) ==
            if !Meant(which, e) || Loses(cfg, e, result, ok) then 0.0
            else if Duplicates(cfg, e, result, ok) then 2.0
            else 1.0
  {
    SumOne(Count(which), e);
    AddedAnd(Count(which), NOTHING, RawPush(e, ok));
    if e.raw.Payload? && result.Failure? {
      var d := Decide(cfg, e.raw.job, result.reason, result.retryable);
      CarryAccounts(e, e.raw.job, d, ok, now, which);
    }
  }

  predicate Lossless(cfg: Config, q: Queue, e: Event)
  {
    match e
    case Turn(result, ok, now) => q.ready != [] ==> !Loses(cfg, q.ready[0], result, ok)
    case Promote(now, pushed) => AnyDue(q, now) ==> pushed
    case Vanish(_) => q.ready == []
  }

  predicate Once(cfg: Config, q: Queue, e: Event)
  {
    e.Turn? && q.ready != [] ==> !Duplicates(cfg, q.ready[0], e.result, e.ok)
  }

  predicate EveryStep(cfg: Config, q: Queue, events: seq<Event>, once: bool)
    decreases |events|
  {
    events == [] ||
    (&& Lossless(cfg, q, events[0])
     && (once ==> Once(cfg, q, events[0]))
     && EveryStep(cfg, Step(cfg, q, events[0]), events[1..], once))
  }

  /** In every run without a losing step each job is still in one of the four lists, and exactly as often as at the
      start if no ack raised after its push. */
  lemma {:induction false} NoJobLost(cfg: Config, q: Queue, events: seq<Event>, once: bool, which: Scope)
    requires EveryStep(cfg, q, events, once)
    ensures Held(Count(which), Run(cfg, q, events)) >= Held(Count(which), q)
    ensures once ==> Held(Count(which), Run(cfg, q, events)) == Held(Count(which), q)
    decreases |events|
  {
    if events != [] {
      if !q.crashed {
        match events[0]
        case Turn(result, ok, now) =>
          if q.ready != [] {
            HandleAccounts(cfg, q.ready[0], result, ok, now, which);
            TurnSums(cfg, q, result, ok, now, Count(which));
          }
        case Promote(now, pushed) => if AnyDue(q, now) { MovedSums(q, pushed, Count(which)); }
        case Vanish(_) =>
      }
      NoJobLost(cfg, Step(cfg, q, events[0]), events[1..], once, which);
    }
  }

  /** With every Redis and outbox call going through, the only entries that can be lost are JSON values
      that are no objects; such an entry stops the worker. */
  lemma LossWithoutFaults(cfg: Config, e: Entry, result: Result, now: real)
    ensures Loses(cfg, e, result, NO_FAULT) <==> e.raw.NotObject?
    ensures Handle(cfg, e, result, NO_FAULT, now).crashed <==> e.raw.NotObject?
    ensures !Duplicates(cfg, e, result, NO_FAULT)
  {
  }

  /** One failing call is enough to lose a studio or domain job with the worker running on exactly when the handler
      gives it up and that call is the dead-letter push. */
  lemma LostInSilence(cfg: Config, e: Entry, j: Job, reason: string, retryable: bool, ok: Faults, now: real)
    requires e.raw == Payload(j) && j.kind in {Studio, Domain} && ok.setup
    ensures var result := Failure(reason, retryable);
      Loses(cfg, e, result, ok) && !Handle(cfg, e, result, ok, now).crashed <==>
        Decide(cfg, j, reason, retryable).Kill? && !ok.deadPush
  {
  }

  // ── The queue drains ──────────────────────────────────────────────────────

  lemma RetriesBelowTheLimit(cfg: Config, j: Job, reason: string, retryable: bool)
    ensures var d := Decide(cfg, j, reason, retryable); d.Retry? ==>
      && Attempt(j) == Some(d.attempt)
      && MaxAttempts(cfg, j).Some? && d.attempt < MaxAttempts(cfg, j).value
      && (j.kind != Webhook ==> j.kind != Other && d.delay == Min(Pow2(d.attempt), Cap(j.kind)))
  {
  }

  lemma RoundsAfter(cfg: Config, e: Entry, j: Job, attempt: int, n: Entry)
    requires e.raw == Payload(j) && Attempt(j) == Some(attempt)
    requires MaxAttempts(cfg, j).Some? && attempt < MaxAttempts(cfg, j).value
    requires n.raw == Payload(j.(attempt := Num(attempt + 1)))
    ensures Rounds(cfg, n) < Rounds(cfg, e)
  {
    assert MaxAttempts(cfg, n.raw.job) == MaxAttempts(cfg, j);
  }

  /** A turn delays nothing, or one entry: the popped job with its attempt raised. */
  lemma DelayedByATurn(cfg: Config, e: Entry, result: Result, ok: Faults, now: real)
    ensures var g := Handle(cfg, e, result, ok, now).delayed;
      g == [] ||
      (&& e.raw.Payload? && result.Failure?
       && var d := Decide(cfg, e.raw.job, result.reason, result.retryable);
          d.Retry? && g == [NextEntry(e.raw.job, d.attempt, d.delay, now)])
  {
  }

  lemma RetrySpendsARound(cfg: Config, e: Entry, result: Result, ok: Faults, now: real, which: Scope)
    ensures Sum(RoundsLeft(cfg, which), Handle(cfg, e, result, ok, now).delayed)
              <= Weigh(RoundsLeft(cfg, which), e) - Weigh(Count(which), e)
  {
    DelayedByATurn(cfg, e, result, ok, now);
    var g := Handle(cfg, e, result, ok, now).delayed;
    if g != [] {
      var j := e.raw.job;
      RetriesBelowTheLimit(cfg, j, result.reason, result.retryable);
      RoundsAfter(cfg, e, j, Attempt(j).value, g[0]);
      assert g[1..] == [];
    }
  }

  /** Without arrivals, jobs are handed to the loop at most as often as the pending entries have rounds left. */
  lemma {:induction false} QueueDrains(cfg: Config, q: Queue, events: seq<Event>, which: Scope)
    ensures var q' := Run(cfg, q, events); var w := RoundsLeft(cfg, which);
      Sum(Count(which), q'.popped) + Pending(w, q') <= Sum(Count(which), q.popped) + Pending(w, q)
    decreases |events|
  {
    if events != [] {
      if !q.crashed {
        match events[0]
        case Turn(result, ok, now) =>
          if q.ready != [] {
            TurnSums(cfg, q, result, ok, now, RoundsLeft(cfg, which));
            TurnSums(cfg, q, result, ok, now, Count(which));
            RetrySpendsARound(cfg, q.ready[0], result, ok, now, which);
          }
        case Promote(now, pushed) => if AnyDue(q, now) { MovedSums(q, pushed, RoundsLeft(cfg, which)); }
        case Vanish(dies) =>
          if q.ready != [] {
            VanishSums(q, dies, RoundsLeft(cfg, which));
            VanishSums(q, dies, Count(which));
          }
      }
      QueueDrains(cfg, Step(cfg, q, events[0]), events[1..], which);
    }
  }

  lemma {:induction false} SumAtLeastLength(w: Weight, s: seq<Entry>)
    requires w.which.All? && (w.Count? || w.RoundsLeft?)
    ensures Sum(w, s) >= |s| as real
    ensures w.Count? ==> Sum(w, s) == |s| as real
  {
    if s != [] {
      SumAtLeastLength(w, s[1..]);
    }
  }

  /** The turns taken so far and the entries still pending are together at most the rounds at the start: after that many
      turns the queue is empty, whatever failed. */
  lemma TurnsAreBounded(cfg: Config, q: Queue, events: seq<Event>)
    ensures var q' := Run(cfg, q, events);
      (|q'.popped| - |q.popped| + |q'.ready| + |q'.delayed|) as real <= Pending(RoundsLeft(cfg, All), q)
  {
    var q' := Run(cfg, q, events);
    QueueDrains(cfg, q, events, All);
    SumAtLeastLength(Count(All), q.popped);
    SumAtLeastLength(Count(All), q'.popped);
    SumAtLeastLength(RoundsLeft(cfg, All), q'.ready);
    SumAtLeastLength(RoundsLeft(cfg, All), q'.delayed);
  }

  lemma {:induction false} SumNonNegative(w: Weight, s: seq<Entry>)
    requires !w.Delay?
    ensures Sum(w, s) >= 0.0
  {
    if s != [] {
      SumNonNegative(w, s[1..]);
    }
  }

  lemma {:induction false} SumOfNone(w: Weight, s: seq<Entry>)
    requires forall e :: e in s ==> Weigh(w, e) == 0.0
    ensures Sum(w, s) == 0.0
  {
    if s != [] {
      SumOfNone(w, s[1..]);
    }
  }

  /** The only pending entry with this job's id is at the head of the ready list, never processed or delayed yet. */
  predicate Alone(q: Queue, id: nat)
  {
    && q.ready != [] && Id(q.ready[0]) == id
    && (forall e :: e in q.ready[1..] + q.delayed + q.popped + q.retried ==> Id(e) != id)
  }

  lemma AloneSums(q: Queue, id: nat, w: Weight)
    requires Alone(q, id) && w.which == Only(id)
    ensures Pending(w, q) == Weigh(w, q.ready[0]) && Sum(w, q.popped) == 0.0 && Sum(w, q.retried) == 0.0
  {
    var others := q.ready[1..] + q.delayed + q.popped + q.retried;
    assert forall e :: e in q.ready[1..] || e in q.delayed || e in q.popped || e in q.retried ==> e in others;
    SumOfNone(w, q.ready[1..]);
    SumOfNone(w, q.delayed);
    SumOfNone(w, q.popped);
    SumOfNone(w, q.retried);
  }

  /** A job is processed at most max(1, max_attempts - attempt + 1) times. */
  lemma ProcessedAtMost(cfg: Config, q: Queue, events: seq<Event>, id: nat)
    requires Alone(q, id)
    ensures Sum(Count(Only(id)), Run(cfg, q, events).popped) <= Rounds(cfg, q.ready[0]) as real
  {
    var which := Only(id);
    QueueDrains(cfg, q, events, which);
    AloneSums(q, id, RoundsLeft(cfg, which));
    AloneSums(q, id, Count(which));
    SumNonNegative(RoundsLeft(cfg, which), Run(cfg, q, events).ready);
    SumNonNegative(RoundsLeft(cfg, which), Run(cfg, q, events).delayed);
  }

  // ── Total backoff ─────────────────────────────────────────────────────────

  lemma {:induction false} BackSumBelowPower(a: int, m: int, cap: real)
    requires cap > 0.0 && a <= m
    ensures BackSum(a, m, cap) <= Pow2(m) - Pow2(a)
    decreases m - a
  {
    if a < m {
      BackSumBelowPower(a + 1, m, cap);
      DoublePow(a);
    }
  }

  lemma {:induction false} BackSumBelowCap(a: int, m: int, cap: real)
    requires cap > 0.0 && a <= m
    ensures BackSum(a, m, cap) <= (m - a) as real * cap
    decreases m - a
  {
    if a < m {
      BackSumBelowCap(a + 1, m, cap);
      assert (m - a) as real == (m - (a + 1)) as real + 1.0;
    }
  }

  lemma DoublePow(a: int)
    ensures Pow2(a + 1) == 2.0 * Pow2(a)
  {
  }

  lemma PotentialAfter(cfg: Config, e: Entry, j: Job, attempt: int, delay: real, now: real)
    requires e.raw == Payload(j) && j.kind in {Studio, Domain} && Attempt(j) == Some(attempt)
    requires MaxAttempts(cfg, j).Some? && attempt < MaxAttempts(cfg, j).value
    requires delay == Min(Pow2(attempt), Cap(j.kind))
    ensures delay + Potential(cfg, NextEntry(j, attempt, delay, now)) <= Potential(cfg, e)
  {
    var m := MaxAttempts(cfg, j).value;
    var n := j.(attempt := Num(attempt + 1));
    assert MaxAttempts(cfg, n) == Some(m);
    assert attempt == -1 ==> BackSum(1, m, Cap(j.kind)) <= BackSum(0, m, Cap(j.kind));
  }

  lemma RetrySpendsPotential(cfg: Config, e: Entry, result: Result, ok: Faults, now: real, which: Scope)
    ensures var g := Handle(cfg, e, result, ok, now).delayed;
      Sum(Delay(which), g) + Sum(BackoffLeft(cfg, which), g) <= Weigh(BackoffLeft(cfg, which), e)
  {
    DelayedByATurn(cfg, e, result, ok, now);
    var g := Handle(cfg, e, result, ok, now).delayed;
    if g != [] {
      var j := e.raw.job;
      var d := Decide(cfg, j, result.reason, result.retryable);
      RetriesBelowTheLimit(cfg, j, result.reason, result.retryable);
      assert g[1..] == [];
      if j.kind != Webhook {
        PotentialAfter(cfg, e, j, d.attempt, d.delay, now);
      }
    }
  }

  lemma {:induction false} BackoffIsBounded(cfg: Config, q: Queue, events: seq<Event>, which: Scope)
    ensures var q' := Run(cfg, q, events); var w := BackoffLeft(cfg, which);
      Sum(Delay(which), q'.retried) + Pending(w, q') <= Sum(Delay(which), q.retried) + Pending(w, q)
    decreases |events|
  {
    if events != [] {
      if !q.crashed {
        match events[0]
        case Turn(result, ok, now) =>
          if q.ready != [] {
            TurnSums(cfg, q, result, ok, now, BackoffLeft(cfg, which));
            TurnSums(cfg, q, result, ok, now, Delay(which));
            RetrySpendsPotential(cfg, q.ready[0], result, ok, now, which);
          }
        case Promote(now, pushed) => if AnyDue(q, now) { MovedSums(q, pushed, BackoffLeft(cfg, which)); }
        case Vanish(dies) =>
          if q.ready != [] {
            VanishSums(q, dies, BackoffLeft(cfg, which));
          }
      }
      BackoffIsBounded(cfg, Step(cfg, q, events[0]), events[1..], which);
    }
  }

  lemma DelaysWithinPotential(cfg: Config, q: Queue, events: seq<Event>, id: nat)
    requires Alone(q, id)
    ensures Sum(Delay(Only(id)), Run(cfg, q, events).retried) <= Potential(cfg, q.ready[0])
  {
    var w := BackoffLeft(cfg, Only(id));
    BackoffIsBounded(cfg, q, events, Only(id));
    AloneSums(q, id, w);
    AloneSums(q, id, Delay(Only(id)));
    SumNonNegative(w, Run(cfg, q, events).ready);
    SumNonNegative(w, Run(cfg, q, events).delayed);
  }

  /** All delays of one studio or domain job together: at most min(2^max - 2^attempt, (max - attempt) * cap). */
  lemma TotalBackoff(cfg: Config, q: Queue, events: seq<Event>, id: nat, j: Job, a: int, m: int)
    requires Alone(q, id) && q.ready[0].raw == Payload(j) && j.kind in {Studio, Domain}
    requires Attempt(j) == Some(a) && MaxAttempts(cfg, j) == Some(m) && a <= m
    ensures Sum(Delay(Only(id)), Run(cfg, q, events).retried) <= Min(Pow2(m) - Pow2(a), (m - a) as real * Cap(j.kind))
  {
    DelaysWithinPotential(cfg, q, events, id);
    var bound := BackSum(a, m, Cap(j.kind));
    assert Potential(cfg, q.ready[0]) == bound;
    BackSumBelowPower(a, m, Cap(j.kind));
    BackSumBelowCap(a, m, Cap(j.kind));
  }

  // ── Timeouts ──────────────────────────────────────────────────────────────

  lemma KilledOnlyAtTheLimit(cfg: Config, j: Job, reason: string, retryable: bool)
    requires j.kind == Studio && Attempt(j).Some? && MaxAttempts(cfg, j).Some? && OrDefault(j.timeout, 900).Some?
    requires !Contains(Lower(reason), "timeout")
    ensures Decide(cfg, j, reason, retryable).Kill? <==> Attempt(j).value >= MaxAttempts(cfg, j).value
  {
  }

  /** The worker's own TimeoutError never takes the timeout branch: such a job is retried up to its limit. */
  lemma OwnTimeoutIsRetried(cfg: Config, j: Job, t: TimedJob, seconds: int, retryable: bool)
    requires j.kind == Studio && Attempt(j).Some? && MaxAttempts(cfg, j).Some?
    requires OrDefault(j.timeout, 900) == Some(seconds)
    ensures Decide(cfg, j, TimeoutText(t, seconds), retryable).Kill? <==> Attempt(j).value >= MaxAttempts(cfg, j).value
  {
    OwnTextHasNoM(t, seconds);
    NeverSaysTimeout(TimeoutText(t, seconds));
    KilledOnlyAtTheLimit(cfg, j, TimeoutText(t, seconds), retryable);
  }
}

/** Which list a job ends in, and after how many rounds. */
module JobOutcomes {
  import opened Wrappers
  import opened Text
  import opened TimeoutTexts
  import opened JobWorker

  // ── When a handler retries, gives up or raises ────────────────────────────

  predicate Readable(f: Field)
  {
    !f.Garbage?
  }

  /** A count as the worker reads it: absent and zero mean the default. */
  function Reads(f: Field, default: int): int
    requires Readable(f)
  {
    if f.Missing? || f == Num(0) then default else f.n
  }

  /** A domain job is given up exactly at its limit, by default the sixth attempt; before, it is retried after 2^attempt
      seconds, at most 300. */
  lemma DomainDecision(cfg: Config, j: Job, reason: string, retryable: bool)
    requires j.kind == Domain
    ensures var d := Decide(cfg, j, reason, retryable);
      && (!(Readable(j.attempt) && Readable(j.maxAttempts)) ==> d == Raise)
      && (Readable(j.attempt) && Readable(j.maxAttempts) ==>
            var a, m := Reads(j.attempt, 1), Reads(j.maxAttempts, 6);
            && (d == Kill <==> a >= m)
            && (d == Raise <==> a < m && a >= 1024)
            && (d.Retry? ==> d.attempt == a && d.delay == if Pow2(a) <= 300.0 then Pow2(a) else 300.0))
  {
  }

  /** A studio job likewise, by default up to the fourth attempt and 120 seconds; an error that speaks of a timeout is
      given up at once. */
  lemma StudioDecision(cfg: Config, j: Job, reason: string, retryable: bool)
    requires j.kind == Studio
    ensures var d := Decide(cfg, j, reason, retryable);
      var readable := Readable(j.attempt) && Readable(j.maxAttempts) && Readable(j.timeout);
      && (!readable ==> d == Raise)
      && (readable ==>
            var a, m := Reads(j.attempt, 1), Reads(j.maxAttempts, 4);
            && (d == Kill <==> Contains(Lower(reason), "timeout") || a >= m)
            && (d == Raise <==> !Contains(Lower(reason), "timeout") && a < m && a >= 1024)
            && (d.Retry? ==> d.attempt == a && d.delay == if Pow2(a) <= 120.0 then Pow2(a) else 120.0))
  {
  }

  /** A webhook is given up exactly at the configured limit or when the failure is final; otherwise it is retried after the
      configured backoff. */
  lemma WebhookDecision(cfg: Config, j: Job, reason: string, retryable: bool)
    requires j.kind == Webhook
    ensures var d := Decide(cfg, j, reason, retryable);
      && (!Readable(j.attempt) ==> d == Raise)
      && (Readable(j.attempt) ==>
            var a := Reads(j.attempt, 1);
            && (d == Kill <==> !retryable || a >= cfg.webhookMax)
            && (retryable && a < cfg.webhookMax ==> d == Retry(a, cfg.webhookDelay(a))))
  {
  }

  lemma ContainsMiddle(a: string, part: string, b: string)
    ensures Contains(a + part + b, part)
  {
    assert (a + part + b)[|a|..|a| + |part|] == part;
    assert At(a + part + b, part, |a|);
  }

  lemma {:induction false} LowerAppend(s: string, t: string)
    ensures Lower(s + t) == Lower(s) + Lower(t)
  {
    if s == [] {
      assert s + t == t;
    } else {
      assert (s + t)[1..] == s[1..] + t;
      LowerAppend(s[1..], t);
      assert LowerChar(s[0]) + (Lower(s[1..]) + Lower(t)) == LowerChar(s[0]) + Lower(s[1..]) + Lower(t);
    }
  }

  /** Wherever the word stands in the error text, a studio job is given up at its first failure. */
  lemma TimeoutIsGivenUp(cfg: Config, j: Job, before: string, word: string, after: string, retryable: bool)
    requires j.kind == Studio && Readable(j.attempt) && Readable(j.maxAttempts) && Readable(j.timeout)
    requires Lower(word) == "timeout"
    ensures Decide(cfg, j, before + word + after, retryable) == Kill
  {
    LowerAppend(before + word, after);
    LowerAppend(before, word);
    ContainsMiddle(Lower(before), "timeout", Lower(after));
    StudioDecision(cfg, j, before + word + after, retryable);
  }

  // ── Where a popped entry goes ─────────────────────────────────────────────

  predicate Succeeds(e: Entry, result: Result)
  {
    e.raw.Payload? && result.Success?
  }

  /** The job failed and its handler ran. */
  predicate HandlerRan(e: Entry, result: Result, ok: Faults)
  {
    e.raw.Payload? && result.Failure? && e.raw.job.kind != Other && ok.setup
  }

  predicate GivenUp(cfg: Config, e: Entry, result: Result, ok: Faults)
  {
    HandlerRan(e, result, ok) && Decide(cfg, e.raw.job, result.reason, result.retryable) == Kill
  }

  predicate Rescheduled(cfg: Config, e: Entry, result: Result, ok: Faults)
  {
    HandlerRan(e, result, ok) && Decide(cfg, e.raw.job, result.reason, result.retryable).Retry? && ok.delayPush
  }

  /** It could not be parsed, has no handler, or its handler raised: the raw bytes are pushed. */
  predicate FallsBack(cfg: Config, e: Entry, result: Result, ok: Faults)
  {
    || e.raw.NotJson?
    || (e.raw.Payload? && result.Failure? &&
        (|| !HandlerRan(e, result, ok)
         || (!GivenUp(cfg, e, result, ok) && !Rescheduled(cfg, e, result, ok))
         || (e.raw.job.kind == Webhook && !ok.ack)))
  }

  function One(e: Entry, yes: bool): seq<Entry>
  {
    if yes then [e] else []
  }

  /** The same job, its attempt one up, due after its delay. */
  predicate IsNextOf(n: Entry, e: Entry, now: real)
  {
    && e.raw.Payload? && n.raw.Payload? && Readable(e.raw.job.attempt)
    && n.raw.job == e.raw.job.(attempt := Num(Reads(e.raw.job.attempt, 1) + 1)) && n.readyAt == now + n.delay
  }

  /** What a turn does: the popped entry leaves the head of ready, a success goes to done and nowhere else, a
      job that is given up or falls back goes to dead, and a retry is delayed. The worker stops exactly at a value that is no
      object, or when the raw push of a failed job fails. */
  lemma TurnLists(cfg: Config, q: Queue, result: Result, ok: Faults, now: real)
    requires q.ready != [] && !q.crashed
    ensures var q', e := Step(cfg, q, Turn(result, ok, now)), q.ready[0];
      && q'.ready == q.ready[1..]
      && (q'.crashed <==> e.raw.NotObject? || (e.raw.Payload? && FallsBack(cfg, e, result, ok) && !ok.rawPush))
      && q'.done == q.done + One(e, Succeeds(e, result))
      && q'.dead == q.dead + One(e, GivenUp(cfg, e, result, ok) && ok.deadPush)
                           + One(e, FallsBack(cfg, e, result, ok) && ok.rawPush)
      && (!Rescheduled(cfg, e, result, ok) ==> q'.delayed == q.delayed)
      && (Rescheduled(cfg, e, result, ok) ==>
            |q'.delayed| == |q.delayed| + 1 && q'.delayed[..|q.delayed|] == q.delayed
            && IsNextOf(q'.delayed[|q.delayed|], e, now)
            && q'.delayed[|q.delayed|].delay == Decide(cfg, e.raw.job, result.reason, result.retryable).delay)
  {
    HandleLists(cfg, q.ready[0], result, ok, now);
  }

  lemma HandleLists(cfg: Config, e: Entry, result: Result, ok: Faults, now: real)
    ensures var g := Handle(cfg, e, result, ok, now);
      && (g.crashed <==> e.raw.NotObject? || (e.raw.Payload? && FallsBack(cfg, e, result, ok) && !ok.rawPush))
      && g.done == One(e, Succeeds(e, result))
      && g.dead == One(e, GivenUp(cfg, e, result, ok) && ok.deadPush) + One(e, FallsBack(cfg, e, result, ok) && ok.rawPush)
      && (!Rescheduled(cfg, e, result, ok) ==> g.delayed == [])
      && (Rescheduled(cfg, e, result, ok) ==>
            && |g.delayed| == 1 && IsNextOf(g.delayed[0], e, now)
            && g.delayed[0].delay == Decide(cfg, e.raw.job, result.reason, result.retryable).delay)
  {
    if HandlerRan(e, result, ok) {
      CarryLists(e, e.raw.job, Decide(cfg, e.raw.job, result.reason, result.retryable), ok, now);
      RetriesBelowTheLimit(cfg, e.raw.job, result.reason, result.retryable);
    }
  }

  lemma CarryLists(e: Entry, j: Job, d: Decision, ok: Faults, now: real)
    requires e.raw == Payload(j)
    ensures var g := Caught(e, Carry(e, j, d, ok, now), ok);
      && g.done == []
      && (g.crashed <==> !ok.rawPush && (d == Raise || (d.Retry? && !ok.delayPush) || (j.kind == Webhook && !ok.ack)))
      && g.dead == One(e, d == Kill && ok.deadPush)
           + One(e, ok.rawPush && (d == Raise || (d.Retry? && !ok.delayPush) || (j.kind == Webhook && !ok.ack)))
      && g.delayed == if d.Retry? && ok.delayPush then [NextEntry(j, d.attempt, d.delay, now)] else []
  {
  }

  /** Nothing but a turn adds to done or dead. A promotion takes a due entry that no other delayed one precedes and puts
      it at the end of the ready list, if its push goes through. */
  lemma OtherLists(cfg: Config, q: Queue, e: Event)
    requires !e.Turn?
    ensures var q' := Step(cfg, q, e);
      && q'.done == q.done && q'.dead == q.dead
      && (e.Vanish? && !q.crashed && q.ready != [] ==> q'.crashed == e.dies) && (e.Promote? ==> q'.crashed == q.crashed)
      && (e.Vanish? ==> q'.delayed == q.delayed && q'.ready == if q.crashed || q.ready == [] then q.ready else q.ready[1..])
      && (e.Promote? && q' != q ==>
            exists i :: 0 <= i < |q.delayed| && q.delayed[i].readyAt <= e.now
              && (forall k :: 0 <= k < |q.delayed| ==> q.delayed[i].readyAt <= q.delayed[k].readyAt)
              && q'.delayed == q.delayed[..i] + q.delayed[i + 1..] && q'.ready == q.ready + One(q.delayed[i], e.pushed))
  {
    if e.Promote? && !q.crashed && AnyDue(q, e.now) {
      var i := Earliest(q.delayed);
      assert Step(cfg, q, e) == Moved(q, e.pushed);
      assert Moved(q, e.pushed).delayed == q.delayed[..i] + q.delayed[i + 1..];
      assert Moved(q, e.pushed).ready == q.ready + One(q.delayed[i], e.pushed);
    }
  }

  /** A due job is promoted. */
  lemma DueIsPromoted(cfg: Config, q: Queue, k: nat, now: real, pushed: bool)
    requires !q.crashed && k < |q.delayed| && q.delayed[k].readyAt <= now
    ensures |Step(cfg, q, Promote(now, pushed)).delayed| == |q.delayed| - 1
  {
  }

  // ── Over runs ─────────────────────────────────────────────────────────────

  predicate TakesTurn(q: Queue, e: Event)
  {
    e.Turn? && !q.crashed && q.ready != []
  }

  function SucceededNow(q: Queue, e: Event): seq<Entry>
  {
    if TakesTurn(q, e) then One(q.ready[0], Succeeds(q.ready[0], e.result)) else []
  }

  /** Given up, or fallen back to the raw push, with the push going through. */
  function BuriedNow(cfg: Config, q: Queue, e: Event): seq<Entry>
  {
    if TakesTurn(q, e) then
      One(q.ready[0], GivenUp(cfg, q.ready[0], e.result, e.ok) && e.ok.deadPush)
      + One(q.ready[0], FallsBack(cfg, q.ready[0], e.result, e.ok) && e.ok.rawPush)
    else []
  }

  /** The entries whose turn succeeded, in order. */
  function Succeeded(cfg: Config, q: Queue, events: seq<Event>): seq<Entry>
    decreases |events|
  {
    if events == [] then [] else SucceededNow(q, events[0]) + Succeeded(cfg, Step(cfg, q, events[0]), events[1..])
  }

  /** The entries that were given up, and those that fell back to the raw push, in order. */
  function Buried(cfg: Config, q: Queue, events: seq<Event>): seq<Entry>
    decreases |events|
  {
    if events == [] then [] else BuriedNow(cfg, q, events[0]) + Buried(cfg, Step(cfg, q, events[0]), events[1..])
  }

  lemma StepBuries(cfg: Config, q: Queue, e: Event)
    ensures var q' := Step(cfg, q, e); q'.done == q.done + SucceededNow(q, e) && q'.dead == q.dead + BuriedNow(cfg, q, e)
  {
    if TakesTurn(q, e) {
      TurnLists(cfg, q, e.result, e.ok, e.now);
    } else if !e.Turn? {
      OtherLists(cfg, q, e);
    }
  }

  lemma Regroup(a: seq<Entry>, b: seq<Entry>, c: seq<Entry>)
    ensures a + b + c == a + (b + c)
  {
  }

  /** Over every run done grows by exactly the entries whose turn succeeded, and dead by exactly those that were given up
      or fell back to the raw push, each as often as its push went through, in the order of the turns. */
  lemma {:induction false} ListsOverRuns(cfg: Config, q: Queue, events: seq<Event>)
    ensures Run(cfg, q, events).done == q.done + Succeeded(cfg, q, events)
    ensures Run(cfg, q, events).dead == q.dead + Buried(cfg, q, events)
    decreases |events|
  {
    if events != [] {
      var next := Step(cfg, q, events[0]);
      StepBuries(cfg, q, events[0]);
      ListsOverRuns(cfg, next, events[1..]);
      Regroup(q.done, SucceededNow(q, events[0]), Succeeded(cfg, next, events[1..]));
      Regroup(q.dead, BuriedNow(cfg, q, events[0]), Buried(cfg, next, events[1..]));
    }
  }

  // ── The bound on rounds is reached ────────────────────────────────────────

  /** A domain job alone in the queue that fails in every round. */
  function FailingRounds(n: nat): seq<Event>
  {
    if n == 0 then [Turn(Failure("x", true), NO_FAULT, 0.0)]
    else [Turn(Failure("x", true), NO_FAULT, 0.0)] + ([Promote(300.0, true)] + FailingRounds(n - 1))
  }

  predicate OnlyJob(q: Queue, j: Job)
  {
    |q.ready| == 1 && q.ready[0].raw == Payload(j) && q.delayed == [] && !q.crashed
  }

  lemma RunNext(cfg: Config, q: Queue, e: Event, rest: seq<Event>)
    ensures Run(cfg, q, [e] + rest) == Run(cfg, Step(cfg, q, e), rest)
  {
    assert ([e] + rest)[1..] == rest;
  }

  lemma FailingTurn(cfg: Config, q: Queue, j: Job, a: int, m: int)
    requires j.kind == Domain && j.attempt == Num(a) && j.maxAttempts == Num(m) && 1 <= a <= m <= 1024
    requires OnlyJob(q, j)
    ensures var q' := Step(cfg, q, Turn(Failure("x", true), NO_FAULT, 0.0));
      && |q'.popped| == |q.popped| + 1 && !q'.crashed && q'.ready == []
      && (a == m ==> q'.dead == q.dead + [q.ready[0]] && q'.delayed == [])
      && (a < m ==> q'.dead == q.dead && |q'.delayed| == 1 && q'.delayed[0].readyAt <= 300.0
                    && q'.delayed[0].raw == Payload(j.(attempt := Num(a + 1))))
  {
    TurnLists(cfg, q, Failure("x", true), NO_FAULT, 0.0);
    DomainDecision(cfg, j, "x", true);
  }

  lemma LonePromotion(cfg: Config, q: Queue, j: Job)
    requires !q.crashed && q.ready == [] && |q.delayed| == 1 && q.delayed[0].readyAt <= 300.0
    requires q.delayed[0].raw == Payload(j)
    ensures var q' := Step(cfg, q, Promote(300.0, true));
      OnlyJob(q', j) && q'.popped == q.popped && q'.dead == q.dead
  {
    OtherLists(cfg, q, Promote(300.0, true));
    DueIsPromoted(cfg, q, 0, 300.0, true);
  }

  /** A job that keeps failing is processed exactly max_attempts - attempt + 1 times, and is then dead-lettered once. */
  lemma {:induction false} FailingJobUsesItsRounds(cfg: Config, q: Queue, j: Job, a: int, m: int)
    requires j.kind == Domain && j.attempt == Num(a) && j.maxAttempts == Num(m) && 1 <= a <= m <= 1024
    requires OnlyJob(q, j)
    ensures var q' := Run(cfg, q, FailingRounds(m - a));
      && |q'.popped| == |q.popped| + (m - a + 1)
      && |q'.dead| == |q.dead| + 1 && q'.dead[..|q.dead|] == q.dead
      && q'.dead[|q.dead|].raw == Payload(j.(attempt := Num(m)))
      && q'.ready == [] && q'.delayed == []
    decreases m - a
  {
    var fail := Turn(Failure("x", true), NO_FAULT, 0.0);
    FailingTurn(cfg, q, j, a, m);
    var q1 := Step(cfg, q, fail);
    if a == m {
      RunNext(cfg, q, fail, []);
      assert [fail] + [] == [fail];
      assert j.(attempt := Num(m)) == j;
    } else {
      var next := j.(attempt := Num(a + 1));
      LonePromotion(cfg, q1, next);
      var q2 := Step(cfg, q1, Promote(300.0, true));
      RunNext(cfg, q, fail, [Promote(300.0, true)] + FailingRounds(m - a - 1));
      RunNext(cfg, q1, Promote(300.0, true), FailingRounds(m - a - 1));
      FailingJobUsesItsRounds(cfg, q2, next, a + 1, m);
      assert next.(attempt := Num(m)) == j.(attempt := Num(m));
    }
  }
}

/** Second-factor verification of one user: the failure window, and the consumption of recovery codes.

    A failed attempt is stamped with the start of its database transaction, which lies before the moment the limit
    was checked. */
module MfaLockout {

  /** In microseconds. */
  const MINUTE: nat := 60_000_000

  const WINDOW: nat := 15 * MINUTE

  const LIMIT: nat := 5

  /** An opaque submitted code and an opaque stored hash; the bcrypt comparison is a parameter. */
  type Code = nat
  type Hash = nat
  type Matches = (Code, Hash) -> bool

  /** stamp: start of the transaction; check: the clock read for the limit; totpOk: the authenticator's verdict. */
  datatype Attempt = Attempt(stamp: int, check: int, code: Code, totpOk: bool)

  datatype Account = Account(failures: seq<int>, codes: seq<Hash>)

  datatype Outcome = Locked | ByTotp | ByRecovery(used: Hash) | Rejected

  /** Failures not older than `since`. */
  function Recent(failures: seq<int>, since: int): nat
  {
    if failures == [] then 0
    else Recent(failures[..|failures| - 1], since) + if failures[|failures| - 1] >= since then 1 else 0
  }

  predicate IsLocked(failures: seq<int>, check: int)
  {
    Recent(failures, check - WINDOW) >= LIMIT
  }

  /** The first stored hash the code matches, or the number of hashes. */
  function FirstMatch(codes: seq<Hash>, code: Code, matches: Matches): (k: nat)
    ensures k <= |codes|
    ensures forall i :: 0 <= i < k ==> !matches(code, codes[i])
    ensures k < |codes| ==> matches(code, codes[k])
  {
    if codes == [] || matches(code, codes[0]) then 0 else 1 + FirstMatch(codes[1..], code, matches)
  }

  function Verdict(a: Account, t: Attempt, matches: Matches): Outcome
  {
    if IsLocked(a.failures, t.check) then Locked
    else if t.totpOk then ByTotp
    else
      var k := FirstMatch(a.codes, t.code, matches);
      if k < |a.codes| then ByRecovery(a.codes[k]) else Rejected
  }

  function Step(a: Account, t: Attempt, matches: Matches): Account
  {
    match Verdict(a, t, matches)
    case Locked => a
    case ByTotp => a
    case ByRecovery(_) =>
      var k := FirstMatch(a.codes, t.code, matches);
      a.(codes := a.codes[..k] + a.codes[k + 1..])
    case Rejected => a.(failures := a.failures + [t.stamp])
  }

  function Run(a: Account, attempts: seq<Attempt>, matches: Matches): Account
  {
    if attempts == [] then a
    else Step(Run(a, attempts[..|attempts| - 1], matches), attempts[|attempts| - 1], matches)
  }

  /** One request after the other, each checking at most `lag` after its transaction began. */
  predicate Serialized(attempts: seq<Attempt>, lag: int)
  {
    && (forall i :: 0 <= i < |attempts| ==> 0 <= attempts[i].check - attempts[i].stamp <= lag)
    && (forall i, j :: 0 <= i < j < |attempts| ==> attempts[i].check <= attempts[j].stamp)
  }

  function InWindow(failures: seq<int>, lo: int, hi: int): nat
  {
    if failures == [] then 0
    else InWindow(failures[..|failures| - 1], lo, hi) + if lo <= failures[|failures| - 1] <= hi then 1 else 0
  }

  // ── The window ────────────────────────────────────────────────────────────

  lemma {:induction false} WindowIsRecent(failures: seq<int>, lo: int, hi: int, since: int)
    requires since <= lo
    ensures InWindow(failures, lo, hi) <= Recent(failures, since)
  {
    if failures != [] {
      WindowIsRecent(failures[..|failures| - 1], lo, hi, since);
    }
  }

  lemma {:induction false} WindowHolds(a: Account, attempts: seq<Attempt>, matches: Matches, lag: int, lo: int, hi: int)
    requires a.failures == [] && Serialized(attempts, lag) && hi - lo <= WINDOW - lag
    ensures InWindow(Run(a, attempts, matches).failures, lo, hi) <= LIMIT
  {
    if attempts != [] {
      var before, t := attempts[..|attempts| - 1], attempts[|attempts| - 1];
      WindowHolds(a, before, matches, lag, lo, hi);
      var b := Run(a, before, matches);
      if Verdict(b, t, matches) == Rejected {
        assert (b.failures + [t.stamp])[..|b.failures|] == b.failures;
        if lo <= t.stamp <= hi {
          WindowIsRecent(b.failures, lo, hi, t.check - WINDOW);
        }
      }
    }
  }

  function FailuresIn(a: Account, attempts: seq<Attempt>, matches: Matches, lo: int, length: nat): nat
  {
    InWindow(Run(a, attempts, matches).failures, lo, lo + length)
  }

  /** Every run keeps every closed window of this length at five failures. */
  ghost predicate Guaranteed(length: nat, lag: int)
  {
    forall a: Account, attempts: seq<Attempt>, matches: Matches, lo: int ::
      a.failures == [] && Serialized(attempts, lag) ==> FailuresIn(a, attempts, matches, lo, length) <= LIMIT
  }

  /** The exact guarantee: closed windows up to WINDOW minus the longest time between a request's transaction start and
      its check. Fifteen full minutes are guaranteed only if that time is zero. */
  lemma GuaranteedExactly(length: nat, lag: nat)
    ensures Guaranteed(length, lag) <==> length <= WINDOW - lag
  {
    if length <= WINDOW - lag {
      forall a: Account, attempts: seq<Attempt>, matches: Matches, lo: int | a.failures == [] && Serialized(attempts, lag)
        ensures FailuresIn(a, attempts, matches, lo, length) <= LIMIT
      {
        WindowHolds(a, attempts, matches, lag, lo, lo + length);
      }
    } else {
      var a, attempts, matches := Account([], []), SixFailures(length, lag), (c: Code, h: Hash) => false;
      SixInAWindow(length, lag, matches);
      assert FailuresIn(a, attempts, matches, 0, length) == 6;
    }
  }

  const FIRST := Attempt(0, 0, 0, false)

  function SixFailures(length: nat, lag: nat): seq<Attempt>
  {
    [FIRST, FIRST, FIRST, FIRST, FIRST, Attempt(length, length + lag, 0, false)]
  }

  lemma RunOne(a: Account, attempts: seq<Attempt>, t: Attempt, matches: Matches)
    ensures Run(a, attempts + [t], matches) == Step(Run(a, attempts, matches), t, matches)
  {
    assert (attempts + [t])[..|attempts|] == attempts;
  }

  function Copies(n: nat): seq<Attempt>
  {
    if n == 0 then [] else Copies(n - 1) + [FIRST]
  }

  function Zeros(n: nat): (s: seq<int>)
    ensures |s| == n
  {
    if n == 0 then [] else Zeros(n - 1) + [0]
  }

  lemma {:induction false} RecentZeros(n: nat, since: int)
    ensures Recent(Zeros(n), since) == if since <= 0 then n else 0
    ensures InWindow(Zeros(n), 0, since) == if since >= 0 then n else 0
  {
    if n > 0 {
      RecentZeros(n - 1, since);
      assert Zeros(n)[..n - 1] == Zeros(n - 1);
    }
  }

  lemma OneMoreFailure(n: nat, matches: Matches)
    requires n < LIMIT
    ensures Step(Account(Zeros(n), []), FIRST, matches) == Account(Zeros(n + 1), [])
  {
    var since := FIRST.check - WINDOW;
    RecentZeros(n, since);
    assert Verdict(Account(Zeros(n), []), FIRST, matches) == Rejected;
  }

  lemma {:induction false} FirstFailures(n: nat, matches: Matches)
    requires n <= LIMIT
    ensures Run(Account([], []), Copies(n), matches) == Account(Zeros(n), [])
  {
    if n > 0 {
      FirstFailures(n - 1, matches);
      RunOne(Account([], []), Copies(n - 1), FIRST, matches);
      OneMoreFailure(n - 1, matches);
    }
  }

  lemma SixInAWindow(length: nat, lag: nat, matches: Matches)
    requires length > WINDOW - lag
    ensures Serialized(SixFailures(length, lag), lag)
    ensures InWindow(Run(Account([], []), SixFailures(length, lag), matches).failures, 0, length) == 6
  {
    var last := Attempt(length, length + lag, 0, false);
    assert Copies(5) == [FIRST, FIRST, FIRST, FIRST, FIRST];
    assert SixFailures(length, lag) == Copies(5) + [last];
    FirstFailures(5, matches);
    RunOne(Account([], []), Copies(5), last, matches);
    RecentZeros(5, last.check - WINDOW);
    RecentZeros(5, length);
    assert (Zeros(5) + [length])[..5] == Zeros(5);
  }

  // ── The lock ──────────────────────────────────────────────────────────────

  predicate Sorted(s: seq<int>)
  {
    forall i, j :: 0 <= i < j < |s| ==> s[i] <= s[j]
  }

  /** In a serialized run the failures stay in the order of their stamps. */
  lemma {:induction false} FailuresSorted(attempts: seq<Attempt>, codes: seq<Hash>, matches: Matches, lag: int)
    requires Serialized(attempts, lag)
    ensures var f := Run(Account([], codes), attempts, matches).failures;
      Sorted(f) && (attempts != [] ==> forall k :: 0 <= k < |f| ==> f[k] <= attempts[|attempts| - 1].stamp)
  {
    if attempts != [] {
      FailuresSorted(attempts[..|attempts| - 1], codes, matches, lag);
    }
  }

  lemma {:induction false} RecentIsSuffix(failures: seq<int>, since: int, n: nat)
    requires Sorted(failures) && 1 <= n
    ensures Recent(failures, since) >= n <==> |failures| >= n && failures[|failures| - n] >= since
  {
    if failures != [] {
      var rest := failures[..|failures| - 1];
      if n > 1 {
        RecentIsSuffix(rest, since, n - 1);
      } else if failures[|failures| - 1] < since {
        RecentIsSuffix(rest, since, 1);
      }
      if failures[|failures| - 1] < since {
        NoneRecent(failures, since);
      }
    }
  }

  lemma {:induction false} NoneRecent(failures: seq<int>, since: int)
    requires forall k :: 0 <= k < |failures| ==> failures[k] < since
    ensures Recent(failures, since) == 0
  {
    if failures != [] {
      NoneRecent(failures[..|failures| - 1], since);
    }
  }

  lemma LockedFrom(a: Account, t: Attempt, matches: Matches)
    requires Sorted(a.failures)
    ensures Verdict(a, t, matches) == Locked
            <==> |a.failures| >= LIMIT && t.check <= a.failures[|a.failures| - LIMIT] + WINDOW
  {
    RecentIsSuffix(a.failures, t.check - WINDOW, LIMIT);
  }

  /** After every serialized run the lock lasts until fifteen minutes after the fifth last failure, not after the last
      one; while it lasts, no code is accepted and nothing is recorded. */
  lemma LockedExactly(codes: seq<Hash>, attempts: seq<Attempt>, lag: int, t: Attempt, matches: Matches)
    requires Serialized(attempts, lag)
    ensures var a := Run(Account([], codes), attempts, matches);
      && (Verdict(a, t, matches) == Locked
          <==> |a.failures| >= 5 && t.check <= a.failures[|a.failures| - 5] + 15 * MINUTE)
      && (Verdict(a, t, matches) == Locked ==> Step(a, t, matches) == a)
  {
    FailuresSorted(attempts, codes, matches, lag);
    LockedFrom(Run(Account([], codes), attempts, matches), t, matches);
  }

  // ── Recovery codes ────────────────────────────────────────────────────────

  /** The hashes consumed over a run. */
  function Consumed(a: Account, attempts: seq<Attempt>, matches: Matches): seq<Hash>
  {
    if attempts == [] then []
    else
      var before := attempts[..|attempts| - 1];
      var v := Verdict(Run(a, before, matches), attempts[|attempts| - 1], matches);
      Consumed(a, before, matches) + UsedBy(v)
  }

  function UsedBy(v: Outcome): seq<Hash>
  {
    if v.ByRecovery? then [v.used] else []
  }

  lemma WithoutOne(s: seq<Hash>, k: nat)
    requires k < |s|
    ensures multiset(s[..k] + s[k + 1..]) + multiset([s[k]]) == multiset(s)
  {
    assert s == s[..k] + [s[k]] + s[k + 1..];
  }

  lemma StepUses(a: Account, t: Attempt, matches: Matches)
    ensures var v, b := Verdict(a, t, matches), Step(a, t, matches).codes;
      if v.ByRecovery? then
        var k := FirstMatch(a.codes, t.code, matches);
        k < |a.codes| && v.used == a.codes[k] && b == a.codes[..k] + a.codes[k + 1..]
      else b == a.codes
  {
  }

  lemma StepConserves(a: Account, t: Attempt, matches: Matches)
    ensures multiset(Step(a, t, matches).codes) + multiset(UsedBy(Verdict(a, t, matches))) == multiset(a.codes)
  {
    StepUses(a, t, matches);
    if Verdict(a, t, matches).ByRecovery? {
      WithoutOne(a.codes, FirstMatch(a.codes, t.code, matches));
    }
  }

  /** Every stored hash is either still stored or was consumed, once; none is added. */
  lemma {:induction false} RecoveryCodesConserved(a: Account, attempts: seq<Attempt>, matches: Matches)
    ensures multiset(Run(a, attempts, matches).codes) + multiset(Consumed(a, attempts, matches)) == multiset(a.codes)
  {
    if attempts != [] {
      var before, t := attempts[..|attempts| - 1], attempts[|attempts| - 1];
      RecoveryCodesConserved(a, before, matches);
      StepConserves(Run(a, before, matches), t, matches);
    }
  }

  lemma StoredWasStored(a: Account, attempts: seq<Attempt>, matches: Matches, h: Hash)
    requires h in Run(a, attempts, matches).codes
    ensures h in a.codes
  {
  }

  predicate MatchesAtMostOne(codes: seq<Hash>, code: Code, matches: Matches)
  {
    forall i, j :: 0 <= i < j < |codes| && matches(code, codes[i]) ==> !matches(code, codes[j])
  }

  lemma NoMatchLeft(a: Account, t: Attempt, matches: Matches, h: Hash)
    requires MatchesAtMostOne(a.codes, t.code, matches) && Verdict(a, t, matches).ByRecovery?
    requires h in Step(a, t, matches).codes
    ensures !matches(t.code, h)
  {
  }

  /** A recovery code that matches one stored hash works once, whatever happens before its second use. */
  lemma {:induction false} RecoveryWorksOnce(a: Account, t: Attempt, attempts: seq<Attempt>, again: Attempt, matches: Matches)
    requires MatchesAtMostOne(a.codes, t.code, matches) && Verdict(a, t, matches).ByRecovery?
    requires again.code == t.code
    ensures !Verdict(Run(Step(a, t, matches), attempts, matches), again, matches).ByRecovery?
  {
    var b := Step(a, t, matches);
    var c := Run(b, attempts, matches);
    var k := FirstMatch(c.codes, again.code, matches);
    if k < |c.codes| {
      StoredWasStored(b, attempts, matches, c.codes[k]);
      NoMatchLeft(a, t, matches, c.codes[k]);
    }
  }

  /** Stored hash k is the one a submitted code is checked off against. */
  predicate MatchesFirst(codes: seq<Hash>, code: Code, matches: Matches, k: nat)
    requires k < |codes|
  {
    matches(code, codes[k]) && forall i :: 0 <= i < k ==> !matches(code, codes[i])
  }

  lemma FirstMatchExactly(codes: seq<Hash>, code: Code, matches: Matches)
    ensures var k := FirstMatch(codes, code, matches);
      && (k < |codes| <==> exists h :: h in codes && matches(code, h))
      && (forall j :: 0 <= j < |codes| && MatchesFirst(codes, code, matches, j) ==> j == k)
  {
    var k := FirstMatch(codes, code, matches);
    if k < |codes| {
      assert codes[k] in codes;
    }
  }

  lemma VerdictOf(a: Account, t: Attempt, matches: Matches)
    ensures var v, b, k := Verdict(a, t, matches), Step(a, t, matches), FirstMatch(a.codes, t.code, matches);
      var free := !IsLocked(a.failures, t.check);
      && (v == Locked <==> !free) && (v == ByTotp <==> free && t.totpOk)
      && (v.ByRecovery? <==> free && !t.totpOk && k < |a.codes|)
      && (v == Rejected <==> free && !t.totpOk && k == |a.codes|)
      && (v in {Locked, ByTotp} ==> b == a)
      && (v == Rejected ==> b == a.(failures := a.failures + [t.stamp]))
      && (v.ByRecovery? ==> v == ByRecovery(a.codes[k]) && b == a.(codes := a.codes[..k] + a.codes[k + 1..]))
  {
  }

  /** After every serialized run, outside the lock: a right authenticator code is accepted and changes nothing; otherwise
      the first stored hash that matches is used up, and it alone; and exactly when neither is there, one failure is
      recorded, stamped with the attempt's transaction. */
  lemma VerdictExactly(codes: seq<Hash>, attempts: seq<Attempt>, lag: int, t: Attempt, matches: Matches)
    requires Serialized(attempts, lag)
    ensures var a := Run(Account([], codes), attempts, matches);
      var locked := |a.failures| >= 5 && t.check <= a.failures[|a.failures| - 5] + 15 * MINUTE;
      var v, b := Verdict(a, t, matches), Step(a, t, matches);
      && (v == Locked <==> locked) && (v == ByTotp <==> !locked && t.totpOk)
      && (v.ByRecovery? <==> !locked && !t.totpOk && exists h :: h in a.codes && matches(t.code, h))
      && (v == Rejected <==> !locked && !t.totpOk && forall h :: h in a.codes ==> !matches(t.code, h))
      && (v in {Locked, ByTotp} ==> b == a)
      && (v == Rejected ==> b == a.(failures := a.failures + [t.stamp]))
      && (forall k :: 0 <= k < |a.codes| && v.ByRecovery? && MatchesFirst(a.codes, t.code, matches, k) ==>
            v == ByRecovery(a.codes[k]) && b == a.(codes := a.codes[..k] + a.codes[k + 1..]))
  {
    var a := Run(Account([], codes), attempts, matches);
    LockedExactly(codes, attempts, lag, t, matches);
    VerdictOf(a, t, matches);
    FirstMatchExactly(a.codes, t.code, matches);
  }

  // ── The service method ────────────────────────────────────────────────────

  lemma OneMoreCopied(codes: seq<Hash>, k: nat, i: nat)
    requires i < |codes|
    ensures codes[..i + 1] == codes[..i] + [codes[i]]
    ensures k < i ==> codes[..k] + codes[k + 1..i + 1] == codes[..k] + codes[k + 1..i] + [codes[i]]
    ensures k == i ==> codes[..k] + codes[k + 1..i + 1] == codes[..i]
  {
  }

  class MfaUser {
    var failures: seq<int>
    var codes: seq<Hash>

    constructor (codes: seq<Hash>)
      ensures this.failures == [] && this.codes == codes
    {
      failures, this.codes := [], codes;
    }

    ghost function State(): Account
      reads this
    {
      Account(failures, codes)
    }

    /** Rebuilds the list of codes without the first that matches. */
    method UseRecoveryCode(code: Code, matches: Matches) returns (success: bool)
      modifies this`codes
      ensures var k := FirstMatch(old(codes), code, matches);
        && success == (k < |old(codes)|)
        && codes == if success then old(codes)[..k] + old(codes)[k + 1..] else old(codes)
    {
      success := false;
      var remaining := [];
      ghost var k := FirstMatch(codes, code, matches);
      for i := 0 to |codes|
        invariant codes == old(codes) && success == (k < i)
        invariant remaining == if success then codes[..k] + codes[k + 1..i] else codes[..i]
      {
        OneMoreCopied(codes, k, i);
        if !success && matches(code, codes[i]) {
          success := true;
        } else {
          remaining := remaining + [codes[i]];
        }
      }
      assert codes[..|codes|] == codes && (success ==> codes[k + 1..|codes|] == codes[k + 1..]);
      if success {
        codes := remaining;
      }
    }

    method VerifyMfa(t: Attempt, matches: Matches) returns (r: Outcome)
      modifies this
      ensures r == Verdict(old(State()), t, matches)
      ensures State() == Step(old(State()), t, matches)
    {
      if IsLocked(failures, t.check) {
        return Locked;
      }
      if t.totpOk {
        return ByTotp;
      }
      var stored, k := codes, FirstMatch(codes, t.code, matches);
      ghost var verdict := Verdict(State(), t, matches);
      assert verdict == if k < |stored| then ByRecovery(stored[k]) else Rejected;
      var success := UseRecoveryCode(t.code, matches);
      if success {
        return ByRecovery(stored[k]);
      }
      failures := failures + [t.stamp];
      return Rejected;
    }
  }
}

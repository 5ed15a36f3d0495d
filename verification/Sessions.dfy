/** Refresh tokens of one user: issue, revocation, and the session cap of the company's security policy.

    A login is two commits: the eviction of the oldest tokens, and the insertion of the new one. Several logins may
    interleave between them. */
module Sessions {
  import opened Wrappers

  datatype Token = Token(id: nat, createdAt: int, expiresAt: int, revokedAt: Option<int>)

  /** The rows in the order of created_at. */
  type Table = seq<Token>

  predicate Active(t: Token, now: int)
  {
    t.revokedAt.None? && t.expiresAt > now
  }

  function Actives(s: Table, now: int): Table
  {
    if s == [] then [] else (if Active(s[0], now) then [s[0]] else []) + Actives(s[1..], now)
  }

  predicate Knows(s: Table, id: nat)
  {
    exists k :: 0 <= k < |s| && s[k].id == id
  }

  /** Revokes the first n active tokens. */
  function RevokeOldest(s: Table, n: int, now: int): (r: Table)
    ensures |r| == |s|
  {
    if s == [] || n <= 0 then s
    else if Active(s[0], now) then [s[0].(revokedAt := Some(now))] + RevokeOldest(s[1..], n - 1, now)
    else [s[0]] + RevokeOldest(s[1..], n, now)
  }

  /** The policy branch of create_refresh_token. */
  function Evict(s: Table, cap: int, now: int): Table
  {
    RevokeOldest(s, |Actives(s, now)| - cap + 1, now)
  }

  function Insert(s: Table, t: Token): (r: Table)
    ensures |r| == |s| + 1
  {
    if s == [] || t.createdAt < s[0].createdAt then [t] + s else [s[0]] + Insert(s[1..], t)
  }

  /** token is a unique column: a second row for the same token is refused. */
  function Save(s: Table, t: Token): Table
  {
    if Knows(s, t.id) then s else Insert(s, t.(revokedAt := None))
  }

  function Revoked(t: Token, now: int): Token
  {
    if t.revokedAt.None? then t.(revokedAt := Some(now)) else t
  }

  function Logout(s: Table, id: nat, now: int): Table
  {
    seq(|s|, k requires 0 <= k < |s| => if s[k].id == id then Revoked(s[k], now) else s[k])
  }

  function LogoutAll(s: Table, now: int): Table
  {
    seq(|s|, k requires 0 <= k < |s| => Revoked(s[k], now))
  }

  datatype Event =
    | EvictOldest(policyCap: Option<int>)   // None: no policy, or its lookup failed
    | SaveToken(token: Token)
    | RevokeToken(id: nat)
    | RevokeAll

  datatype Timed = Timed(event: Event, now: int)

  function Step(s: Table, e: Timed): Table
  {
    match e.event
    case EvictOldest(cap) => if cap.Some? then Evict(s, cap.value, e.now) else s
    case SaveToken(t) => Save(s, t)
    case RevokeToken(id) => Logout(s, id, e.now)
    case RevokeAll => LogoutAll(s, e.now)
  }

  function Run(s: Table, events: seq<Timed>): Table
    decreases |events|
  {
    if events == [] then s else Run(Step(s, events[0]), events[1..])
  }

  function Saves(events: seq<Timed>): nat
  {
    if events == [] then 0 else (if events[0].event.SaveToken? then 1 else 0) + Saves(events[1..])
  }

  function Max(a: int, b: int): int
  {
    if a >= b then a else b
  }

  function Min(a: int, b: int): int
  {
    if a <= b then a else b
  }

  /** How many of n active tokens a policy of this cap evicts. */
  function Excess(n: nat, cap: int): (k: nat)
    ensures k <= n
  {
    Min(n, Max(0, n - cap + 1))
  }

  // ── The eviction ──────────────────────────────────────────────────────────

  lemma {:induction false} RevokeOldestDrops(s: Table, n: int, now: int)
    ensures Actives(RevokeOldest(s, n, now), now) == Actives(s, now)[Min(|Actives(s, now)|, Max(0, n))..]
  {
    if s != [] && n > 0 {
      var r := RevokeOldest(s, n, now);
      if Active(s[0], now) {
        RevokeOldestDrops(s[1..], n - 1, now);
        assert r[1..] == RevokeOldest(s[1..], n - 1, now);
      } else {
        RevokeOldestDrops(s[1..], n, now);
        assert r[1..] == RevokeOldest(s[1..], n, now);
      }
    }
  }

  lemma EvictDrops(s: Table, cap: int, now: int)
    ensures var a := Actives(s, now); var b := Actives(Evict(s, cap, now), now);
      b == a[Excess(|a|, cap)..] && |b| == Min(|a|, Max(0, cap - 1))
  {
    RevokeOldestDrops(s, |Actives(s, now)| - cap + 1, now);
  }

  // ── The table stays in the order of created_at ────────────────────────────

  predicate Ordered(s: Table)
  {
    forall i, j :: 0 <= i < j < |s| ==> s[i].createdAt <= s[j].createdAt
  }

  lemma {:induction false} InsertRows(s: Table, t: Token)
    ensures forall k :: 0 <= k < |Insert(s, t)| ==> Insert(s, t)[k] == t || Insert(s, t)[k] in s
  {
    if s != [] && t.createdAt >= s[0].createdAt {
      InsertRows(s[1..], t);
    }
  }

  lemma {:induction false} InsertOrdered(s: Table, t: Token)
    requires Ordered(s)
    ensures Ordered(Insert(s, t))
  {
    if s != [] && t.createdAt >= s[0].createdAt {
      var r := Insert(s[1..], t);
      InsertOrdered(s[1..], t);
      InsertRows(s[1..], t);
      assert forall k :: 0 <= k < |r| ==> s[0].createdAt <= r[k].createdAt;
      assert Insert(s, t) == [s[0]] + r;
    }
  }

  lemma SameTimesOrdered(s: Table, r: Table)
    requires Ordered(s) && |r| == |s| && forall k :: 0 <= k < |s| ==> r[k].createdAt == s[k].createdAt
    ensures Ordered(r)
  {
  }

  lemma StepOrdered(s: Table, e: Timed)
    requires Ordered(s)
    ensures Ordered(Step(s, e))
  {
    match e.event
    case EvictOldest(cap) =>
      if cap.Some? {
        RevokeOldestSameRows(s, |Actives(s, e.now)| - cap.value + 1, e.now);
        SameTimesOrdered(s, Step(s, e));
      }
    case SaveToken(t) => InsertOrdered(s, t.(revokedAt := None));
    case RevokeToken(_) => SameTimesOrdered(s, Step(s, e));
    case RevokeAll => SameTimesOrdered(s, Step(s, e));
  }

  /** Every run keeps the table in the order of created_at, whatever order its saves commit in. */
  lemma {:induction false} RunOrdered(s: Table, events: seq<Timed>)
    requires Ordered(s)
    ensures Ordered(Run(s, events))
    decreases |events|
  {
    if events != [] {
      StepOrdered(s, events[0]);
      RunOrdered(Step(s, events[0]), events[1..]);
    }
  }

  lemma {:induction false} ActivesAreRows(s: Table, now: int)
    ensures forall t :: t in Actives(s, now) ==> t in s
  {
    if s != [] {
      ActivesAreRows(s[1..], now);
    }
  }

  lemma {:induction false} ActivesOrdered(s: Table, now: int)
    requires Ordered(s)
    ensures Ordered(Actives(s, now))
  {
    if s != [] {
      var rest := Actives(s[1..], now);
      ActivesOrdered(s[1..], now);
      ActivesAreRows(s[1..], now);
      forall k | 0 <= k < |rest| ensures s[0].createdAt <= rest[k].createdAt {
        assert rest[k] in s[1..];
      }
    }
  }

  /** Nothing among the dropped is newer than anything among the kept. */
  predicate NoNewer(dropped: Table, kept: Table)
  {
    forall i, j :: 0 <= i < |dropped| && 0 <= j < |kept| ==> dropped[i].createdAt <= kept[j].createdAt
  }

  lemma CutOrdered(s: Table, n: nat)
    requires Ordered(s) && n <= |s|
    ensures NoNewer(s[..n], s[n..])
  {
  }

  /** After any run, an eviction ends exactly the active tokens created first; at most max(0, cap - 1) stay, and none that
      goes is newer than one that stays. */
  lemma EvictKeepsTheNewest(events: seq<Timed>, cap: int, now: int)
    ensures var s := Run([], events);
      var a, b := Actives(s, now), Actives(Evict(s, cap, now), now);
      && b == a[Excess(|a|, cap)..] && |b| == Min(|a|, Max(0, cap - 1))
      && NoNewer(a[..Excess(|a|, cap)], b)
  {
    var s := Run([], events);
    EvictDrops(s, cap, now);
    RunOrdered([], events);
    ActivesOrdered(s, now);
    CutOrdered(Actives(s, now), Excess(|Actives(s, now)|, cap));
  }

  lemma {:induction false} InsertLast(s: Table, t: Token)
    requires forall k :: 0 <= k < |s| ==> s[k].createdAt <= t.createdAt
    ensures Insert(s, t) == s + [t]
  {
    if s != [] {
      InsertLast(s[1..], t);
    }
  }

  lemma {:induction false} ActivesAppend(s: Table, r: Table, now: int)
    ensures Actives(s + r, now) == Actives(s, now) + Actives(r, now)
  {
    if s == [] {
      assert s + r == r;
    } else {
      var first := if Active(s[0], now) then [s[0]] else [];
      assert (s + r)[1..] == s[1..] + r;
      ActivesAppend(s[1..], r, now);
      assert first + (Actives(s[1..], now) + Actives(r, now)) == first + Actives(s[1..], now) + Actives(r, now);
    }
  }

  lemma {:induction false} RevokeOldestSameRows(s: Table, n: int, now: int)
    ensures var r := RevokeOldest(s, n, now);
      forall k :: 0 <= k < |s| ==> r[k] == s[k] || (Active(s[k], now) && r[k] == s[k].(revokedAt := Some(now)))
  {
    if s != [] && n > 0 {
      RevokeOldestSameRows(s[1..], if Active(s[0], now) then n - 1 else n, now);
    }
  }

  lemma {:induction false} OneActive(t: Token, now: int)
    requires Active(t, now)
    ensures Actives([t], now) == [t]
  {
    assert [t][1..] == [];
  }

  lemma SaveLast(s: Table, cap: int, t: Token, now: int)
    requires forall k :: 0 <= k < |s| ==> s[k].createdAt <= t.createdAt
    requires !Knows(s, t.id) && t.revokedAt.None?
    ensures Save(Evict(s, cap, now), t) == Evict(s, cap, now) + [t]
  {
    RevokeOldestSameRows(s, |Actives(s, now)| - cap + 1, now);
    InsertLast(Evict(s, cap, now), t);
  }

  lemma LoginDrops(s: Table, cap: int, t: Token, now: int)
    requires forall k :: 0 <= k < |s| ==> s[k].createdAt <= t.createdAt
    requires !Knows(s, t.id) && t.revokedAt.None? && t.expiresAt > now
    ensures Actives(s + [t], now) == Actives(s, now) + [t]
    ensures Actives(Save(Evict(s, cap, now), t), now) == Actives(s, now)[Excess(|Actives(s, now)|, cap)..] + [t]
  {
    var e := Evict(s, cap, now);
    EvictDrops(s, cap, now);
    SaveLast(s, cap, t, now);
    ActivesAppend(e, [t], now);
    ActivesAppend(s, [t], now);
    OneActive(t, now);
  }

  /** After any run, a login that nothing interrupts leaves exactly the max(1, cap) active tokens created last, the new
      one at the end: none that it ends is newer than one that it leaves. */
  lemma LoginKeepsTheNewest(events: seq<Timed>, cap: int, t: Token, now: int)
    requires forall k :: 0 <= k < |Run([], events)| ==> Run([], events)[k].createdAt <= t.createdAt
    requires !Knows(Run([], events), t.id) && t.revokedAt.None? && t.expiresAt > now
    ensures var s := Run([], events);
      var all, after := Actives(s + [t], now), Actives(Save(Evict(s, cap, now), t), now);
      && |after| == Min(|all|, Max(1, cap))
      && after == all[|all| - |after|..]
      && NoNewer(all[..|all| - |after|], after)
  {
    var s := Run([], events);
    var a := Actives(s, now);
    LoginDrops(s, cap, t, now);
    RunOrdered([], events);
    assert Ordered(s + [t]);
    ActivesOrdered(s + [t], now);
    assert (a + [t])[Excess(|a|, cap)..] == a[Excess(|a|, cap)..] + [t];
    CutOrdered(a + [t], Excess(|a|, cap));
  }

  // ── The cap over interleaved logins ───────────────────────────────────────

  lemma {:induction false} FewerLater(s: Table, now: int, later: int)
    requires now <= later
    ensures |Actives(s, later)| <= |Actives(s, now)|
  {
    if s != [] {
      FewerLater(s[1..], now, later);
    }
  }

  lemma {:induction false} FewerByRows(s: Table, r: Table, now: int)
    requires |s| == |r| && forall k :: 0 <= k < |s| && Active(r[k], now) ==> r[k] == s[k]
    ensures |Actives(r, now)| <= |Actives(s, now)|
  {
    if s != [] {
      assert forall k :: 0 <= k < |s| - 1 ==> s[1..][k] == s[k + 1] && r[1..][k] == r[k + 1];
      FewerByRows(s[1..], r[1..], now);
    }
  }

  lemma {:induction false} InsertAddsOne(s: Table, t: Token, now: int)
    ensures |Actives(Insert(s, t), now)| == |Actives(s, now)| + if Active(t, now) then 1 else 0
  {
    if s == [] || t.createdAt < s[0].createdAt {
      assert ([t] + s)[1..] == s;
    } else {
      InsertAddsOne(s[1..], t, now);
      assert Insert(s, t)[1..] == Insert(s[1..], t);
    }
  }

  lemma StepGrowth(s: Table, e: Timed, now: int)
    ensures |Actives(Step(s, e), now)| <= |Actives(s, now)| + if e.event.SaveToken? then 1 else 0
  {
    match e.event
    case EvictOldest(cap) =>
      if cap.Some? {
        RevokeOldestSameRows(s, |Actives(s, e.now)| - cap.value + 1, e.now);
        FewerByRows(s, Step(s, e), now);
      }
    case SaveToken(t) => InsertAddsOne(s, t.(revokedAt := None), now);
    case RevokeToken(_) => FewerByRows(s, Step(s, e), now);
    case RevokeAll => FewerByRows(s, Step(s, e), now);
  }

  lemma {:induction false} RunGrowth(s: Table, events: seq<Timed>, now: int)
    ensures |Actives(Run(s, events), now)| <= |Actives(s, now)| + Saves(events)
    decreases |events|
  {
    if events != [] {
      StepGrowth(s, events[0], now);
      RunGrowth(Step(s, events[0]), events[1..], now);
    }
  }

  /** After an eviction, whatever runs next, the active tokens are at most max(0, cap - 1) plus one for each token saved
      since: max(1, cap) for logins that do not overlap. */
  lemma CapOverRuns(s: Table, cap: int, at: int, events: seq<Timed>, now: int)
    requires at <= now
    ensures |Actives(Run(Step(s, Timed(EvictOldest(Some(cap)), at)), events), now)| <= Max(0, cap - 1) + Saves(events)
  {
    var e := Evict(s, cap, at);
    EvictDrops(s, cap, at);
    FewerLater(e, at, now);
    RunGrowth(e, events, now);
  }

  function NewTokens(first: nat, n: nat, at: int, expiresAt: int): (events: seq<Timed>)
    ensures |events| == n
    decreases n
  {
    if n == 0 then []
    else [Timed(SaveToken(Token(first, at, expiresAt, None)), at)] + NewTokens(first + 1, n - 1, at, expiresAt)
  }

  function Evictions(cap: Option<int>, n: nat, at: int): seq<Timed>
  {
    if n == 0 then [] else [Timed(EvictOldest(cap), at)] + Evictions(cap, n - 1, at)
  }

  lemma {:induction false} RunAppend(s: Table, a: seq<Timed>, b: seq<Timed>)
    ensures Run(s, a + b) == Run(Run(s, a), b)
    decreases |a|
  {
    if a == [] {
      assert a + b == b;
    } else {
      assert (a + b)[1..] == a[1..] + b;
      RunAppend(Step(s, a[0]), a[1..], b);
    }
  }

  lemma {:induction false} EvictionsSettle(s: Table, cap: Option<int>, n: nat, at: int)
    requires cap.Some? ==> |Actives(s, at)| < cap.value
    ensures Run(s, Evictions(cap, n, at)) == s
  {
    if n > 0 {
      assert Evictions(cap, n, at)[1..] == Evictions(cap, n - 1, at);
      EvictionsSettle(s, cap, n - 1, at);
    }
  }

  lemma {:induction false} InsertKnows(s: Table, t: Token, id: nat)
    ensures Knows(Insert(s, t), id) <==> Knows(s, id) || t.id == id
  {
    var r := Insert(s, t);
    if s == [] || t.createdAt < s[0].createdAt {
      assert r[0] == t && forall k :: 0 <= k < |s| ==> r[k + 1] == s[k];
    } else {
      InsertKnows(s[1..], t, id);
      assert r[0] == s[0] && r[1..] == Insert(s[1..], t);
      assert Knows(s, id) <==> s[0].id == id || Knows(s[1..], id) by { Head(s, id); }
      Head(r, id);
    }
  }

  lemma Head(s: Table, id: nat)
    requires s != []
    ensures Knows(s, id) <==> s[0].id == id || Knows(s[1..], id)
  {
  }

  lemma {:induction false} NewTokensAllCount(s: Table, first: nat, n: nat, at: int, expiresAt: int)
    requires at < expiresAt && forall id :: id >= first ==> !Knows(s, id)
    ensures |Actives(Run(s, NewTokens(first, n, at, expiresAt)), at)| == |Actives(s, at)| + n
    decreases n
  {
    if n > 0 {
      var t := Token(first, at, expiresAt, None);
      var events := NewTokens(first, n, at, expiresAt);
      assert events[1..] == NewTokens(first + 1, n - 1, at, expiresAt);
      InsertAddsOne(s, t, at);
      forall id | id >= first + 1 ensures !Knows(Insert(s, t), id) {
        InsertKnows(s, t, id);
      }
      NewTokensAllCount(Insert(s, t), first + 1, n - 1, at, expiresAt);
    }
  }

  /** The bound for overlapping logins is reached: n logins that all evict before any of them saves leave n tokens on
      top of those that were active, so a user with cap - 1 sessions ends with cap - 1 + n of them. Without a policy
      nothing is ever evicted, and the same holds for every table. */
  lemma OverlappingLoginsPassTheCap(s: Table, cap: Option<int>, first: nat, n: nat, at: int, expiresAt: int)
    requires cap.Some? ==> |Actives(s, at)| < cap.value
    requires at < expiresAt && forall id :: id >= first ==> !Knows(s, id)
    ensures |Actives(Run(s, Evictions(cap, n, at) + NewTokens(first, n, at, expiresAt)), at)| == |Actives(s, at)| + n
  {
    RunAppend(s, Evictions(cap, n, at), NewTokens(first, n, at, expiresAt));
    EvictionsSettle(s, cap, n, at);
    NewTokensAllCount(s, first, n, at, expiresAt);
  }

  // ── A revoked token stays revoked ─────────────────────────────────────────

  /** The id is known, and every row with it is revoked or expired. */
  predicate Ended(s: Table, id: nat, now: int)
  {
    Knows(s, id) && forall k :: 0 <= k < |s| && s[k].id == id ==> !Active(s[k], now)
  }

  lemma SameRowsEnded(s: Table, r: Table, id: nat, at: int, now: int)
    requires Ended(s, id, at) && at <= now && |r| == |s|
    requires forall k :: 0 <= k < |s| ==> r[k].id == s[k].id && (Active(r[k], now) ==> r[k] == s[k])
    ensures Ended(r, id, now)
  {
  }

  lemma StepKeepsEnded(s: Table, e: Timed, id: nat, now: int)
    requires Ended(s, id, e.now) && e.now <= now
    ensures Ended(Step(s, e), id, now)
  {
    match e.event
    case EvictOldest(cap) =>
      if cap.Some? {
        RevokeOldestSameRows(s, |Actives(s, e.now)| - cap.value + 1, e.now);
      }
      SameRowsEnded(s, Step(s, e), id, e.now, now);
    case SaveToken(t) =>
      if !Knows(s, t.id) {
        InsertRows(s, t.(revokedAt := None));
        InsertKnows(s, t.(revokedAt := None), id);
      } else {
        SameRowsEnded(s, s, id, e.now, now);
      }
    case RevokeToken(_) => SameRowsEnded(s, Step(s, e), id, e.now, now);
    case RevokeAll => SameRowsEnded(s, Step(s, e), id, e.now, now);
  }

  predicate Clocked(events: seq<Timed>, from: int, to: int)
  {
    if events == [] then from <= to else from <= events[0].now && Clocked(events[1..], events[0].now, to)
  }

  /** A token that is revoked or expired is never active again, in any run under a clock that does not go back. */
  lemma {:induction false} NeverActiveAgain(s: Table, events: seq<Timed>, id: nat, from: int, to: int)
    requires Ended(s, id, from) && Clocked(events, from, to)
    ensures Ended(Run(s, events), id, to)
    decreases |events|
  {
    if events == [] {
      SameRowsEnded(s, s, id, from, to);
    } else {
      SameRowsEnded(s, s, id, from, events[0].now);
      StepKeepsEnded(s, events[0], id, events[0].now);
      NeverActiveAgain(Step(s, events[0]), events[1..], id, events[0].now, to);
    }
  }

  /** A logout revokes the rows of its token that were not revoked before, ends the session, and touches nothing else. */
  lemma LogoutEnds(s: Table, id: nat, now: int)
    ensures var r := Step(s, Timed(RevokeToken(id), now));
      && |r| == |s|
      && (forall k :: 0 <= k < |s| && s[k].id == id && s[k].revokedAt.None? ==> r[k] == s[k].(revokedAt := Some(now)))
      && (forall k :: 0 <= k < |s| && (s[k].id != id || s[k].revokedAt.Some?) ==> r[k] == s[k])
      && (Knows(s, id) ==> Ended(r, id, now))
  {
    var r := Step(s, Timed(RevokeToken(id), now));
    if Knows(s, id) {
      var k :| 0 <= k < |s| && s[k].id == id;
      assert r[k].id == id;
    }
  }

  /** A logout from everywhere revokes every row that was not revoked before: no token of the user is active after it,
      at any time. */
  lemma LogoutAllEnds(s: Table, id: nat, now: int, later: int)
    ensures var r := Step(s, Timed(RevokeAll, now));
      && |r| == |s| && Actives(r, later) == []
      && (forall k :: 0 <= k < |s| && s[k].revokedAt.None? ==> r[k] == s[k].(revokedAt := Some(now)))
      && (forall k :: 0 <= k < |s| && s[k].revokedAt.Some? ==> r[k] == s[k])
      && (Knows(s, id) ==> Ended(r, id, now))
  {
    var r := Step(s, Timed(RevokeAll, now));
    NoneActive(r, later);
    if Knows(s, id) {
      var k :| 0 <= k < |s| && s[k].id == id;
      assert r[k].id == id;
    }
  }

  lemma {:induction false} NoneActive(s: Table, now: int)
    requires forall k :: 0 <= k < |s| ==> !Active(s[k], now)
    ensures Actives(s, now) == []
  {
    if s != [] {
      NoneActive(s[1..], now);
    }
  }

  /** From a logout on, of one token or of all of them, a token issued before it is never active again, whatever was done
      before and whatever is done after. */
  lemma LoggedOutForGood(before: seq<Timed>, id: nat, all: bool, now: int, after: seq<Timed>, until: int)
    requires Knows(Run([], before), id) && Clocked(after, now, until)
    ensures var s := Run(Step(Run([], before), Timed(if all then RevokeAll else RevokeToken(id), now)), after);
      Knows(s, id) && forall k :: 0 <= k < |s| && s[k].id == id ==> !Active(s[k], until)
  {
    var s := Run([], before);
    LogoutEnds(s, id, now);
    LogoutAllEnds(s, id, now, now);
    NeverActiveAgain(Step(s, Timed(if all then RevokeAll else RevokeToken(id), now)), after, id, now, until);
  }

  // ── Token ids are unique ──────────────────────────────────────────────────

  predicate Unique(s: Table)
  {
    forall i, j :: 0 <= i < j < |s| ==> s[i].id != s[j].id
  }

  lemma {:induction false} InsertUnique(s: Table, t: Token)
    requires Unique(s) && !Knows(s, t.id)
    ensures Unique(Insert(s, t))
  {
    if s != [] && t.createdAt >= s[0].createdAt {
      InsertUnique(s[1..], t);
      InsertRows(s[1..], t);
      var r := Insert(s[1..], t);
      assert forall k :: 0 <= k < |r| ==> r[k].id != s[0].id;
    }
  }

  lemma SameIdsUnique(s: Table, r: Table)
    requires Unique(s) && |r| == |s| && forall k :: 0 <= k < |s| ==> r[k].id == s[k].id
    ensures Unique(r)
  {
  }

  /** In every run no two rows carry the same token, no row is dropped, and only saves add rows. */
  lemma {:induction false} TokensAreUnique(s: Table, events: seq<Timed>)
    requires Unique(s)
    ensures Unique(Run(s, events))
    ensures |s| <= |Run(s, events)| <= |s| + Saves(events)
    decreases |events|
  {
    if events != [] {
      var e := events[0];
      match e.event {
        case EvictOldest(cap) =>
          if cap.Some? {
            RevokeOldestSameRows(s, |Actives(s, e.now)| - cap.value + 1, e.now);
          }
          SameIdsUnique(s, Step(s, e));
        case SaveToken(t) =>
          if !Knows(s, t.id) {
            InsertUnique(s, t.(revokedAt := None));
          }
        case RevokeToken(_) => SameIdsUnique(s, Step(s, e));
        case RevokeAll => SameIdsUnique(s, Step(s, e));
      }
      TokensAreUnique(Step(s, e), events[1..]);
    }
  }

  // ── A session lasts until it is ended ─────────────────────────────────────

  predicate Spares(e: Event, id: nat)
  {
    match e
    case EvictOldest(cap) => cap.None?
    case SaveToken(_) => true
    case RevokeToken(other) => other != id
    case RevokeAll => false
  }

  lemma {:induction false} InsertKeeps(s: Table, t: Token, r: Token)
    requires r in s || r == t
    ensures r in Insert(s, t)
  {
    if s != [] && t.createdAt >= s[0].createdAt && r != s[0] {
      InsertKeeps(s[1..], t, r);
    }
  }

  lemma StepKeepsToken(s: Table, e: Timed, r: Token)
    requires r in s && Spares(e.event, r.id)
    ensures r in Step(s, e)
  {
    match e.event
    case SaveToken(t) =>
      if !Knows(s, t.id) {
        InsertKeeps(s, t.(revokedAt := None), r);
      }
    case RevokeToken(_) =>
      var k :| 0 <= k < |s| && s[k] == r;
      assert Step(s, e)[k] == r;
    case _ =>
  }

  lemma {:induction false} RunKeepsToken(s: Table, events: seq<Timed>, r: Token)
    requires r in s && forall i :: 0 <= i < |events| ==> Spares(events[i].event, r.id)
    ensures r in Run(s, events)
    decreases |events|
  {
    if events != [] {
      StepKeepsToken(s, events[0], r);
      RunKeepsToken(Step(s, events[0]), events[1..], r);
    }
  }

  lemma {:induction false} ActivesExactly(s: Table, now: int, r: Token)
    ensures r in Actives(s, now) <==> r in s && Active(r, now)
  {
    if s != [] {
      ActivesExactly(s[1..], now, r);
    }
  }

  /** After any run, a new token is active exactly until it expires, as long as nobody logs it out and no policy evicts. */
  lemma SavedIsActiveExactly(before: seq<Timed>, t: Token, at: int, after: seq<Timed>, now: int)
    requires !Knows(Run([], before), t.id) && forall i :: 0 <= i < |after| ==> Spares(after[i].event, t.id)
    ensures var s := Run(Step(Run([], before), Timed(SaveToken(t), at)), after);
      t.(revokedAt := None) in Actives(s, now) <==> now < t.expiresAt
  {
    var r := t.(revokedAt := None);
    InsertKeeps(Run([], before), r, r);
    var s := Step(Run([], before), Timed(SaveToken(t), at));
    RunKeepsToken(s, after, r);
    ActivesExactly(Run(s, after), now, r);
  }

  // ── The table as the service updates it ───────────────────────────────────

  function NextRows(rows: seq<nat>): (r: seq<nat>)
    ensures |r| == |rows| && forall k :: 0 <= k < |r| ==> r[k] == rows[k] + 1
  {
    seq(|rows|, k requires 0 <= k < |rows| => rows[k] + 1)
  }

  /** Positions of the active rows, oldest first. */
  function ActiveRows(s: Table, now: int): (rows: seq<nat>)
    ensures |rows| == |Actives(s, now)|
    ensures forall k :: 0 <= k < |rows| ==> rows[k] < |s|
  {
    if s == [] then []
    else (if Active(s[0], now) then [0] else []) + NextRows(ActiveRows(s[1..], now))
  }

  lemma {:induction false} RevokeOneMore(s: Table, n: nat, now: int)
    requires n < |ActiveRows(s, now)|
    ensures var r, k := RevokeOldest(s, n, now), ActiveRows(s, now)[n];
      RevokeOldest(s, n + 1, now) == r[k := r[k].(revokedAt := Some(now))]
  {
    var first := if Active(s[0], now) then 1 else 0;
    if n >= first {
      RevokeOneMore(s[1..], n - first, now);
      ActiveRowsTail(s, n, now);
      RevokeTail(s, n, now);
      RevokeTail(s, n + 1, now);
      UpdateTail(RevokeOldest(s, n, now), RevokeOldest(s[1..], n - first, now), ActiveRows(s, now)[n], now);
    } else {
      RevokeNone(s, now);
      RevokeNone(s[1..], now);
    }
  }

  lemma RevokeNone(s: Table, now: int)
    ensures RevokeOldest(s, 0, now) == s
  {
  }

  lemma ActiveRowsTail(s: Table, n: nat, now: int)
    requires n < |ActiveRows(s, now)| && n >= if Active(s[0], now) then 1 else 0
    ensures var first := if Active(s[0], now) then 1 else 0;
      n - first < |ActiveRows(s[1..], now)| && ActiveRows(s, now)[n] == ActiveRows(s[1..], now)[n - first] + 1
  {
    var head := if Active(s[0], now) then [0] else [];
    var rest := NextRows(ActiveRows(s[1..], now));
    assert ActiveRows(s, now) == head + rest;
    assert (head + rest)[n] == rest[n - |head|];
  }

  lemma UpdateTail(r: Table, rest: Table, k: nat, now: int)
    requires r != [] && r == [r[0]] + rest && 1 <= k < |r|
    ensures r[k := r[k].(revokedAt := Some(now))] == [r[0]] + rest[k - 1 := rest[k - 1].(revokedAt := Some(now))]
  {
  }

  lemma RevokeTail(s: Table, n: nat, now: int)
    requires s != [] && n >= if Active(s[0], now) then 1 else 0
    ensures var r := RevokeOldest(s, n, now);
      && r == [r[0]] + RevokeOldest(s[1..], n - (if Active(s[0], now) then 1 else 0), now)
      && r[0] == if Active(s[0], now) then s[0].(revokedAt := Some(now)) else s[0]
  {
  }

  lemma EvictIsExcess(s: Table, cap: int, now: int)
    ensures Evict(s, cap, now) == RevokeOldest(s, Excess(|Actives(s, now)|, cap), now)
  {
  }

  class TokenTable {
    var rows: Table

    constructor ()
      ensures rows == []
    {
      rows := [];
    }

    method EvictExcess(cap: int, now: int)
      modifies this
      ensures rows == Evict(old(rows), cap, now)
    {
      ghost var before := rows;
      EvictIsExcess(before, cap, now);
      var active := ActiveRows(rows, now);
      var excess := Excess(|active|, cap);
      for i := 0 to excess
        invariant rows == RevokeOldest(before, i, now)
      {
        RevokeOneMore(before, i, now);
        var k := active[i];
        rows := rows[k := rows[k].(revokedAt := Some(now))];
      }
    }

    method SaveRefreshToken(t: Token)
      modifies this
      ensures rows == Save(old(rows), t)
    {
      if !Knows(rows, t.id) {
        rows := Insert(rows, t.(revokedAt := None));
      }
    }

    /** create_refresh_token, when no other request comes between its two commits. */
    method CreateRefreshToken(policyCap: Option<int>, t: Token, now: int)
      modifies this
      ensures rows == Save(if policyCap.Some? then Evict(old(rows), policyCap.value, now) else old(rows), t)
    {
      if policyCap.Some? {
        EvictExcess(policyCap.value, now);
      }
      SaveRefreshToken(t);
    }

    method RevokeRefreshToken(id: nat, now: int) returns (revoked: bool)
      modifies this
      ensures rows == Logout(old(rows), id, now)
      ensures revoked <==> exists k :: 0 <= k < |old(rows)| && old(rows)[k].id == id && old(rows)[k].revokedAt.None?
    {
      revoked := false;
      var i := 0;
      while i < |rows|
        invariant 0 <= i <= |rows| == |old(rows)|
        invariant forall k :: 0 <= k < i ==> rows[k] == Logout(old(rows), id, now)[k]
        invariant forall k :: i <= k < |rows| ==> rows[k] == old(rows)[k]
        invariant revoked <==> exists k :: 0 <= k < i && old(rows)[k].id == id && old(rows)[k].revokedAt.None?
      {
        if rows[i].id == id && rows[i].revokedAt.None? {
          rows := rows[i := rows[i].(revokedAt := Some(now))];
          revoked := true;
        }
        i := i + 1;
      }
    }

    method RevokeAllUserTokens(now: int)
      modifies this
      ensures rows == LogoutAll(old(rows), now)
    {
      var i := 0;
      while i < |rows|
        invariant 0 <= i <= |rows| == |old(rows)|
        invariant forall k :: 0 <= k < i ==> rows[k] == Revoked(old(rows)[k], now)
        invariant forall k :: i <= k < |rows| ==> rows[k] == old(rows)[k]
      {
        rows := rows[i := Revoked(rows[i], now)];
        i := i + 1;
      }
    }
  }
}

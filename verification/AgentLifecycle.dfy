/** Soft delete, queued cleanup, restore and permanent purge of agents, with their API keys.

    One event is one commit. Cleanup jobs may arrive at any time; a purge removes the agents of an earlier selection;
    a status write of the publish service comes after the read that permitted it. */
module AgentLifecycle {
  import opened Wrappers

  /** Microseconds. */
  const DAY: int := 86_400_000_000

  const RETENTION_DAYS: int := 30

  datatype Status = Draft | Published | Paused | Deleted

  datatype Key = Key(id: nat, active: bool, revokedAt: Option<int>, expiresAt: Option<int>)

  datatype Options = Options(keepConversations: bool, keepKnowledge: bool)

  datatype Agent = Agent(
    status: Status, publishedAt: Option<int>, deletedAt: Option<int>, options: Options,
    keys: seq<Key>, issued: set<nat>,  // issued: every key id the agent ever had
    conversations: set<nat>, links: set<nat>)

  /** The status writes of the publish service: each reads the agent, checks it, and later writes its status. */
  datatype Write = Publish | Unpublish | Pause | Resume

  datatype AgentEvent =
    | IssueKey(key: nat, expiresAt: Option<int>)
    | RevokeKey(key: nat)
    | DeleteKey(key: nat)
    | AddConversation(conversation: nat)
    | AddLink(link: nat)
    | SoftDelete(options: Options, confirm: bool)
    | Restore
    | Cleanup

  datatype Event =
    | Create(id: nat)
    | On(id: nat, event: AgentEvent)
    | Begin(id: nat, write: Write)
    | Finish(id: nat, write: Write)
    | Select(days: int)    // the query at the start of purge_expired
    | Remove(id: nat)      // one turn of its loop

  datatype Timed = Timed(event: Event, now: int)

  /** known: every id ever created; doomed: selected by a purge and not handled yet; started: status writes between
      their check and their commit. */
  datatype Db = Db(agents: map<nat, Agent>, known: set<nat>, doomed: set<nat>, started: multiset<(nat, Write)>)

  const EMPTY := Db(map[], {}, {}, multiset{})

  const NEW_AGENT := Agent(Draft, None, None, Options(true, true), [], {}, {}, {})

  // ── One agent ─────────────────────────────────────────────────────────────

  function RevokeIt(k: Key, now: int): Key
  {
    if k.revokedAt.None? then k.(active := false, revokedAt := Some(now)) else k
  }

  function RevokeAll(keys: seq<Key>, now: int): (r: seq<Key>)
    ensures |r| == |keys|
    ensures forall i :: 0 <= i < |keys| ==> r[i] == RevokeIt(keys[i], now)
  {
    seq(|keys|, i requires 0 <= i < |keys| => RevokeIt(keys[i], now))
  }

  function RevokeOne(keys: seq<Key>, id: nat, now: int): (r: seq<Key>)
    ensures |r| == |keys|
    ensures forall i :: 0 <= i < |keys| ==>
      r[i] == if keys[i].id == id then keys[i].(active := false, revokedAt := Some(now)) else keys[i]
  {
    seq(|keys|, i requires 0 <= i < |keys| =>
      if keys[i].id == id then keys[i].(active := false, revokedAt := Some(now)) else keys[i])
  }

  function Dropped(keys: seq<Key>, id: nat): (r: seq<Key>)
    ensures forall k :: k in r <==> k in keys && k.id != id
  {
    if keys == [] then [] else (if keys[0].id == id then [] else [keys[0]]) + Dropped(keys[1..], id)
  }

  predicate WasPublished(a: Agent)
  {
    a.status == Published || a.publishedAt.Some?
  }

  function DeleteAgent(a: Agent, options: Options, confirm: bool, now: int): Agent
  {
    if a.deletedAt.Some? || (WasPublished(a) && !confirm) then a
    else
      a.(status := Deleted, deletedAt := Some(now), options := options,
         publishedAt := None,
         keys := if WasPublished(a) then RevokeAll(a.keys, now) else a.keys)
  }

  predicate Restorable(a: Agent, now: int)
  {
    a.deletedAt.Some? && now - a.deletedAt.value <= RETENTION_DAYS * DAY
  }

  predicate Expired(a: Agent, days: int, now: int)
  {
    a.deletedAt.Some? && a.deletedAt.value < now - days * DAY
  }

  function CleanAgent(a: Agent, now: int): Agent
  {
    if a.deletedAt.None? then a
    else
      a.(keys := RevokeAll(a.keys, now),
         conversations := if a.options.keepConversations then a.conversations else {},
         links := if a.options.keepKnowledge then a.links else {})
  }

  /** A key or a link may be added after a delete: its request read the agent before. */
  function StepAgent(a: Agent, e: AgentEvent, now: int): Agent
  {
    match e
    case IssueKey(k, expires) =>
      if k in a.issued then a else a.(keys := a.keys + [Key(k, true, None, expires)], issued := a.issued + {k})
    case RevokeKey(k) => a.(keys := RevokeOne(a.keys, k, now))
    case DeleteKey(k) => a.(keys := Dropped(a.keys, k))
    case AddConversation(c) => a.(conversations := a.conversations + {c})
    case AddLink(l) => a.(links := a.links + {l})
    case SoftDelete(options, confirm) => DeleteAgent(a, options, confirm, now)
    case Restore => if Restorable(a, now) then a.(status := Draft, deletedAt := None) else a
    case Cleanup => CleanAgent(a, now)
  }

  predicate MayStart(a: Agent, w: Write)
  {
    a.deletedAt.None? && (w == Pause ==> a.status == Published) && (w == Resume ==> a.status == Paused)
  }

  function Written(a: Agent, w: Write, now: int): Agent
  {
    match w
    case Publish => a.(status := Published, publishedAt := Some(now))
    case Unpublish => a.(status := Draft)
    case Pause => a.(status := Paused)
    case Resume => a.(status := Published)
  }

  // ── All agents ────────────────────────────────────────────────────────────

  function Selected(agents: map<nat, Agent>, days: int, now: int): set<nat>
  {
    set id | id in agents && Expired(agents[id], days, now)
  }

  function Step(db: Db, e: Timed): Db
  {
    match e.event
    case Create(id) => if id in db.known then db else db.(agents := db.agents[id := NEW_AGENT], known := db.known + {id})
    case On(id, event) =>
      if id in db.agents then db.(agents := db.agents[id := StepAgent(db.agents[id], event, e.now)]) else db
    case Begin(id, w) =>
      if id in db.agents && MayStart(db.agents[id], w) then db.(started := db.started + multiset{(id, w)}) else db
    case Finish(id, w) =>
      if (id, w) !in db.started then db
      else
        db.(started := db.started - multiset{(id, w)},
            agents := if id in db.agents then db.agents[id := Written(db.agents[id], w, e.now)] else db.agents)
    case Select(days) => db.(doomed := db.doomed + Selected(db.agents, days, e.now))
    case Remove(id) => if id in db.doomed then db.(agents := db.agents - {id}, doomed := db.doomed - {id}) else db
  }

  function Run(db: Db, events: seq<Timed>): Db
    decreases |events|
  {
    if events == [] then db else Run(Step(db, events[0]), events[1..])
  }

  predicate Clocked(events: seq<Timed>, from: int)
    decreases |events|
  {
    events == [] || (from <= events[0].now && Clocked(events[1..], events[0].now))
  }

  // ── DELETED exactly when deleted_at is set ────────────────────────────────

  predicate Consistent(a: Agent)
  {
    a.status == Deleted <==> a.deletedAt.Some?
  }

  ghost predicate AllConsistent(db: Db)
  {
    forall id :: id in db.agents ==> Consistent(db.agents[id])
  }

  /** A status write commits on an agent deleted since it was checked. */
  predicate WritesLate(db: Db, e: Timed)
  {
    && e.event.Finish? && (e.event.id, e.event.write) in db.started
    && e.event.id in db.agents && db.agents[e.event.id].deletedAt.Some?
  }

  predicate SomeWriteIsLate(db: Db, events: seq<Timed>)
    decreases |events|
  {
    events != [] && (WritesLate(db, events[0]) || SomeWriteIsLate(Step(db, events[0]), events[1..]))
  }

  lemma AgentConsistent(a: Agent, e: AgentEvent, now: int)
    requires Consistent(a)
    ensures Consistent(StepAgent(a, e, now))
  {
  }

  /** The one step that breaks it is a late write. */
  lemma StepConsistent(db: Db, e: Timed)
    requires AllConsistent(db)
    ensures AllConsistent(Step(db, e)) <==> !WritesLate(db, e)
  {
    if e.event.On? && e.event.id in db.agents {
      AgentConsistent(db.agents[e.event.id], e.event.event, e.now);
    }
    if WritesLate(db, e) {
      assert !Consistent(Step(db, e).agents[e.event.id]);
    }
  }

  ghost predicate AlwaysConsistent(db: Db, events: seq<Timed>)
    decreases |events|
  {
    AllConsistent(db) && (events == [] || AlwaysConsistent(Step(db, events[0]), events[1..]))
  }

  /** A run is consistent at every commit exactly when none of its status writes is late. */
  lemma {:induction false} RunConsistentExactly(db: Db, events: seq<Timed>)
    requires AllConsistent(db)
    ensures AlwaysConsistent(db, events) <==> !SomeWriteIsLate(db, events)
    decreases |events|
  {
    if events != [] {
      StepConsistent(db, events[0]);
      if !WritesLate(db, events[0]) {
        RunConsistentExactly(Step(db, events[0]), events[1..]);
      } else {
        assert !AllConsistent(Step(db, events[0]));
      }
    }
  }

  function LatePublish(): seq<Timed>
  {
    [Timed(Create(0), 0)] + ([Timed(Begin(0, Publish), 0)]
      + ([Timed(On(0, SoftDelete(Options(true, true), false)), 0)] + ([Timed(Finish(0, Publish), 0)] + [])))
  }

  lemma RunNext(db: Db, e: Timed, rest: seq<Timed>)
    ensures Run(db, [e] + rest) == Run(Step(db, e), rest)
  {
    assert ([e] + rest)[1..] == rest;
  }

  /** From the empty database: create, begin to publish, delete, finish. The agent is published and deleted. */
  lemma LatePublishBreaks()
    ensures var db := Run(EMPTY, LatePublish()); 0 in db.agents && !Consistent(db.agents[0])
  {
    var db1 := Db(map[0 := NEW_AGENT], {0}, {}, multiset{});
    var db2 := db1.(started := multiset{(0, Publish)});
    var deleted := NEW_AGENT.(status := Deleted, deletedAt := Some(0));
    var db3 := db2.(agents := map[0 := deleted]);
    var e2, e3, e4 := Timed(Begin(0, Publish), 0), Timed(On(0, SoftDelete(Options(true, true), false)), 0),
                      Timed(Finish(0, Publish), 0);
    assert Step(EMPTY, Timed(Create(0), 0)) == db1;
    assert Step(db1, e2) == db2;
    assert Step(db2, e3) == db3;
    RunNext(EMPTY, Timed(Create(0), 0), [e2] + ([e3] + ([e4] + [])));
    RunNext(db1, e2, [e3] + ([e4] + []));
    RunNext(db2, e3, [e4] + []);
    RunNext(db3, e4, []);
  }

  // ── Restorable or purgeable ───────────────────────────────────────────────

  /** At every instant a deleted agent is one or the other. */
  ghost predicate Complementary(days: int)
  {
    forall a: Agent, now: int :: a.deletedAt.Some? ==> (Restorable(a, now) <==> !Expired(a, days, now))
  }

  lemma ComplementaryExactly(days: int)
    ensures Complementary(days) <==> days == RETENTION_DAYS
  {
    if days != RETENTION_DAYS {
      var a := NEW_AGENT.(deletedAt := Some(0));
      var now := (if days < RETENTION_DAYS then RETENTION_DAYS else days) * DAY;
      assert Restorable(a, now) <==> now <= RETENTION_DAYS * DAY;
      assert Expired(a, days, now) <==> 0 < now - days * DAY;
    }
  }

  // ── A purge spares active agents ──────────────────────────────────────────

  predicate PurgesActive(db: Db, e: Timed)
  {
    e.event.Remove? && e.event.id in db.doomed && e.event.id in db.agents && db.agents[e.event.id].deletedAt.None?
  }

  predicate SomePurgeHitsActive(db: Db, events: seq<Timed>)
    decreases |events|
  {
    events != [] && (PurgesActive(db, events[0]) || SomePurgeHitsActive(Step(db, events[0]), events[1..]))
  }

  predicate SelectsWith(events: seq<Timed>, days: int)
  {
    forall i :: 0 <= i < |events| && events[i].event.Select? ==> events[i].event.days == days
  }

  /** Every selected agent that still exists is past the time it could be restored. */
  ghost predicate DoomedForGood(db: Db, now: int)
  {
    && db.doomed <= db.known
    && forall id :: id in db.doomed && id in db.agents ==>
         db.agents[id].deletedAt.Some? && !Restorable(db.agents[id], now)
  }

  lemma LaterStaysDoomed(db: Db, from: int, now: int)
    requires DoomedForGood(db, from) && from <= now
    ensures DoomedForGood(db, now)
  {
  }

  ghost predicate Known(db: Db)
  {
    db.agents.Keys <= db.known
  }

  lemma DeletedForGood(a: Agent, e: AgentEvent, now: int)
    requires a.deletedAt.Some? && !Restorable(a, now)
    ensures StepAgent(a, e, now).deletedAt == a.deletedAt
  {
  }

  lemma SelectedForGood(agents: map<nat, Agent>, days: int, now: int)
    requires days >= RETENTION_DAYS
    ensures forall id :: id in Selected(agents, days, now) ==>
      id in agents && agents[id].deletedAt.Some? && !Restorable(agents[id], now)
  {
    assert days * DAY >= RETENTION_DAYS * DAY;
  }

  lemma StepDoomed(db: Db, e: Timed)
    requires DoomedForGood(db, e.now) && Known(db)
    requires e.event.Select? ==> e.event.days >= RETENTION_DAYS
    ensures DoomedForGood(Step(db, e), e.now) && Known(Step(db, e))
  {
    match e.event
    case On(id, event) =>
      if id in db.agents && id in db.doomed {
        DeletedForGood(db.agents[id], event, e.now);
      }
    case Select(days) => SelectedForGood(db.agents, days, e.now);
    case _ =>
  }

  lemma {:induction false} NoActivePurged(db: Db, events: seq<Timed>, days: int, from: int)
    requires DoomedForGood(db, from) && Known(db) && Clocked(events, from)
    requires SelectsWith(events, days) && days >= RETENTION_DAYS
    ensures !SomePurgeHitsActive(db, events)
    decreases |events|
  {
    if events != [] {
      var e := events[0];
      LaterStaysDoomed(db, from, e.now);
      assert e.event.Select? ==> e.event.days == days;
      StepDoomed(db, e);
      assert forall i :: 0 <= i < |events[1..]| ==> events[1..][i] == events[i + 1];
      NoActivePurged(Step(db, e), events[1..], days, e.now);
    }
  }

  /** No run whose purges use this retention removes an agent that is not deleted at that moment. */
  ghost predicate PurgeIsSafe(days: int)
  {
    forall events: seq<Timed>, from: int ::
      Clocked(events, from) && SelectsWith(events, days) ==> !SomePurgeHitsActive(EMPTY, events)
  }

  function RestoredAfterSelection(days: int): seq<Timed>
  {
    var t := if days * DAY + 1 > 0 then days * DAY + 1 else 0;
    [Timed(Create(0), 0), Timed(On(0, SoftDelete(Options(true, true), false)), 0), Timed(Select(days), t),
     Timed(On(0, Restore), t), Timed(Remove(0), t)]
  }

  lemma ClockedMore(e: Timed, rest: seq<Timed>, from: int)
    requires from <= e.now && Clocked(rest, e.now)
    ensures Clocked([e] + rest, from)
  {
    assert ([e] + rest)[1..] == rest;
  }

  lemma RestoredIsClocked(days: int)
    ensures Clocked(RestoredAfterSelection(days), 0) && SelectsWith(RestoredAfterSelection(days), days)
  {
    var s := RestoredAfterSelection(days);
    ClockedMore(s[4], [], s[4].now);
    ClockedMore(s[3], [s[4]] + [], s[3].now);
    ClockedMore(s[2], [s[3]] + ([s[4]] + []), 0);
    ClockedMore(s[1], [s[2]] + ([s[3]] + ([s[4]] + [])), 0);
    ClockedMore(s[0], [s[1]] + ([s[2]] + ([s[3]] + ([s[4]] + []))), 0);
    assert s == [s[0]] + ([s[1]] + ([s[2]] + ([s[3]] + ([s[4]] + []))));
  }

  lemma PurgedLater(db: Db, e: Timed, rest: seq<Timed>)
    requires PurgesActive(db, e) || SomePurgeHitsActive(Step(db, e), rest)
    ensures SomePurgeHitsActive(db, [e] + rest)
  {
    assert ([e] + rest)[1..] == rest;
  }

  lemma RestoredThenPurged(days: int)
    requires days < RETENTION_DAYS
    ensures SomePurgeHitsActive(EMPTY, RestoredAfterSelection(days))
  {
    var s := RestoredAfterSelection(days);
    assert days * DAY + 1 <= RETENTION_DAYS * DAY;
    var deleted := NEW_AGENT.(status := Deleted, deletedAt := Some(0));
    var none: multiset<(nat, Write)> := multiset{};
    var db1, db2 := Db(map[0 := NEW_AGENT], {0}, {}, none), Db(map[0 := deleted], {0}, {}, none);
    var db3, db4 := Db(map[0 := deleted], {0}, {0}, none), Db(map[0 := NEW_AGENT], {0}, {0}, none);
    assert Expired(deleted, days, s[2].now);
    assert Step(EMPTY, s[0]) == db1 && Step(db1, s[1]) == db2 && Step(db2, s[2]) == db3 && Step(db3, s[3]) == db4;
    PurgedLater(db4, s[4], []);
    PurgedLater(db3, s[3], [s[4]] + []);
    PurgedLater(db2, s[2], [s[3]] + ([s[4]] + []));
    PurgedLater(db1, s[1], [s[2]] + ([s[3]] + ([s[4]] + [])));
    PurgedLater(EMPTY, s[0], [s[1]] + ([s[2]] + ([s[3]] + ([s[4]] + []))));
    assert s == [s[0]] + ([s[1]] + ([s[2]] + ([s[3]] + ([s[4]] + []))));
  }

  /** A shorter retention than the restore window lets a purge remove an agent restored after it was selected. */
  lemma PurgeIsSafeExactly(days: int)
    ensures PurgeIsSafe(days) <==> days >= RETENTION_DAYS
  {
    if days >= RETENTION_DAYS {
      forall events: seq<Timed>, from: int | Clocked(events, from) && SelectsWith(events, days)
        ensures !SomePurgeHitsActive(EMPTY, events)
      {
        NoActivePurged(EMPTY, events, days, from);
      }
    } else {
      RestoredIsClocked(days);
      RestoredThenPurged(days);
    }
  }

  // ── Cleanup ───────────────────────────────────────────────────────────────

  lemma RevokeAllTwice(keys: seq<Key>, t: int, u: int)
    ensures RevokeAll(RevokeAll(keys, t), u) == RevokeAll(keys, t)
  {
  }

  /** A cleanup job runs any number of times with the effect of its first run, and does nothing on an agent that was
      restored before it arrived. */
  lemma CleanupIdempotent(a: Agent, t: int, u: int)
    ensures CleanAgent(CleanAgent(a, t), u) == CleanAgent(a, t)
    ensures Restorable(a, t) ==> CleanAgent(StepAgent(a, Restore, t), u) == StepAgent(a, Restore, t)
  {
    RevokeAllTwice(a.keys, t, u);
  }

  // ── What a cleanup leaves ─────────────────────────────────────────────────

  datatype Asset = Conversations | Links

  function Assets(a: Agent, kind: Asset): set<nat>
  {
    if kind == Conversations then a.conversations else a.links
  }

  predicate Keeps(o: Options, kind: Asset)
  {
    if kind == Conversations then o.keepConversations else o.keepKnowledge
  }

  predicate DeleteSucceeds(a: Agent, confirm: bool)
  {
    a.deletedAt.None? && (WasPublished(a) ==> confirm)
  }

  /** What the agent's last successful delete asked for. */
  function LastDelete(db: Db, e: Timed, id: nat, last: Options): Options
  {
    if e.event.On? && e.event.id == id && id in db.agents && e.event.event.SoftDelete?
       && DeleteSucceeds(db.agents[id], e.event.event.confirm)
    then e.event.event.options else last
  }

  /** A cleanup runs while the agent is deleted, and the last successful delete did not ask to keep these. */
  predicate Wipes(db: Db, e: Timed, id: nat, last: Options, kind: Asset)
  {
    e.event == On(id, Cleanup) && id in db.agents && db.agents[id].deletedAt.Some? && !Keeps(last, kind)
  }

  predicate SomeCleanupWipes(db: Db, events: seq<Timed>, id: nat, last: Options, kind: Asset)
    decreases |events|
  {
    events != [] &&
    (|| Wipes(db, events[0], id, last, kind)
     || SomeCleanupWipes(Step(db, events[0]), events[1..], id, LastDelete(db, events[0], id, last), kind))
  }

  function Adding(kind: Asset, x: nat): AgentEvent
  {
    if kind == Conversations then AddConversation(x) else AddLink(x)
  }

  predicate NeverAdded(events: seq<Timed>, id: nat, kind: Asset, x: nat)
  {
    forall i :: 0 <= i < |events| ==> events[i].event != On(id, Adding(kind, x))
  }

  lemma AgentAssets(a: Agent, e: AgentEvent, now: int, kind: Asset, x: nat)
    requires e != Adding(kind, x)
    ensures var b := StepAgent(a, e, now);
      && b.options == (if e.SoftDelete? && DeleteSucceeds(a, e.confirm) then e.options else a.options)
      && (x in Assets(b, kind)
          <==> x in Assets(a, kind) && !(e == Cleanup && a.deletedAt.Some? && !Keeps(a.options, kind)))
  {
  }

  lemma StepAssets(db: Db, e: Timed, id: nat, last: Options, kind: Asset, x: nat)
    requires id in db.agents && id in db.known && last == db.agents[id].options && e.event != On(id, Adding(kind, x))
    ensures id in Step(db, e).agents ==>
      && Step(db, e).agents[id].options == LastDelete(db, e, id, last)
      && (x in Assets(Step(db, e).agents[id], kind)
          <==> x in Assets(db.agents[id], kind) && !Wipes(db, e, id, last, kind))
  {
    if e.event.On? && e.event.id == id {
      AgentAssets(db.agents[id], e.event.event, e.now, kind, x);
    }
  }

  lemma {:induction false} NotThereStaysAway(db: Db, events: seq<Timed>, id: nat, kind: Asset, x: nat)
    requires id in db.known && (id in db.agents ==> x !in Assets(db.agents[id], kind)) && NeverAdded(events, id, kind, x)
    ensures id in Run(db, events).agents ==> x !in Assets(Run(db, events).agents[id], kind)
    decreases |events|
  {
    if events != [] {
      if id in db.agents {
        StepAssets(db, events[0], id, db.agents[id].options, kind, x);
      }
      assert forall i :: 0 <= i < |events[1..]| ==> events[1..][i] == events[i + 1];
      NotThereStaysAway(Step(db, events[0]), events[1..], id, kind, x);
    }
  }

  /** A conversation or a knowledge link survives a run, as long as the agent does, exactly when no cleanup met the agent
      deleted while its last successful delete had asked not to keep it. */
  lemma {:induction false} KeptExactly(db: Db, events: seq<Timed>, id: nat, last: Options, kind: Asset, x: nat)
    requires id in db.agents && id in db.known && last == db.agents[id].options
    requires x in Assets(db.agents[id], kind) && NeverAdded(events, id, kind, x)
    ensures id in Run(db, events).agents ==>
      (x in Assets(Run(db, events).agents[id], kind) <==> !SomeCleanupWipes(db, events, id, last, kind))
    decreases |events|
  {
    if events != [] {
      var e, next := events[0], Step(db, events[0]);
      StepAssets(db, e, id, last, kind, x);
      assert forall i :: 0 <= i < |events[1..]| ==> events[1..][i] == events[i + 1];
      if id !in next.agents {
        GoneForGood(next, events[1..], id);
      } else if Wipes(db, e, id, last, kind) {
        NotThereStaysAway(next, events[1..], id, kind, x);
      } else {
        KeptExactly(next, events[1..], id, LastDelete(db, e, id, last), kind, x);
      }
    }
  }

  /** A removed agent does not come back. */
  lemma {:induction false} GoneForGood(db: Db, events: seq<Timed>, id: nat)
    requires id !in db.agents && id in db.known
    ensures id !in Run(db, events).agents
    decreases |events|
  {
    if events != [] {
      GoneForGood(Step(db, events[0]), events[1..], id);
    }
  }

  // ── API keys ──────────────────────────────────────────────────────────────

  /** verify_api_key_from_value for a raw key. */
  predicate Authenticates(a: Agent, id: nat, now: int)
  {
    && a.deletedAt.None?
    && exists i :: 0 <= i < |a.keys| && KeyWorks(a.keys[i], id, now)
  }

  predicate KeyWorks(k: Key, id: nat, now: int)
  {
    k.id == id && k.active && k.revokedAt.None? && (k.expiresAt.None? || k.expiresAt.value > now)
  }

  /** The agent had the key; it is revoked or gone. */
  predicate Dead(a: Agent, id: nat)
  {
    && id in a.issued
    && forall i :: 0 <= i < |a.keys| && a.keys[i].id == id ==> a.keys[i].revokedAt.Some?
  }

  lemma StepKeepsDead(a: Agent, e: AgentEvent, now: int, id: nat)
    requires Dead(a, id)
    ensures Dead(StepAgent(a, e, now), id)
  {
    if e.DeleteKey? {
      var b := StepAgent(a, e, now);
      forall i | 0 <= i < |b.keys| && b.keys[i].id == id ensures b.keys[i].revokedAt.Some? {
        assert b.keys[i] in b.keys;
      }
    }
  }

  /** Revocation is final in every run of deletes, restores, cleanups, publications and purges. */
  lemma {:induction false} DeadForGood(db: Db, events: seq<Timed>, agent: nat, id: nat, now: int)
    requires agent in db.known && (agent in db.agents ==> Dead(db.agents[agent], id))
    ensures var db' := Run(db, events);
      agent in db'.agents ==> Dead(db'.agents[agent], id) && !Authenticates(db'.agents[agent], id, now)
    decreases |events|
  {
    if events != [] {
      var e := events[0];
      if agent in db.agents && e.event.On? && e.event.id == agent {
        StepKeepsDead(db.agents[agent], e.event.event, e.now, id);
      }
      DeadForGood(Step(db, e), events[1..], agent, id, now);
    }
  }

  /** After a cleanup of a deleted agent, no key it had then ever authenticates again, even after a restore. */
  lemma NoKeySurvivesCleanup(db: Db, agent: nat, t: int, events: seq<Timed>, id: nat, now: int)
    requires agent in db.known && agent in db.agents && db.agents[agent].deletedAt.Some?
    requires id in db.agents[agent].issued
    ensures var db' := Run(Step(db, Timed(On(agent, Cleanup), t)), events);
      agent in db'.agents ==> !Authenticates(db'.agents[agent], id, now)
  {
    DeadForGood(Step(db, Timed(On(agent, Cleanup), t)), events, agent, id, now);
  }

  /** From a successful delete on, until a restore, no key of the agent authenticates: neither those it had nor any that
      is issued meanwhile, cleanup or not. */
  lemma {:induction false} DeletedStaysShut(db: Db, agent: nat, events: seq<Timed>, id: nat, now: int)
    requires agent in db.known && (agent in db.agents ==> db.agents[agent].deletedAt.Some?)
    requires forall i :: 0 <= i < |events| ==> events[i].event != On(agent, Restore)
    ensures var db' := Run(db, events); agent in db'.agents ==> !Authenticates(db'.agents[agent], id, now)
    decreases |events|
  {
    if events != [] {
      assert forall i :: 0 <= i < |events[1..]| ==> events[1..][i] == events[i + 1];
      DeletedStaysShut(Step(db, events[0]), agent, events[1..], id, now);
    }
  }

  lemma WhileDeletedNoneAuthenticates(db: Db, agent: nat, options: Options, confirm: bool, t: int, events: seq<Timed>,
                                      id: nat, now: int)
    requires agent in db.known && agent in db.agents && DeleteSucceeds(db.agents[agent], confirm)
    requires forall i :: 0 <= i < |events| ==> events[i].event != On(agent, Restore)
    ensures var db' := Run(Step(db, Timed(On(agent, SoftDelete(options, confirm)), t)), events);
      agent in db'.agents ==> !Authenticates(db'.agents[agent], id, now)
  {
    DeletedStaysShut(Step(db, Timed(On(agent, SoftDelete(options, confirm)), t)), agent, events, id, now);
  }

  /** A restore that comes before the cleanup gives back exactly the keys of an agent that was never published. */
  lemma RestoreBeforeCleanup(a: Agent, options: Options, t: int, u: int, id: nat)
    requires a.deletedAt.None? && t <= u && u - t <= RETENTION_DAYS * DAY
    ensures var b := StepAgent(StepAgent(a, SoftDelete(options, true), t), Restore, u);
      Authenticates(b, id, u) <==> Authenticates(a, id, u) && !WasPublished(a)
  {
  }

  // ── A key works until it is ended ─────────────────────────────────────────

  /** The agent is not deleted, and all it has under this id is the key as it was issued. */
  ghost predicate Works(a: Agent, key: Key)
  {
    && a.deletedAt.None? && key in a.keys && key.id in a.issued
    && forall i :: 0 <= i < |a.keys| && a.keys[i].id == key.id ==> a.keys[i] == key
  }

  /** Neither ends this key nor deletes its agent. */
  predicate Spares(e: Event, agent: nat, id: nat)
  {
    e.On? && e.id == agent ==> e.event != RevokeKey(id) && e.event != DeleteKey(id) && !e.event.SoftDelete?
  }

  lemma StepSpares(a: Agent, e: AgentEvent, now: int, key: Key)
    requires Works(a, key) && e != RevokeKey(key.id) && e != DeleteKey(key.id) && !e.SoftDelete?
    ensures Works(StepAgent(a, e, now), key)
  {
    var b := StepAgent(a, e, now);
    var k :| 0 <= k < |a.keys| && a.keys[k] == key;
    match e
    case RevokeKey(_) => assert b.keys[k] == key;
    case DeleteKey(_) =>
      forall i | 0 <= i < |b.keys| && b.keys[i].id == key.id ensures b.keys[i] == key {
        assert b.keys[i] in b.keys;
      }
    case _ =>
  }

  lemma {:induction false} RunSpares(db: Db, events: seq<Timed>, agent: nat, key: Key)
    requires agent in db.known && (agent in db.agents ==> Works(db.agents[agent], key))
    requires forall i :: 0 <= i < |events| ==> Spares(events[i].event, agent, key.id)
    ensures agent in Run(db, events).agents ==> Works(Run(db, events).agents[agent], key)
    decreases |events|
  {
    if events != [] {
      var e := events[0];
      assert Spares(e.event, agent, key.id);
      if agent in db.agents && e.event.On? && e.event.id == agent {
        StepSpares(db.agents[agent], e.event.event, e.now, key);
      }
      assert forall i :: 0 <= i < |events[1..]| ==> events[1..][i] == events[i + 1];
      RunSpares(Step(db, e), events[1..], agent, key);
    }
  }

  ghost predicate KeysIssued(db: Db)
  {
    forall agent, i :: agent in db.agents && 0 <= i < |db.agents[agent].keys| ==>
      db.agents[agent].keys[i].id in db.agents[agent].issued
  }

  lemma StepIssues(a: Agent, e: AgentEvent, now: int)
    requires forall i :: 0 <= i < |a.keys| ==> a.keys[i].id in a.issued
    ensures var b := StepAgent(a, e, now); forall i :: 0 <= i < |b.keys| ==> b.keys[i].id in b.issued
  {
    if e.DeleteKey? {
      var b := StepAgent(a, e, now);
      forall i | 0 <= i < |b.keys| ensures b.keys[i].id in b.issued {
        assert b.keys[i] in b.keys;
      }
    }
  }

  lemma {:induction false} RunIssues(db: Db, events: seq<Timed>)
    requires KeysIssued(db)
    ensures KeysIssued(Run(db, events))
    decreases |events|
  {
    if events != [] {
      var e := events[0];
      if e.event.On? && e.event.id in db.agents {
        StepIssues(db.agents[e.event.id], e.event.event, e.now);
      }
      RunIssues(Step(db, e), events[1..]);
    }
  }

  lemma {:induction false} RunKnows(db: Db, events: seq<Timed>)
    requires Known(db)
    ensures Known(Run(db, events))
    decreases |events|
  {
    if events != [] {
      RunKnows(Step(db, events[0]), events[1..]);
    }
  }

  lemma {:induction false} NewKeyWorks(db: Db, agent: nat, id: nat, expires: Option<int>, t: int, after: seq<Timed>, now: int)
    requires KeysIssued(db) && Known(db) && agent in db.agents
    requires db.agents[agent].deletedAt.None? && id !in db.agents[agent].issued
    requires forall i :: 0 <= i < |after| ==> Spares(after[i].event, agent, id)
    ensures var db' := Run(Step(db, Timed(On(agent, IssueKey(id, expires)), t)), after);
      agent in db'.agents ==> (Authenticates(db'.agents[agent], id, now) <==> expires.None? || expires.value > now)
  {
    var issued := Step(db, Timed(On(agent, IssueKey(id, expires)), t));
    var key := Key(id, true, None, expires);
    var keys := issued.agents[agent].keys;
    assert keys[|keys| - 1] == key;
    RunSpares(issued, after, agent, key);
    if agent in Run(issued, after).agents {
      WorksExactly(Run(issued, after).agents[agent], key, now);
    }
  }

  /** After any run, a new key of an agent that is not deleted authenticates exactly until it expires, whatever else
      happens, as long as nobody revokes or deletes the key or deletes the agent. */
  lemma IssuedKeyWorks(before: seq<Timed>, agent: nat, id: nat, expires: Option<int>, t: int, after: seq<Timed>, now: int)
    requires var db := Run(EMPTY, before);
      agent in db.agents && db.agents[agent].deletedAt.None? && id !in db.agents[agent].issued
    requires forall i :: 0 <= i < |after| ==> Spares(after[i].event, agent, id)
    ensures var db := Run(Step(Run(EMPTY, before), Timed(On(agent, IssueKey(id, expires)), t)), after);
      agent in db.agents ==> (Authenticates(db.agents[agent], id, now) <==> expires.None? || expires.value > now)
  {
    RunIssues(EMPTY, before);
    RunKnows(EMPTY, before);
    NewKeyWorks(Run(EMPTY, before), agent, id, expires, t, after, now);
  }

  lemma WorksExactly(a: Agent, key: Key, now: int)
    requires Works(a, key) && key.active && key.revokedAt.None?
    ensures Authenticates(a, key.id, now) <==> key.expiresAt.None? || key.expiresAt.value > now
  {
    var k :| 0 <= k < |a.keys| && a.keys[k] == key;
    assert KeyWorks(a.keys[k], key.id, now) <==> key.expiresAt.None? || key.expiresAt.value > now;
  }

  function Ending(id: nat, delete: bool): AgentEvent
  {
    if delete then DeleteKey(id) else RevokeKey(id)
  }

  lemma EndsOnlyThis(a: Agent, id: nat, delete: bool, t: int, other: nat, now: int)
    requires other != id
    ensures Authenticates(StepAgent(a, Ending(id, delete), t), other, now) <==> Authenticates(a, other, now)
  {
    var b := StepAgent(a, Ending(id, delete), t);
    if delete {
      if Authenticates(a, other, now) {
        var i :| 0 <= i < |a.keys| && KeyWorks(a.keys[i], other, now);
        var j :| 0 <= j < |b.keys| && b.keys[j] == a.keys[i];
        assert KeyWorks(b.keys[j], other, now);
      }
      if Authenticates(b, other, now) {
        var j :| 0 <= j < |b.keys| && KeyWorks(b.keys[j], other, now);
        assert b.keys[j] in a.keys;
      }
    } else {
      assert forall i :: 0 <= i < |a.keys| ==> (KeyWorks(b.keys[i], other, now) <==> KeyWorks(a.keys[i], other, now));
    }
  }

  /** Revoking or deleting a key ends it for good, in every run that follows, and no other key of the agent with it. */
  lemma EndedForGood(db: Db, agent: nat, id: nat, delete: bool, t: int, events: seq<Timed>, other: nat, now: int)
    requires agent in db.known && agent in db.agents && id in db.agents[agent].issued && other != id
    ensures var after := Step(db, Timed(On(agent, Ending(id, delete)), t));
      && (Authenticates(after.agents[agent], other, now) <==> Authenticates(db.agents[agent], other, now))
      && (agent in Run(after, events).agents ==> !Authenticates(Run(after, events).agents[agent], id, now))
  {
    var a := db.agents[agent];
    var b := StepAgent(a, Ending(id, delete), t);
    forall i | 0 <= i < |b.keys| && b.keys[i].id == id ensures b.keys[i].revokedAt.Some? {
      assert b.keys[i] in b.keys;
    }
    assert Dead(b, id);
    EndsOnlyThis(a, id, delete, t, other, now);
    DeadForGood(Step(db, Timed(On(agent, Ending(id, delete)), t)), events, agent, id, now);
  }

  // ── From the delete to the restore ────────────────────────────────────────

  /** DELETED and unpublished, unless it was removed. */
  ghost predicate Shut(db: Db, agent: nat)
  {
    agent in db.agents ==> db.agents[agent].status == Deleted && db.agents[agent].publishedAt.None?
  }

  lemma StepDeleted(db: Db, e: Timed, agent: nat)
    requires agent in db.known && (agent in db.agents ==> db.agents[agent].deletedAt.Some?) && e.event != On(agent, Restore)
    ensures var db' := Step(db, e);
      && agent in db'.known && (agent in db'.agents ==> agent in db.agents)
      && (agent in db'.agents ==>
            var a, b := db.agents[agent], db'.agents[agent];
            b.deletedAt == a.deletedAt && b.options == a.options)
      && (!WritesLate(db, e) && Shut(db, agent) ==> Shut(db', agent))
  {
  }

  lemma {:induction false} StaysDeleted(db: Db, agent: nat, options: Options, t: int, events: seq<Timed>)
    requires agent in db.known
    requires agent in db.agents ==> db.agents[agent].deletedAt == Some(t) && db.agents[agent].options == options
    requires forall i :: 0 <= i < |events| ==> events[i].event != On(agent, Restore)
    ensures var db' := Run(db, events);
      && (agent in db'.agents ==> db'.agents[agent].deletedAt == Some(t) && db'.agents[agent].options == options)
      && (Shut(db, agent) && !SomeWriteIsLate(db, events) ==> Shut(db', agent))
    decreases |events|
  {
    if events != [] {
      assert forall i :: 0 <= i < |events[1..]| ==> events[1..][i] == events[i + 1];
      StepDeleted(db, events[0], agent);
      StaysDeleted(Step(db, events[0]), agent, options, t, events[1..]);
    }
  }

  const THIRTY_DAYS := 2_592_000_000_000

  /** From a successful delete on, in every run without a restore, the agent stays deleted as of that moment, DELETED and
      unpublished as long as no status write is late; and a restore makes a draft of it, and changes nothing else,
      exactly when at most thirty days have passed since the delete. */
  lemma DeletedUntilRestored(db: Db, agent: nat, options: Options, confirm: bool, t: int, events: seq<Timed>, u: int)
    requires agent in db.known && agent in db.agents && DeleteSucceeds(db.agents[agent], confirm)
    requires forall i :: 0 <= i < |events| ==> events[i].event != On(agent, Restore)
    ensures var deleted := Step(db, Timed(On(agent, SoftDelete(options, confirm)), t));
      var db' := Run(deleted, events);
      agent in db'.agents ==>
        var a, b := db'.agents[agent], Step(db', Timed(On(agent, Restore), u)).agents[agent];
        && a.deletedAt == Some(t) && a.options == options
        && (!SomeWriteIsLate(deleted, events) ==> a.status == Deleted && a.publishedAt.None?)
        && (u - t <= THIRTY_DAYS ==> b == a.(status := Draft, deletedAt := None))
        && (u - t > THIRTY_DAYS ==> b == a)
  {
    StaysDeleted(Step(db, Timed(On(agent, SoftDelete(options, confirm)), t)), agent, options, t, events);
  }

  /** What was added is kept exactly as KeptExactly says. */
  lemma AddedIsKeptExactly(db: Db, id: nat, kind: Asset, x: nat, t: int, events: seq<Timed>)
    requires id in db.agents && id in db.known && NeverAdded(events, id, kind, x)
    ensures var added := Step(db, Timed(On(id, Adding(kind, x)), t));
      var db' := Run(added, events);
      id in db'.agents ==>
        (x in Assets(db'.agents[id], kind) <==> !SomeCleanupWipes(added, events, id, db.agents[id].options, kind))
  {
    KeptExactly(Step(db, Timed(On(id, Adding(kind, x)), t)), events, id, db.agents[id].options, kind, x);
  }

  // ── Status writes and purges that nothing interrupts ──────────────────────

  lemma RunTwo(db: Db, d: Timed, e: Timed)
    ensures Run(db, [d, e]) == Step(Step(db, d), e)
  {
    assert [d, e] == [d] + ([e] + []);
    RunNext(db, d, [e] + []);
    RunNext(Step(db, d), e, []);
  }

  /** An undisturbed status write goes through exactly on agents that are not deleted, a pause only on published ones, a
      resume only on paused ones; only a publish stamps the publication date, and no other agent changes. */
  lemma WriteExactly(db: Db, id: nat, w: Write, t: int, u: int)
    requires id in db.agents && (id, w) !in db.started
    ensures var after := Run(db, [Timed(Begin(id, w), t), Timed(Finish(id, w), u)]);
      id in after.agents && after.started == db.started && after.agents == db.agents[id := after.agents[id]]
    ensures var a, b := db.agents[id], Run(db, [Timed(Begin(id, w), t), Timed(Finish(id, w), u)]).agents[id];
      if a.deletedAt.Some? || (w == Pause && a.status != Published) || (w == Resume && a.status != Paused) then b == a
      else
        && (w == Publish ==> b == a.(status := Published, publishedAt := Some(u)))
        && (w == Unpublish ==> b == a.(status := Draft))
        && (w == Pause ==> b == a.(status := Paused))
        && (w == Resume ==> b == a.(status := Published))
  {
    RunTwo(db, Timed(Begin(id, w), t), Timed(Finish(id, w), u));
    assert db.agents[id := db.agents[id]] == db.agents;
  }

  /** An undisturbed purge removes an agent exactly when it was deleted longer ago than the retention, and no other. */
  lemma PurgedExactly(db: Db, id: nat, days: int, now: int, u: int)
    requires id !in db.doomed
    ensures var after := Run(db, [Timed(Select(days), now), Timed(Remove(id), u)]);
      && (forall other :: other in db.agents && other != id ==> other in after.agents && after.agents[other] == db.agents[other])
      && (id in db.agents ==>
            (id in after.agents <==> db.agents[id].deletedAt.None? || now - db.agents[id].deletedAt.value <= days * DAY))
      && (id in after.agents ==> id in db.agents && after.agents[id] == db.agents[id])
  {
    RunTwo(db, Timed(Select(days), now), Timed(Remove(id), u));
  }

  // ── The service ───────────────────────────────────────────────────────────

  class Lifecycle {
    var agents: map<nat, Agent>

    constructor ()
      ensures agents == map[]
    {
      agents := map[];
    }

    method RevokeAllKeys(id: nat, now: int)
      requires id in agents
      modifies this
      ensures agents == old(agents)[id := old(agents)[id].(keys := RevokeAll(old(agents)[id].keys, now))]
    {
      var keys := agents[id].keys;
      for i := 0 to |keys|
        invariant |keys| == |old(agents)[id].keys|
        invariant forall k :: 0 <= k < i ==> keys[k] == RevokeIt(old(agents)[id].keys[k], now)
        invariant forall k :: i <= k < |keys| ==> keys[k] == old(agents)[id].keys[k]
      {
        if keys[i].revokedAt.None? {
          keys := keys[i := keys[i].(active := false, revokedAt := Some(now))];
        }
      }
      assert keys == RevokeAll(old(agents)[id].keys, now);
      agents := agents[id := agents[id].(keys := keys)];
    }

    method SoftDeleteAgent(id: nat, options: Options, confirm: bool, now: int) returns (ok: bool)
      modifies this
      ensures ok <==> id in old(agents) && old(agents)[id].deletedAt.None? && (WasPublished(old(agents)[id]) ==> confirm)
      ensures agents == if ok then old(agents)[id := DeleteAgent(old(agents)[id], options, confirm, now)] else old(agents)
    {
      if id !in agents || agents[id].deletedAt.Some? {
        return false;
      }
      var wasPublished := WasPublished(agents[id]);
      if wasPublished && !confirm {
        return false;
      }
      if wasPublished {
        agents := agents[id := agents[id].(status := Draft, publishedAt := None)];
        RevokeAllKeys(id, now);
      }
      agents := agents[id := agents[id].(status := Deleted, deletedAt := Some(now), options := options)];
      return true;
    }

    method RestoreAgent(id: nat, now: int) returns (ok: bool)
      modifies this
      ensures ok <==> id in old(agents) && Restorable(old(agents)[id], now)
      ensures agents == if ok then old(agents)[id := StepAgent(old(agents)[id], Restore, now)] else old(agents)
    {
      if id !in agents || agents[id].deletedAt.None? {
        return false;
      }
      if now - agents[id].deletedAt.value > RETENTION_DAYS * DAY {
        return false;
      }
      agents := agents[id := agents[id].(status := Draft, deletedAt := None)];
      return true;
    }

    method RunCleanup(id: nat, now: int) returns (ok: bool)
      modifies this
      ensures ok <==> id in old(agents) && old(agents)[id].deletedAt.Some?
      ensures agents == if ok then old(agents)[id := CleanAgent(old(agents)[id], now)] else old(agents)
    {
      if id !in agents || agents[id].deletedAt.None? {
        return false;
      }
      RevokeAllKeys(id, now);
      if !agents[id].options.keepConversations {
        agents := agents[id := agents[id].(conversations := {})];
      }
      if !agents[id].options.keepKnowledge {
        agents := agents[id := agents[id].(links := {})];
      }
      return true;
    }

    /** purge_expired, when nothing else runs between its commits: it removes exactly the expired agents. */
    method PurgeExpired(days: int, now: int) returns (purged: seq<nat>)
      modifies this
      ensures agents == old(agents) - Selected(old(agents), days, now)
      ensures forall id :: id in purged <==> id in Selected(old(agents), days, now)
      ensures forall i, j :: 0 <= i < j < |purged| ==> purged[i] != purged[j]
    {
      var rest := Selected(agents, days, now);
      ghost var all := rest;
      purged := [];
      while rest != {}
        invariant rest <= all
        invariant forall id :: id in purged <==> id in all - rest
        invariant forall i, j :: 0 <= i < j < |purged| ==> purged[i] != purged[j]
        invariant agents == old(agents) - (all - rest)
        decreases rest
      {
        var id :| id in rest;
        var cleaned := RunCleanup(id, now);
        agents := agents - {id};
        rest := rest - {id};
        purged := purged + [id];
        assert agents == old(agents) - (all - rest);
      }
      assert all - rest == all;
    }
  }
}

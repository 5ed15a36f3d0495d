/** What the generated catalog SQL does to the template and version tables.

    The statements of one file run in one transaction: an error undoes all of them. */
module CatalogUpsert {
  import opened Wrappers

  /** One catalog entry; body stands for the columns that every upsert copies. */
  datatype Doc = Doc(id: nat, slug: string, version: string, changelog: nat, config: nat, body: nat)

  datatype Template = Template(
    slug: string, version: string, config: nat, body: nat, installs: nat, createdAt: int, updatedAt: int)

  datatype Version = Version(
    changelog: nat, config: nat, latest: bool, publishedAt: Option<int>, createdAt: int, updatedAt: int)

  /** Version rows are unique per template and version. */
  datatype Db = Db(templates: map<nat, Template>, versions: map<(nat, string), Version>)

  // ── The statements ────────────────────────────────────────────────────────

  predicate SlugTaken(t: map<nat, Template>, slug: string)
  {
    exists id :: id in t && t[id].slug == slug
  }

  function Refreshed(t: Template, d: Doc, now: int): Template
  {
    t.(config := d.config, body := d.body, updatedAt := now)
  }

  /** INSERT ... ON CONFLICT (slug) DO UPDATE; a row that has only the id in common violates the primary key. */
  function UpsertTemplate(t: map<nat, Template>, d: Doc, now: int): Option<map<nat, Template>>
  {
    if SlugTaken(t, d.slug) then Some(map id | id in t :: if t[id].slug == d.slug then Refreshed(t[id], d, now) else t[id])
    else if d.id in t then None
    else Some(t[d.id := Template(d.slug, d.version, d.config, d.body, 0, now, now)])
  }

  function Cleared(v: Version, now: int): Version
  {
    if v.latest then v.(latest := false, updatedAt := now) else v
  }

  /** The UPDATE that only the upgrade file has. */
  function ClearLatest(v: map<(nat, string), Version>, d: Doc, now: int): map<(nat, string), Version>
  {
    map k | k in v :: if k.0 == d.id && k.1 != d.version then Cleared(v[k], now) else v[k]
  }

  function CurrentVersion(v: map<(nat, string), Version>, d: Doc, now: int): Version
  {
    var k := (d.id, d.version);
    if k !in v then Version(d.changelog, d.config, true, Some(now), now, now)
    else
      v[k].(changelog := d.changelog, config := d.config, latest := true,
            publishedAt := if v[k].publishedAt.Some? then v[k].publishedAt else Some(now), updatedAt := now)
  }

  /** INSERT ... ON CONFLICT (template_id, version) DO UPDATE, and the UPDATE of the template's version; a version row of
      a template that does not exist violates the foreign key. */
  function UpsertVersion(db: Db, d: Doc, now: int): Option<Db>
  {
    var k := (d.id, d.version);
    if k !in db.versions && d.id !in db.templates then None
    else
      var templates :=
        if d.id in db.templates then
          db.templates[d.id := db.templates[d.id].(version := d.version, config := d.config, updatedAt := now)]
        else db.templates;
      Some(Db(templates, db.versions[k := CurrentVersion(db.versions, d, now)]))
  }

  function ApplyDoc(db: Db, d: Doc, clear: bool, now: int): Option<Db>
  {
    var t := UpsertTemplate(db.templates, d, now);
    if t.None? then None
    else UpsertVersion(Db(t.value, if clear then ClearLatest(db.versions, d, now) else db.versions), d, now)
  }

  function ApplyAll(db: Db, docs: seq<Doc>, clear: bool, now: int): Option<Db>
  {
    if docs == [] then Some(db)
    else
      var before := ApplyAll(db, docs[..|docs| - 1], clear, now);
      if before.None? then None else ApplyDoc(before.value, docs[|docs| - 1], clear, now)
  }

  function Transaction(db: Db, docs: seq<Doc>, clear: bool, now: int): Db
  {
    var r := ApplyAll(db, docs, clear, now);
    if r.Some? then r.value else db
  }

  // ── What the tables must satisfy ──────────────────────────────────────────

  /** slug is unique, and version rows belong to templates. */
  predicate Sound(db: Db)
  {
    && (forall i, j :: i in db.templates && j in db.templates && db.templates[i].slug == db.templates[j].slug ==> i == j)
    && (forall k :: k in db.versions ==> k.0 in db.templates)
  }

  /** The database and the catalog agree which id and which slug belong together. */
  predicate Matches(t: map<nat, Template>, d: Doc)
  {
    forall id :: id in t ==> (t[id].slug == d.slug <==> id == d.id)
  }

  predicate AllMatch(t: map<nat, Template>, docs: seq<Doc>)
  {
    forall i :: 0 <= i < |docs| ==> Matches(t, docs[i])
  }

  predicate Distinct(docs: seq<Doc>)
  {
    forall i, j :: 0 <= i < j < |docs| ==> docs[i].id != docs[j].id && docs[i].slug != docs[j].slug
  }

  /** Exactly one version row of the template is the latest, and the template's version column names it. */
  predicate OneLatest(db: Db, id: nat)
  {
    && id in db.templates
    && (id, db.templates[id].version) in db.versions
    && forall k :: k in db.versions && k.0 == id ==> (db.versions[k].latest <==> k.1 == db.templates[id].version)
  }

  /** The template is as its catalog entry says. */
  predicate Settled(db: Db, d: Doc)
  {
    && OneLatest(db, d.id)
    && (var t := db.templates[d.id]; t.slug == d.slug && t.version == d.version && t.config == d.config && t.body == d.body)
    && (var v := db.versions[(d.id, d.version)];
        v.changelog == d.changelog && v.config == d.config && v.publishedAt.Some?)
  }

  // ── One entry ─────────────────────────────────────────────────────────────

  lemma TemplateFacts(t: map<nat, Template>, d: Doc, now: int)
    requires Matches(t, d)
    ensures var r := UpsertTemplate(t, d, now);
      && r.Some? && r.value.Keys == t.Keys + {d.id}
      && (forall id :: id in t && id != d.id ==> r.value[id] == t[id])
      && r.value[d.id] == if d.id in t then Refreshed(t[d.id], d, now)
                          else Template(d.slug, d.version, d.config, d.body, 0, now, now)
  {
  }

  function FirstOf(t: Option<int>, now: int): int
  {
    if t.Some? then t.value else now
  }

  /** What one entry does to the tables: its template and its version row are written, the first publication date is kept,
      and the flags of its other versions are lowered only by the upgrade file. */
  lemma DocFacts(db: Db, d: Doc, clear: bool, now: int)
    requires Matches(db.templates, d)
    ensures var r := ApplyDoc(db, d, clear, now);
      && r.Some?
      && r.value.templates.Keys == db.templates.Keys + {d.id}
      && r.value.versions.Keys == db.versions.Keys + {(d.id, d.version)}
      && (forall id :: id in db.templates && id != d.id ==> r.value.templates[id] == db.templates[id])
      && (forall k :: k in db.versions && k.0 != d.id ==> r.value.versions[k] == db.versions[k])
      && (forall k :: k in db.versions && k.0 == d.id && k.1 != d.version ==>
           r.value.versions[k] == if clear then Cleared(db.versions[k], now) else db.versions[k])
      && (var k := (d.id, d.version);
          r.value.versions[k] ==
            if k in db.versions then
              db.versions[k].(changelog := d.changelog, config := d.config, latest := true, updatedAt := now,
                              publishedAt := Some(FirstOf(db.versions[k].publishedAt, now)))
            else Version(d.changelog, d.config, true, Some(now), now, now))
      && r.value.templates[d.id] ==
           if d.id in db.templates then
             db.templates[d.id].(version := d.version, config := d.config, body := d.body, updatedAt := now)
           else Template(d.slug, d.version, d.config, d.body, 0, now, now)
  {
    TemplateFacts(db.templates, d, now);
  }

  lemma DocSettles(db: Db, d: Doc, now: int)
    requires Matches(db.templates, d)
    ensures var r := ApplyDoc(db, d, true, now); r.Some? && Settled(r.value, d)
  {
  }

  lemma DocKeepsOthers(db: Db, d: Doc, now: int, other: Doc)
    requires Matches(db.templates, d) && d.id != other.id && d.slug != other.slug
    ensures var r := ApplyDoc(db, d, true, now);
      && r.Some?
      && (Matches(db.templates, other) ==> Matches(r.value.templates, other))
      && (Settled(db, other) ==> Settled(r.value, other))
  {
  }

  // ── The whole catalog ─────────────────────────────────────────────────────

  lemma FrontDistinct(docs: seq<Doc>)
    requires docs != [] && Distinct(docs)
    ensures Distinct(docs[..|docs| - 1])
  {
  }

  lemma ApplyLast(db: Db, docs: seq<Doc>, now: int)
    requires docs != [] && ApplyAll(db, docs[..|docs| - 1], true, now).Some?
    ensures ApplyAll(db, docs, true, now)
            == ApplyDoc(ApplyAll(db, docs[..|docs| - 1], true, now).value, docs[|docs| - 1], true, now)
  {
  }

  lemma {:induction false} UpgradeRuns(db: Db, docs: seq<Doc>, now: int, other: Doc)
    requires AllMatch(db.templates, docs) && Distinct(docs) && Matches(db.templates, other)
    requires forall i :: 0 <= i < |docs| ==> docs[i].id != other.id && docs[i].slug != other.slug
    ensures var r := ApplyAll(db, docs, true, now); r.Some? && Matches(r.value.templates, other)
  {
    if docs != [] {
      var front, d := docs[..|docs| - 1], docs[|docs| - 1];
      FrontDistinct(docs);
      UpgradeRuns(db, front, now, other);
      UpgradeRuns(db, front, now, d);
      DocKeepsOthers(ApplyAll(db, front, true, now).value, d, now, other);
    }
  }

  lemma LastSettles(db: Db, docs: seq<Doc>, now: int)
    requires AllMatch(db.templates, docs) && Distinct(docs) && docs != []
    ensures var r := ApplyAll(db, docs, true, now); r.Some? && Settled(r.value, docs[|docs| - 1])
  {
    var front, d := docs[..|docs| - 1], docs[|docs| - 1];
    FrontDistinct(docs);
    UpgradeRuns(db, front, now, d);
    ApplyLast(db, docs, now);
    DocSettles(ApplyAll(db, front, true, now).value, d, now);
  }

  lemma SettledStays(db: Db, docs: seq<Doc>, now: int, other: Doc)
    requires AllMatch(db.templates, docs) && Distinct(docs) && docs != []
    requires docs[|docs| - 1].id != other.id && docs[|docs| - 1].slug != other.slug
    requires var b := ApplyAll(db, docs[..|docs| - 1], true, now); b.Some? && Settled(b.value, other)
    ensures var r := ApplyAll(db, docs, true, now); r.Some? && Settled(r.value, other)
  {
    var front, d := docs[..|docs| - 1], docs[|docs| - 1];
    FrontDistinct(docs);
    UpgradeRuns(db, front, now, d);
    ApplyLast(db, docs, now);
    DocKeepsOthers(ApplyAll(db, front, true, now).value, d, now, other);
  }

  /** From tables that agree with the catalog on ids and slugs, the upgrade goes through, and leaves every catalog
      template as its entry says, with exactly one latest version: the one its version column names. */
  lemma {:induction false} UpgradeSettles(db: Db, docs: seq<Doc>, now: int, i: nat)
    requires AllMatch(db.templates, docs) && Distinct(docs) && i < |docs|
    ensures var r := ApplyAll(db, docs, true, now); r.Some? && Settled(r.value, docs[i])
  {
    if i < |docs| - 1 {
      FrontDistinct(docs);
      UpgradeSettles(db, docs[..|docs| - 1], now, i);
      SettledStays(db, docs, now, docs[i]);
    } else {
      LastSettles(db, docs, now);
    }
  }

  /** Templates outside the catalog keep their rows, and so do their versions. */
  lemma {:induction false} OthersUntouched(db: Db, docs: seq<Doc>, now: int, id: nat)
    requires AllMatch(db.templates, docs) && Distinct(docs) && forall i :: 0 <= i < |docs| ==> docs[i].id != id
    ensures var r := ApplyAll(db, docs, true, now);
      && r.Some?
      && (id in r.value.templates <==> id in db.templates)
      && (id in db.templates ==> r.value.templates[id] == db.templates[id])
      && forall k: (nat, string) :: k.0 == id ==>
           && (k in r.value.versions <==> k in db.versions)
           && (k in db.versions ==> r.value.versions[k] == db.versions[k])
  {
    if docs != [] {
      var front, d := docs[..|docs| - 1], docs[|docs| - 1];
      FrontDistinct(docs);
      OthersUntouched(db, front, now, id);
      UpgradeRuns(db, front, now, d);
      DocFacts(ApplyAll(db, front, true, now).value, d, true, now);
    }
  }

  /** No version row is lost, and a row that is not a catalog version keeps everything but its flag. */
  lemma {:induction false} HistoryKept(db: Db, docs: seq<Doc>, now: int, k: (nat, string))
    requires AllMatch(db.templates, docs) && Distinct(docs) && k in db.versions
    requires forall i :: 0 <= i < |docs| ==> k != (docs[i].id, docs[i].version)
    ensures var r := ApplyAll(db, docs, true, now);
      && r.Some? && k in r.value.versions
      && var v, w := db.versions[k], r.value.versions[k];
         (w == v || w == v.(latest := false, updatedAt := now))
  {
    if docs != [] {
      var front, d := docs[..|docs| - 1], docs[|docs| - 1];
      FrontDistinct(docs);
      HistoryKept(db, front, now, k);
      UpgradeRuns(db, front, now, d);
      DocFacts(ApplyAll(db, front, true, now).value, d, true, now);
    }
  }

  // ── The second run ────────────────────────────────────────────────────────

  function EraseTemplates(t: map<nat, Template>): map<nat, Template>
  {
    map id | id in t :: t[id].(updatedAt := 0)
  }

  function EraseVersions(v: map<(nat, string), Version>): map<(nat, string), Version>
  {
    map k | k in v :: v[k].(updatedAt := 0)
  }

  /** Everything but the updated_at columns. */
  function Erase(db: Db): Db
  {
    Db(EraseTemplates(db.templates), EraseVersions(db.versions))
  }

  lemma SettledDocAgain(db: Db, d: Doc, now: int)
    requires Matches(db.templates, d) && Settled(db, d)
    ensures var r := ApplyDoc(db, d, true, now); r.Some? && Erase(r.value) == Erase(db)
  {
  }

  predicate AllSettled(db: Db, docs: seq<Doc>)
  {
    forall i :: 0 <= i < |docs| ==> Settled(db, docs[i])
  }

  lemma {:induction false} SettledStaySettled(db: Db, docs: seq<Doc>, now: int, other: Doc)
    requires AllMatch(db.templates, docs) && Distinct(docs) && Settled(db, other)
    requires forall i :: 0 <= i < |docs| ==> docs[i].id != other.id && docs[i].slug != other.slug
    ensures var r := ApplyAll(db, docs, true, now); r.Some? && Settled(r.value, other)
  {
    if docs != [] {
      var front, d := docs[..|docs| - 1], docs[|docs| - 1];
      FrontDistinct(docs);
      SettledStaySettled(db, front, now, other);
      UpgradeRuns(db, front, now, d);
      DocKeepsOthers(ApplyAll(db, front, true, now).value, d, now, other);
    }
  }

  lemma {:induction false} SettledAgain(db: Db, docs: seq<Doc>, now: int)
    requires AllMatch(db.templates, docs) && Distinct(docs) && AllSettled(db, docs)
    ensures var r := ApplyAll(db, docs, true, now); r.Some? && Erase(r.value) == Erase(db)
  {
    if docs != [] {
      var front, d := docs[..|docs| - 1], docs[|docs| - 1];
      FrontDistinct(docs);
      assert forall i :: 0 <= i < |front| ==> front[i] == docs[i];
      SettledAgain(db, front, now);
      UpgradeRuns(db, front, now, d);
      SettledStaySettled(db, front, now, d);
      SettledDocAgain(ApplyAll(db, front, true, now).value, d, now);
    }
  }

  lemma SettledMatches(db: Db, d: Doc)
    requires Settled(db, d) && Sound(db)
    ensures Matches(db.templates, d)
  {
  }

  lemma {:induction false} UpgradeSound(db: Db, docs: seq<Doc>, now: int)
    requires AllMatch(db.templates, docs) && Distinct(docs) && Sound(db)
    ensures var r := ApplyAll(db, docs, true, now); r.Some? && Sound(r.value)
  {
    if docs != [] {
      var front, d := docs[..|docs| - 1], docs[|docs| - 1];
      FrontDistinct(docs);
      UpgradeSound(db, front, now);
      UpgradeRuns(db, front, now, d);
      DocSound(ApplyAll(db, front, true, now).value, d, now);
    }
  }

  lemma DocSound(db: Db, d: Doc, now: int)
    requires Matches(db.templates, d) && Sound(db)
    ensures var r := ApplyDoc(db, d, true, now); r.Some? && Sound(r.value)
  {
  }

  /** Running the upgrade again, at any later time, changes nothing but updated_at. */
  lemma UpgradeTwice(db: Db, docs: seq<Doc>, now: int, later: int)
    requires AllMatch(db.templates, docs) && Distinct(docs) && Sound(db)
    ensures var once := Transaction(db, docs, true, now);
      Erase(Transaction(once, docs, true, later)) == Erase(once)
  {
    UpgradeSound(db, docs, now);
    var once := Transaction(db, docs, true, now);
    forall i | 0 <= i < |docs| ensures Settled(once, docs[i]) && Matches(once.templates, docs[i]) {
      UpgradeSettles(db, docs, now, i);
      SettledMatches(once, docs[i]);
    }
    SettledAgain(once, docs, later);
  }

  // ── Where ids and slugs do not agree ──────────────────────────────────────

  /** One entry goes through exactly when its slug and its id are both taken or both free, and it is then settled exactly
      when they belong to the same row. */
  lemma DocExactly(db: Db, d: Doc, now: int)
    requires Sound(db)
    ensures ApplyDoc(db, d, true, now).Some? <==> (SlugTaken(db.templates, d.slug) <==> d.id in db.templates)
    ensures ApplyDoc(db, d, true, now).Some? && Settled(ApplyDoc(db, d, true, now).value, d)
            <==> Matches(db.templates, d)
  {
    var t := UpsertTemplate(db.templates, d, now);
    var k := (d.id, d.version);
    assert k in ClearLatest(db.versions, d, now) ==> d.id in db.templates;
    if Matches(db.templates, d) {
      DocSettles(db, d, now);
    } else if SlugTaken(db.templates, d.slug) && d.id in db.templates {
      assert db.templates[d.id].slug != d.slug;
      assert t.value[d.id].slug != d.slug;
      assert ApplyDoc(db, d, true, now).value.templates[d.id].slug != d.slug;
    }
  }

  /** Where slug and id belong to two rows, the entry goes through and each row gets a part of it: the slug's row the
      content, the id's row the version. */
  lemma EntryHitsTwoRows(db: Db, d: Doc, other: nat, clear: bool, now: int)
    requires Sound(db) && d.id in db.templates && other in db.templates
    requires db.templates[other].slug == d.slug && other != d.id
    ensures var r := ApplyDoc(db, d, clear, now);
      && r.Some?
      && r.value.templates == db.templates[other := db.templates[other].(config := d.config, body := d.body, updatedAt := now)]
           [d.id := db.templates[d.id].(version := d.version, config := d.config, updatedAt := now)]
  {
    var t := UpsertTemplate(db.templates, d, now);
    assert t.value == db.templates[other := Refreshed(db.templates[other], d, now)];
  }

  /** The seed file does not clear older flags: it leaves exactly one latest version exactly when no other version of
      the template carried the flag. */
  lemma SeedLeavesOneLatestExactly(db: Db, d: Doc, now: int)
    requires Matches(db.templates, d)
    ensures var r := ApplyDoc(db, d, false, now);
      r.Some? && (OneLatest(r.value, d.id) <==>
        forall k :: k in db.versions && k.0 == d.id && k.1 != d.version ==> !db.versions[k].latest)
  {
  }

  /** At its turn the entry meets a slug that is taken while its id is free, or the other way round. */
  predicate ClashesAt(db: Db, docs: seq<Doc>, i: nat, clear: bool, now: int)
    requires i < |docs|
  {
    var before := ApplyAll(db, docs[..i], clear, now);
    before.Some? && SlugTaken(before.value.templates, docs[i].slug) != (docs[i].id in before.value.templates)
  }

  lemma TemplatesKeepSlugs(t: map<nat, Template>, d: Doc, now: int)
    ensures var r := UpsertTemplate(t, d, now);
      && (r.Some? <==> SlugTaken(t, d.slug) || d.id !in t)
      && (r.Some? ==>
            && r.value.Keys == (if SlugTaken(t, d.slug) then t.Keys else t.Keys + {d.id})
            && forall id :: id in r.value ==> r.value[id].slug == if id in t then t[id].slug else d.slug)
  {
  }

  lemma VersionsKeepSlugs(db: Db, d: Doc, now: int)
    ensures var r := UpsertVersion(db, d, now);
      && (r.Some? <==> (d.id, d.version) in db.versions || d.id in db.templates)
      && (r.Some? ==>
            && r.value.templates.Keys == db.templates.Keys && r.value.versions.Keys == db.versions.Keys + {(d.id, d.version)}
            && forall id :: id in db.templates ==> r.value.templates[id].slug == db.templates[id].slug)
  {
  }

  lemma DocGoesThrough(db: Db, d: Doc, clear: bool, now: int)
    requires Sound(db)
    ensures var r := ApplyDoc(db, d, clear, now);
      && (r.Some? <==> (SlugTaken(db.templates, d.slug) <==> d.id in db.templates))
      && (r.Some? ==> Sound(r.value))
  {
    var t := UpsertTemplate(db.templates, d, now);
    TemplatesKeepSlugs(db.templates, d, now);
    if t.Some? {
      VersionsKeepSlugs(Db(t.value, if clear then ClearLatest(db.versions, d, now) else db.versions), d, now);
    }
  }

  lemma ClashesInFront(db: Db, docs: seq<Doc>, i: nat, clear: bool, now: int)
    requires i < |docs| - 1
    ensures ClashesAt(db, docs, i, clear, now) <==> ClashesAt(db, docs[..|docs| - 1], i, clear, now)
  {
    assert docs[..|docs| - 1][..i] == docs[..i];
  }

  lemma LastClashes(db: Db, docs: seq<Doc>, clear: bool, now: int)
    requires docs != []
    requires var b := ApplyAll(db, docs[..|docs| - 1], clear, now); b.Some? ==> Sound(b.value)
    ensures var b, r := ApplyAll(db, docs[..|docs| - 1], clear, now), ApplyAll(db, docs, clear, now);
      && (r.Some? <==> b.Some? && !ClashesAt(db, docs, |docs| - 1, clear, now))
      && (r.Some? ==> Sound(r.value))
  {
    var b := ApplyAll(db, docs[..|docs| - 1], clear, now);
    if b.Some? {
      DocGoesThrough(b.value, docs[|docs| - 1], clear, now);
    }
  }

  ghost predicate SomeEntryClashes(db: Db, docs: seq<Doc>, clear: bool, now: int)
  {
    exists i :: 0 <= i < |docs| && ClashesAt(db, docs, i, clear, now)
  }

  lemma SomeClashLast(db: Db, docs: seq<Doc>, clear: bool, now: int)
    requires docs != []
    ensures SomeEntryClashes(db, docs, clear, now)
            <==> SomeEntryClashes(db, docs[..|docs| - 1], clear, now) || ClashesAt(db, docs, |docs| - 1, clear, now)
  {
    var front := docs[..|docs| - 1];
    if SomeEntryClashes(db, front, clear, now) {
      var i :| 0 <= i < |front| && ClashesAt(db, front, i, clear, now);
      ClashesInFront(db, docs, i, clear, now);
    }
    if SomeEntryClashes(db, docs, clear, now) {
      var i :| 0 <= i < |docs| && ClashesAt(db, docs, i, clear, now);
      if i < |front| {
        ClashesInFront(db, docs, i, clear, now);
      }
    }
  }

  lemma {:induction false} FileGoesThrough(db: Db, docs: seq<Doc>, clear: bool, now: int)
    requires Sound(db)
    ensures var r := ApplyAll(db, docs, clear, now);
      (r.Some? <==> !SomeEntryClashes(db, docs, clear, now)) && (r.Some? ==> Sound(r.value))
  {
    if docs == [] {
      assert ApplyAll(db, docs, clear, now) == Some(db);
    } else {
      FileGoesThrough(db, docs[..|docs| - 1], clear, now);
      LastClashes(db, docs, clear, now);
      SomeClashLast(db, docs, clear, now);
    }
  }

  /** A file is all or nothing: it fails exactly when some entry clashes at its turn, and then the tables are what they
      were, whatever came before that entry. */
  lemma FileExactly(db: Db, docs: seq<Doc>, clear: bool, now: int)
    requires Sound(db)
    ensures ApplyAll(db, docs, clear, now).None? <==> SomeEntryClashes(db, docs, clear, now)
    ensures SomeEntryClashes(db, docs, clear, now) ==> Transaction(db, docs, clear, now) == db
    ensures Sound(Transaction(db, docs, clear, now))
  {
    FileGoesThrough(db, docs, clear, now);
  }

  // ── The tables under the upgrade file ─────────────────────────────────────

  class CatalogTables {
    var templates: map<nat, Template>
    var versions: map<(nat, string), Version>

    constructor (db: Db)
      ensures State() == db
    {
      templates, versions := db.templates, db.versions;
    }

    ghost function State(): Db
      reads this
    {
      Db(templates, versions)
    }

    method Apply(d: Doc, clear: bool, now: int) returns (ok: bool)
      modifies this
      ensures ok == ApplyDoc(old(State()), d, clear, now).Some?
      ensures ok ==> State() == ApplyDoc(old(State()), d, clear, now).value
    {
      var t := UpsertTemplate(templates, d, now);
      if t.None? {
        return false;
      }
      templates := t.value;
      if clear {
        versions := ClearLatest(versions, d, now);
      }
      var k := (d.id, d.version);
      if k !in versions && d.id !in templates {
        return false;
      }
      versions := versions[k := CurrentVersion(versions, d, now)];
      if d.id in templates {
        templates := templates[d.id := templates[d.id].(version := d.version, config := d.config, updatedAt := now)];
      }
      return true;
    }

    /** One file: BEGIN, the statements of every entry, COMMIT. */
    method RunFile(docs: seq<Doc>, clear: bool, now: int) returns (ok: bool)
      modifies this
      ensures ok == ApplyAll(old(State()), docs, clear, now).Some?
      ensures State() == Transaction(old(State()), docs, clear, now)
      ensures !ok ==> State() == old(State())
    {
      var savedTemplates, savedVersions := templates, versions;
      ok := true;
      var i := 0;
      while ok && i < |docs|
        invariant 0 <= i <= |docs|
        invariant ok == ApplyAll(old(State()), docs[..i], clear, now).Some?
        invariant ok ==> State() == ApplyAll(old(State()), docs[..i], clear, now).value
      {
        assert docs[..i + 1][..i] == docs[..i];
        ok := Apply(docs[i], clear, now);
        i := i + 1;
      }
      if ok {
        assert docs[..i] == docs;
      } else {
        FailureStays(old(State()), docs, i, clear, now);
        templates, versions := savedTemplates, savedVersions;
      }
    }
  }

  lemma {:induction false} FailureStays(db: Db, docs: seq<Doc>, i: nat, clear: bool, now: int)
    requires i <= |docs| && ApplyAll(db, docs[..i], clear, now).None?
    ensures ApplyAll(db, docs, clear, now).None?
  {
    if i == |docs| {
      assert docs[..i] == docs;
    } else {
      assert docs[..|docs| - 1][..i] == docs[..i];
      FailureStays(db, docs[..|docs| - 1], i, clear, now);
    }
  }
}

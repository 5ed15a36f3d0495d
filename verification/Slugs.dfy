/** Slugs: what slugify makes of a name, and the search for a free one. */
module Slugs {
  import opened Text

  // ── slugify ───────────────────────────────────────────────────────────────

  /** re.sub(r"[^a-z0-9]+", "-", s): a run of other characters gives one hyphen, written at its last character. */
  function Sub(s: string): string
  {
    if s == [] then []
    else if IsAsciiAlnum(s[0]) then [s[0]] + Sub(s[1..])
    else if |s| > 1 && !IsAsciiAlnum(s[1]) then Sub(s[1..])
    else "-" + Sub(s[1..])
  }

  function StripLeft(s: string): string
  {
    if s != [] && s[0] == '-' then StripLeft(s[1..]) else s
  }

  function StripRight(s: string): string
  {
    if s != [] && s[|s| - 1] == '-' then StripRight(s[..|s| - 1]) else s
  }

  /** The name's slug, or "" where the name has no letter or digit. */
  function Base(name: string): string
  {
    StripLeft(StripRight(Sub(Lower(name))))
  }

  function Slugify(name: string, fallback: string): string
  {
    if Base(name) == "" then fallback else Base(name)
  }

  // ── What a slug is ────────────────────────────────────────────────────────

  predicate IsWord(w: string)
  {
    w != [] && forall i :: 0 <= i < |w| ==> IsAsciiAlnum(w[i])
  }

  predicate AreWords(words: seq<string>)
  {
    forall i :: 0 <= i < |words| ==> IsWord(words[i])
  }

  /** The maximal groups of letters and digits of a text. */
  function Words(s: string): (words: seq<string>)
    ensures AreWords(words)
    ensures s != [] && IsAsciiAlnum(s[0]) ==> words != []
  {
    if s == [] then []
    else if !IsAsciiAlnum(s[0]) then Words(s[1..])
    else if |s| > 1 && IsAsciiAlnum(s[1]) then
      var rest := Words(s[1..]);
      [[s[0]] + rest[0]] + rest[1..]
    else [[s[0]]] + Words(s[1..])
  }

  function Join(words: seq<string>): string
  {
    if words == [] then [] else if |words| == 1 then words[0] else words[0] + "-" + Join(words[1..])
  }

  /** Non-empty groups of letters and digits, separated by single hyphens. */
  ghost predicate IsSlug(s: string)
  {
    exists words: seq<string> :: words != [] && AreWords(words) && s == Join(words)
  }

  lemma {:induction false} JoinShape(words: seq<string>)
    requires words != [] && AreWords(words)
    ensures Join(words) != [] && IsAsciiAlnum(Join(words)[0])
    ensures forall i :: 0 <= i < |Join(words)| ==> IsAsciiAlnum(Join(words)[i]) || Join(words)[i] == '-'
  {
    if |words| > 1 {
      JoinShape(words[1..]);
    }
  }

  lemma {:induction false} StripRightAppend(x: string, t: string)
    ensures StripRight(x + t) == if StripRight(t) == [] then StripRight(x) else x + StripRight(t)
    decreases |t|
  {
    if t == [] {
      assert x + t == x;
    } else if t[|t| - 1] == '-' {
      assert (x + t)[..|x + t| - 1] == x + t[..|t| - 1];
      StripRightAppend(x, t[..|t| - 1]);
    }
  }

  predicate StartsWithGap(s: string)
  {
    s != [] && !IsAsciiAlnum(s[0])
  }

  lemma JoinHead(c: char, words: seq<string>)
    requires words != []
    ensures Join([[c] + words[0]] + words[1..]) == [c] + Join(words)
  {
    assert ([[c] + words[0]] + words[1..])[1..] == words[1..];
    if |words| > 1 {
      assert [c] + words[0] + "-" + Join(words[1..]) == [c] + (words[0] + "-" + Join(words[1..]));
    }
  }

  lemma JoinNew(c: char, words: seq<string>)
    ensures Join([[c]] + words) == [c] + (if words == [] then [] else "-" + Join(words))
  {
    assert ([[c]] + words)[1..] == words;
  }

  /** What strip("-") on the right leaves of the substituted text. */
  function Tidy(s: string): string
  {
    (if StartsWithGap(s) && Words(s) != [] then "-" else "") + Join(Words(s))
  }

  lemma JoinEmpty(words: seq<string>)
    requires AreWords(words)
    ensures Join(words) == [] <==> words == []
  {
  }

  lemma SubAtGapEnd(s: string)
    requires s != [] && !IsAsciiAlnum(s[0]) && (|s| > 1 ==> IsAsciiAlnum(s[1]))
    requires StripRight(Sub(s[1..])) == Join(Words(s[1..]))
    ensures StripRight(Sub(s)) == Tidy(s)
  {
    JoinEmpty(Words(s[1..]));
    StripRightAppend("-", Sub(s[1..]));
    assert "-"[..0] == [];
    assert StripRight("-") == [];
  }

  lemma SubAfterGap(s: string)
    requires s != [] && !IsAsciiAlnum(s[0]) && StripRight(Sub(s[1..])) == Tidy(s[1..])
    ensures StripRight(Sub(s)) == Tidy(s)
  {
    if |s| > 1 && !IsAsciiAlnum(s[1]) {
      assert Sub(s) == Sub(s[1..]) && Words(s) == Words(s[1..]);
    } else {
      assert Tidy(s[1..]) == Join(Words(s[1..]));
      SubAtGapEnd(s);
    }
  }

  lemma SubInsideWord(s: string)
    requires |s| > 1 && IsAsciiAlnum(s[0]) && IsAsciiAlnum(s[1])
    requires StripRight(Sub(s[1..])) == Join(Words(s[1..]))
    ensures StripRight(Sub(s)) == Join(Words(s))
  {
    var words := Words(s[1..]);
    StripRightAppend([s[0]], Sub(s[1..]));
    JoinEmpty(words);
    JoinHead(s[0], words);
  }

  lemma SubAtWordEnd(s: string)
    requires s != [] && IsAsciiAlnum(s[0]) && (|s| > 1 ==> !IsAsciiAlnum(s[1]))
    requires StripRight(Sub(s[1..])) == Tidy(s[1..])
    ensures StripRight(Sub(s)) == Join(Words(s))
  {
    var words := Words(s[1..]);
    StripRightAppend([s[0]], Sub(s[1..]));
    assert s[1..] == [] ==> words == [];
    JoinNew(s[0], words);
    JoinEmpty(words);
  }

  lemma {:induction false} SubIsJoin(s: string)
    ensures StripRight(Sub(s)) == Tidy(s)
  {
    if s != [] {
      SubIsJoin(s[1..]);
      if !IsAsciiAlnum(s[0]) {
        SubAfterGap(s);
      } else if |s| > 1 && IsAsciiAlnum(s[1]) {
        assert Tidy(s[1..]) == Join(Words(s[1..]));
        SubInsideWord(s);
      } else {
        SubAtWordEnd(s);
      }
    }
  }

  /** slugify joins the name's groups of letters and digits with hyphens. */
  lemma BaseIsJoin(name: string)
    ensures Base(name) == Join(Words(Lower(name)))
  {
    var s := Lower(name);
    SubIsJoin(s);
    if Words(s) != [] {
      JoinShape(Words(s));
      StripGap(Join(Words(s)));
    }
  }

  lemma {:induction false} NoWords(s: string)
    ensures Words(s) == [] <==> forall i :: 0 <= i < |s| ==> !IsAsciiAlnum(s[i])
  {
    if s != [] && !IsAsciiAlnum(s[0]) {
      NoWords(s[1..]);
      assert forall i :: 0 < i < |s| ==> s[i] == s[1..][i - 1];
    }
  }

  /** The fallback is taken exactly for names without a letter or a digit once lower-cased. */
  lemma SlugifyExactly(name: string, fallback: string)
    ensures var s := Lower(name);
      Slugify(name, fallback) == if exists i :: 0 <= i < |s| && IsAsciiAlnum(s[i]) then Join(Words(s)) else fallback
  {
    BaseIsJoin(name);
    NoWords(Lower(name));
    JoinEmpty(Words(Lower(name)));
  }

  lemma StripGap(s: string)
    requires s != [] && s[0] != '-'
    ensures StripLeft("-" + s) == s && StripLeft("" + s) == s
  {
  }

  lemma {:induction false} WordsOfWord(w: string, t: string)
    requires IsWord(w) && (t == [] || t[0] == '-')
    ensures Words(w + t) == [w] + Words(t)
  {
    assert (w + t)[1..] == w[1..] + t;
    if |w| == 1 {
      assert w[1..] == [] && [w[0]] == w;
      assert w[1..] + t == t;
    } else {
      WordsOfWord(w[1..], t);
      assert [w[0]] + w[1..] == w;
    }
  }

  lemma {:induction false} WordsOfJoin(words: seq<string>)
    requires AreWords(words)
    ensures Words(Join(words)) == words
  {
    if words != [] {
      if |words| == 1 {
        WordsOfWord(words[0], []);
        assert words[0] + [] == words[0];
      } else {
        var t := "-" + Join(words[1..]);
        assert Join(words) == words[0] + t;
        WordsOfWord(words[0], t);
        assert t[1..] == Join(words[1..]);
        WordsOfJoin(words[1..]);
      }
    }
  }

  /** slugify leaves exactly the slugs as they are. */
  lemma FixedExactlySlugs(s: string)
    ensures s != "" && Base(s) == s <==> IsSlug(s)
  {
    BaseIsJoin(s);
    if IsSlug(s) {
      var words :| words != [] && AreWords(words) && s == Join(words);
      JoinShape(words);
      LowerFixes(s);
      WordsOfJoin(words);
    }
    if s != "" && Base(s) == s {
      assert AreWords(Words(Lower(s)));
    }
  }

  /** The result is a slug whenever the fallback is one; slugging it again changes nothing. */
  lemma SlugifyGivesSlugs(name: string, fallback: string, other: string)
    requires IsSlug(fallback)
    ensures IsSlug(Slugify(name, fallback))
    ensures Slugify(Slugify(name, fallback), other) == Slugify(name, fallback)
  {
    BaseIsJoin(name);
    if Base(name) != "" {
      assert AreWords(Words(Lower(name)));
    }
    FixedExactlySlugs(Slugify(name, fallback));
  }

  // ── Candidates ────────────────────────────────────────────────────────────

  /** base, base-2, base-3, ... */
  function Candidate(base: string, k: nat): string
  {
    if k <= 1 then base else base + "-" + Decimal(k)
  }

  lemma {:induction false} DecimalInjective(m: nat, n: nat)
    requires Decimal(m) == Decimal(n)
    ensures m == n
  {
    var a, b := Decimal(m), Decimal(n);
    assert a[|a| - 1] == b[|b| - 1];
    if m >= 10 && n >= 10 {
      assert a[..|a| - 1] == Decimal(m / 10) && b[..|b| - 1] == Decimal(n / 10);
      DecimalInjective(m / 10, n / 10);
    } else if m >= 10 {
      DecimalNotEmpty(m / 10);
    } else if n >= 10 {
      DecimalNotEmpty(n / 10);
    }
  }

  lemma DecimalNotEmpty(n: nat)
    ensures |Decimal(n)| >= 1
  {
  }

  lemma CandidatesDiffer(base: string, j: nat, k: nat)
    requires 1 <= j < k
    ensures Candidate(base, j) != Candidate(base, k)
  {
    var c := Candidate(base, k);
    assert c[|base| + 1..] == Decimal(k);
    if j > 1 && Candidate(base, j) == c {
      assert Candidate(base, j)[|base| + 1..] == Decimal(j);
      DecimalInjective(j, k);
    }
  }

  function FirstCandidates(base: string, n: nat): set<string>
  {
    set k | 1 <= k <= n :: Candidate(base, k)
  }

  lemma {:induction false} CandidatesCount(base: string, n: nat)
    ensures |FirstCandidates(base, n)| == n
  {
    if n > 0 {
      CandidatesCount(base, n - 1);
      forall j | 1 <= j <= n - 1 ensures Candidate(base, j) != Candidate(base, n) {
        CandidatesDiffer(base, j, n);
      }
      assert FirstCandidates(base, n) == FirstCandidates(base, n - 1) + {Candidate(base, n)};
    }
  }

  lemma {:induction false} SubsetSize(a: set<string>, b: set<string>)
    requires a <= b
    ensures |a| <= |b|
  {
    if a != {} {
      var x :| x in a;
      SubsetSize(a - {x}, b - {x});
    }
  }

  /** A set holds the first n candidates only if it has n elements: the search for a free one ends. */
  lemma SearchEnds(base: string, used: set<string>, n: nat)
    requires forall j :: 1 <= j <= n ==> Candidate(base, j) in used
    ensures n <= |used|
  {
    CandidatesCount(base, n);
    SubsetSize(FirstCandidates(base, n), used);
  }

  /** slug is the first candidate that is not used. */
  ghost predicate IsFirstFree(slug: string, base: string, used: set<string>)
  {
    exists k: nat :: k >= 1 && FirstFreeAt(slug, base, used, k)
  }

  predicate FirstFreeAt(slug: string, base: string, used: set<string>, k: nat)
  {
    slug == Candidate(base, k) && slug !in used && forall j :: 1 <= j < k ==> Candidate(base, j) in used
  }

  lemma FirstFreeUnique(a: string, b: string, base: string, used: set<string>)
    requires IsFirstFree(a, base, used) && IsFirstFree(b, base, used)
    ensures a == b
  {
  }

  /** The inner loop of the migration. */
  method Allocate(base: string, used: set<string>) returns (slug: string)
    ensures IsFirstFree(slug, base, used)
  {
    slug := base;
    var suffix: nat := 1;
    while slug in used
      invariant suffix >= 1 && slug == Candidate(base, suffix)
      invariant forall j :: 1 <= j < suffix ==> Candidate(base, j) in used
      decreases |used| + 1 - suffix
    {
      SearchEnds(base, used, suffix);
      suffix := suffix + 1;
      slug := base + "-" + Decimal(suffix);
    }
    assert FirstFreeAt(slug, base, used, suffix);
  }

  /** The loop of duplicate_listing: its counter starts at 2 and is raised after use. */
  method CopySlug(source: string, existing: set<string>) returns (slug: string)
    ensures IsFirstFree(slug, source + "-copy", existing)
    ensures slug != source
  {
    var base := source + "-copy";
    slug := base;
    var n: nat := 2;
    while slug in existing
      invariant n >= 2 && slug == Candidate(base, n - 1)
      invariant forall j :: 1 <= j < n - 1 ==> Candidate(base, j) in existing
      decreases |existing| + 2 - n
    {
      SearchEnds(base, existing, n - 1);
      slug := base + "-" + Decimal(n);
      n := n + 1;
    }
    assert FirstFreeAt(slug, base, existing, n - 1);
  }

  // ── The backfill ──────────────────────────────────────────────────────────

  /** shortId: the first eight characters of the row's UUID. */
  datatype Row = Row(company: nat, name: string, shortId: string)

  predicate ValidRow(r: Row)
  {
    |r.shortId| == 8 && IsWord(r.shortId)
  }

  function RowBase(r: Row): string
  {
    Slugify(r.name, r.shortId)
  }

  /** The slugs given out before row n in this company. */
  function UsedBefore(rows: seq<Row>, slugs: seq<string>, n: nat, company: nat): set<string>
    requires n <= |rows| && n <= |slugs|
  {
    if n == 0 then {}
    else UsedBefore(rows, slugs, n - 1, company) + if rows[n - 1].company == company then {slugs[n - 1]} else {}
  }

  lemma {:induction false} UsedBeforeAgrees(rows: seq<Row>, a: seq<string>, b: seq<string>, n: nat, company: nat)
    requires n <= |rows| && n <= |a| && n <= |b| && forall i :: 0 <= i < n ==> a[i] == b[i]
    ensures UsedBefore(rows, a, n, company) == UsedBefore(rows, b, n, company)
  {
    if n > 0 {
      UsedBeforeAgrees(rows, a, b, n - 1, company);
    }
  }

  lemma {:induction false} UsedBeforeHas(rows: seq<Row>, slugs: seq<string>, n: nat, i: nat)
    requires i < n <= |rows| && n <= |slugs|
    ensures slugs[i] in UsedBefore(rows, slugs, n, rows[i].company)
  {
    if i < n - 1 {
      UsedBeforeHas(rows, slugs, n - 1, i);
    }
  }

  /** Row i has the first candidate of its name that is free in its company at its turn. */
  ghost predicate RowAssigned(rows: seq<Row>, slugs: seq<string>, i: nat)
  {
    i < |rows| && i < |slugs| &&
    IsFirstFree(slugs[i], RowBase(rows[i]), UsedBefore(rows, slugs, i, rows[i].company))
  }

  ghost predicate AssignedSoFar(rows: seq<Row>, slugs: seq<string>)
  {
    |slugs| <= |rows| && forall i :: 0 <= i < |slugs| ==> RowAssigned(rows, slugs, i)
  }

  ghost predicate Assigned(rows: seq<Row>, slugs: seq<string>)
  {
    |slugs| == |rows| && AssignedSoFar(rows, slugs)
  }

  lemma AssignedDistinct(rows: seq<Row>, slugs: seq<string>, i: nat, j: nat)
    requires Assigned(rows, slugs) && i < j < |rows| && rows[i].company == rows[j].company
    ensures slugs[i] != slugs[j]
  {
    var used := UsedBefore(rows, slugs, j, rows[j].company);
    UsedBeforeHas(rows, slugs, j, i);
    assert RowAssigned(rows, slugs, j);
  }

  lemma RowUnique(rows: seq<Row>, a: seq<string>, b: seq<string>, n: nat)
    requires RowAssigned(rows, a, n) && RowAssigned(rows, b, n) && forall i :: 0 <= i < n ==> a[i] == b[i]
    ensures a[n] == b[n]
  {
    UsedBeforeAgrees(rows, a, b, n, rows[n].company);
    FirstFreeUnique(a[n], b[n], RowBase(rows[n]), UsedBefore(rows, a, n, rows[n].company));
  }

  /** The rule leaves no choice. */
  lemma {:induction false} AssignedUnique(rows: seq<Row>, a: seq<string>, b: seq<string>, n: nat)
    requires Assigned(rows, a) && Assigned(rows, b) && n <= |rows|
    ensures forall i :: 0 <= i < n ==> a[i] == b[i]
  {
    if n > 0 {
      AssignedUnique(rows, a, b, n - 1);
      RowUnique(rows, a, b, n - 1);
    }
  }

  /** How many of the first n rows belong to the company. */
  function RowsOf(rows: seq<Row>, n: nat, company: nat): nat
    requires n <= |rows|
  {
    if n == 0 then 0 else RowsOf(rows, n - 1, company) + if rows[n - 1].company == company then 1 else 0
  }

  lemma FirstFreeAfter(base: string, slug: string, n: nat)
    requires IsFirstFree(slug, base, FirstCandidates(base, n))
    ensures slug == Candidate(base, n + 1)
  {
    var k: nat :| k >= 1 && FirstFreeAt(slug, base, FirstCandidates(base, n), k);
    if k > n + 1 {
      assert Candidate(base, n + 1) in FirstCandidates(base, n);
      var j :| 1 <= j <= n && Candidate(base, j) == Candidate(base, n + 1);
      CandidatesDiffer(base, j, n + 1);
    }
  }

  ghost predicate OneBase(rows: seq<Row>, n: nat, company: nat, base: string)
    requires n <= |rows|
  {
    forall i :: 0 <= i < n && rows[i].company == company ==> RowBase(rows[i]) == base
  }

  lemma {:induction false} UsedAreFirst(rows: seq<Row>, slugs: seq<string>, n: nat, company: nat, base: string)
    requires Assigned(rows, slugs) && n <= |rows| && OneBase(rows, n, company, base)
    ensures UsedBefore(rows, slugs, n, company) == FirstCandidates(base, RowsOf(rows, n, company))
  {
    if n > 0 {
      UsedAreFirst(rows, slugs, n - 1, company, base);
      if rows[n - 1].company == company {
        assert RowAssigned(rows, slugs, n - 1);
        var m := RowsOf(rows, n - 1, company);
        FirstFreeAfter(base, slugs[n - 1], m);
        assert FirstCandidates(base, m + 1) == FirstCandidates(base, m) + {Candidate(base, m + 1)};
      }
    }
  }

  /** In a company whose names so far all gave one base, the first row gets the base, the second base-2, the third base-3,
      and so on, whatever rows of other companies come between. */
  lemma NthOfAName(rows: seq<Row>, slugs: seq<string>, i: nat, base: string)
    requires Assigned(rows, slugs) && i < |rows| && OneBase(rows, i + 1, rows[i].company, base)
    ensures var earlier := RowsOf(rows, i, rows[i].company);
      slugs[i] == if earlier == 0 then base else base + "-" + Decimal(earlier + 1)
  {
    UsedAreFirst(rows, slugs, i, rows[i].company, base);
    assert RowAssigned(rows, slugs, i);
    FirstFreeAfter(base, slugs[i], RowsOf(rows, i, rows[i].company));
  }

  lemma {:induction false} JoinSnoc(words: seq<string>, w: string)
    requires words != []
    ensures Join(words + [w]) == Join(words) + "-" + w
  {
    if |words| == 1 {
      assert (words + [w])[1..] == [w];
    } else {
      assert (words + [w])[1..] == words[1..] + [w];
      JoinSnoc(words[1..], w);
      assert words[0] + "-" + (Join(words[1..]) + "-" + w) == words[0] + "-" + Join(words[1..]) + "-" + w;
    }
  }

  lemma CandidateIsSlug(base: string, k: nat)
    requires IsSlug(base)
    ensures IsSlug(Candidate(base, k))
  {
    if k > 1 {
      var words :| words != [] && AreWords(words) && base == Join(words);
      DecimalNotEmpty(k);
      var all := words + [Decimal(k)];
      assert forall i :: 0 <= i < |Decimal(k)| ==> Decimal(k)[i] in Decimal(k);
      assert IsWord(Decimal(k));
      assert AreWords(all);
      JoinSnoc(words, Decimal(k));
    }
  }

  lemma WordIsSlug(w: string)
    requires IsWord(w)
    ensures IsSlug(w)
  {
    assert AreWords([w]) && Join([w]) == w;
  }

  /** Every slug given out is one. */
  lemma AssignedAreSlugs(rows: seq<Row>, slugs: seq<string>, i: nat)
    requires Assigned(rows, slugs) && i < |rows| && ValidRow(rows[i])
    ensures IsSlug(slugs[i])
  {
    var r := rows[i];
    WordIsSlug(r.shortId);
    SlugifyGivesSlugs(r.name, r.shortId, "");
    var used := UsedBefore(rows, slugs, i, r.company);
    assert RowAssigned(rows, slugs, i);
    var k: nat :| k >= 1 && FirstFreeAt(slugs[i], RowBase(r), used, k);
    CandidateIsSlug(RowBase(r), k);
  }

  /** No list of rows is ever given a slug from this set. */
  ghost predicate NeverGiven(kept: set<string>)
  {
    forall rows: seq<Row>, slugs: seq<string> ::
      (forall i :: 0 <= i < |rows| ==> ValidRow(rows[i])) && Assigned(rows, slugs) ==>
        forall i :: 0 <= i < |slugs| ==> slugs[i] !in kept
  }

  /** Rows whose three columns were filled before are not selected, and their slugs not marked as used. A later row can
      be given one of them exactly when one of them is a slug. */
  lemma UntouchedRowsCollideExactly(kept: set<string>)
    ensures NeverGiven(kept) <==> forall s :: s in kept ==> !IsSlug(s)
  {
    if forall s :: s in kept ==> !IsSlug(s) {
      forall rows: seq<Row>, slugs: seq<string> |
        (forall i :: 0 <= i < |rows| ==> ValidRow(rows[i])) && Assigned(rows, slugs)
        ensures forall i :: 0 <= i < |slugs| ==> slugs[i] !in kept
      {
        forall i | 0 <= i < |slugs| ensures slugs[i] !in kept {
          AssignedAreSlugs(rows, slugs, i);
        }
      }
    } else {
      var s :| s in kept && IsSlug(s);
      var r := Row(0, s, "00000000");
      FixedExactlySlugs(s);
      assert FirstFreeAt(s, RowBase(r), UsedBefore([r], [s], 0, 0), 1);
      assert RowAssigned([r], [s], 0);
      assert Assigned([r], [s]);
      assert forall i :: 0 <= i < |[r]| ==> ValidRow([r][i]);
      assert [s][0] in kept;
    }
  }

  /** used holds, company by company, the slugs given out so far. */
  ghost predicate Tracks(used: map<nat, set<string>>, rows: seq<Row>, slugs: seq<string>)
    requires |slugs| <= |rows|
  {
    forall c :: UsedBefore(rows, slugs, |slugs|, c) == if c in used then used[c] else {}
  }

  lemma RowStaysAssigned(rows: seq<Row>, slugs: seq<string>, slug: string, i: nat)
    requires i < |slugs| && RowAssigned(rows, slugs, i)
    ensures RowAssigned(rows, slugs + [slug], i)
  {
    UsedBeforeAgrees(rows, slugs + [slug], slugs, i, rows[i].company);
  }

  lemma OneMoreAssigned(rows: seq<Row>, slugs: seq<string>, slug: string)
    requires AssignedSoFar(rows, slugs) && RowAssigned(rows, slugs + [slug], |slugs|)
    ensures AssignedSoFar(rows, slugs + [slug])
  {
    forall i | 0 <= i < |slugs + [slug]| ensures RowAssigned(rows, slugs + [slug], i) {
      if i < |slugs| {
        RowStaysAssigned(rows, slugs, slug, i);
      }
    }
  }

  lemma NewRowAssigned(rows: seq<Row>, slugs: seq<string>, slug: string)
    requires |slugs| < |rows|
    requires var r := rows[|slugs|]; IsFirstFree(slug, RowBase(r), UsedBefore(rows, slugs, |slugs|, r.company))
    ensures RowAssigned(rows, slugs + [slug], |slugs|)
  {
    var n := |slugs|;
    UsedBeforeAgrees(rows, slugs + [slug], slugs, n, rows[n].company);
    assert (slugs + [slug])[n] == slug;
  }

  lemma OneMoreTracked(rows: seq<Row>, slugs: seq<string>, slug: string, used: map<nat, set<string>>)
    requires |slugs| < |rows| && Tracks(used, rows, slugs)
    ensures var c := rows[|slugs|].company;
      Tracks(used[c := (if c in used then used[c] else {}) + {slug}], rows, slugs + [slug])
  {
    var next, n := slugs + [slug], |slugs|;
    var c := rows[n].company;
    var used' := used[c := (if c in used then used[c] else {}) + {slug}];
    forall d ensures UsedBefore(rows, next, n + 1, d) == if d in used' then used'[d] else {} {
      UsedBeforeAgrees(rows, next, slugs, n, d);
      assert UsedBefore(rows, slugs, n, d) == if d in used then used[d] else {};
      assert next[n] == slug;
    }
  }

  class Backfill {
    var used: map<nat, set<string>>
    var slugs: seq<string>

    constructor ()
      ensures used == map[] && slugs == []
    {
      used, slugs := map[], [];
    }

    /** The outer loop of upgrade. */
    method FillAll(rows: seq<Row>)
      requires used == map[] && slugs == []
      modifies this
      ensures Assigned(rows, slugs)
    {
      NothingUsed(rows);
      for n := 0 to |rows|
        invariant |slugs| == n
        invariant AssignedSoFar(rows, slugs) && Tracks(used, rows, slugs)
      {
        var row := rows[n];
        var existing := if row.company in used then used[row.company] else {};
        var slug := Allocate(RowBase(row), existing);
        assert UsedBefore(rows, slugs, n, row.company) == existing;
        NewRowAssigned(rows, slugs, slug);
        OneMoreAssigned(rows, slugs, slug);
        OneMoreTracked(rows, slugs, slug, used);
        used := used[row.company := existing + {slug}];
        slugs := slugs + [slug];
      }
    }
  }

  lemma NothingUsed(rows: seq<Row>)
    ensures Tracks(map[], rows, [])
  {
  }
}

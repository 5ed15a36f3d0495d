/** The ranked answer from several knowledge bases, each searched for its own best k. */
module KnowledgeMerge {
  import opened Wrappers

  datatype Item = Item(chunk: nat, score: real)

  function Min(a: nat, b: nat): nat
  {
    if a <= b then a else b
  }

  predicate Descending(s: seq<Item>)
  {
    forall i, j :: 0 <= i < j < |s| ==> s[i].score >= s[j].score
  }

  /** r ranks k best items of all, or all of them if there are fewer. */
  ghost predicate IsTopK(all: multiset<Item>, k: nat, r: seq<Item>)
  {
    && |r| == Min(k, |all|)
    && Descending(r)
    && multiset(r) <= all
    && forall x, y :: x in all - multiset(r) && y in multiset(r) ==> y.score >= x.score
  }

  /** One knowledge base: what it holds, and the outcome of its search, None when the search raised. */
  datatype Base = Base(items: multiset<Item>, found: Option<seq<Item>>)

  /** A base whose search failed counts as empty. */
  function Holds(b: Base): multiset<Item>
  {
    if b.found.Some? then b.items else multiset{}
  }

  function Found(b: Base): seq<Item>
  {
    if b.found.Some? then b.found.value else []
  }

  /** Each search that answers gives the base's own top k. */
  ghost predicate Searched(bases: seq<Base>, k: nat)
  {
    forall i :: 0 <= i < |bases| ==> IsTopK(Holds(bases[i]), k, Found(bases[i]))
  }

  function Union(bases: seq<Base>): multiset<Item>
  {
    if bases == [] then multiset{} else Union(bases[..|bases| - 1]) + Holds(bases[|bases| - 1])
  }

  function Merged(bases: seq<Base>): seq<Item>
  {
    if bases == [] then [] else Merged(bases[..|bases| - 1]) + Found(bases[|bases| - 1])
  }

  // ── Stable descending sort ────────────────────────────────────────────────

  /** Puts x behind everything that scores at least as much. */
  function Insert(s: seq<Item>, x: Item): (r: seq<Item>)
    ensures multiset(r) == multiset(s) + multiset{x}
    ensures |r| == |s| + 1
  {
    if s == [] || s[0].score < x.score then [x] + s
    else
      assert s == [s[0]] + s[1..];
      [s[0]] + Insert(s[1..], x)
  }

  function SortDescending(s: seq<Item>): (r: seq<Item>)
    ensures multiset(r) == multiset(s)
    ensures |r| == |s|
  {
    if s == [] then []
    else
      assert s == s[..|s| - 1] + [s[|s| - 1]];
      Insert(SortDescending(s[..|s| - 1]), s[|s| - 1])
  }

  lemma {:induction false} InsertElements(s: seq<Item>, x: Item)
    ensures forall j :: 0 <= j < |Insert(s, x)| ==> Insert(s, x)[j] == x || Insert(s, x)[j] in s
  {
    if s != [] && s[0].score >= x.score {
      InsertElements(s[1..], x);
      assert Insert(s, x) == [s[0]] + Insert(s[1..], x);
    }
  }

  lemma {:induction false} InsertDescending(s: seq<Item>, x: Item)
    requires Descending(s)
    ensures Descending(Insert(s, x))
  {
    if s != [] && s[0].score >= x.score {
      var r := Insert(s[1..], x);
      InsertDescending(s[1..], x);
      InsertElements(s[1..], x);
      assert forall j :: 0 <= j < |r| ==> s[0].score >= r[j].score;
      PrependDescending(s[0], r);
    } else {
      PrependDescending(x, s);
    }
  }

  lemma PrependDescending(x: Item, s: seq<Item>)
    requires Descending(s) && forall j :: 0 <= j < |s| ==> x.score >= s[j].score
    ensures Descending([x] + s)
  {
  }

  lemma {:induction false} SortedDescending(s: seq<Item>)
    ensures Descending(SortDescending(s))
  {
    if s != [] {
      SortedDescending(s[..|s| - 1]);
      InsertDescending(SortDescending(s[..|s| - 1]), s[|s| - 1]);
    }
  }

  function WithScore(s: seq<Item>, score: real): seq<Item>
  {
    if s == [] then [] else (if s[0].score == score then [s[0]] else []) + WithScore(s[1..], score)
  }

  lemma {:induction false} WithScoreAppend(s: seq<Item>, t: seq<Item>, score: real)
    ensures WithScore(s + t, score) == WithScore(s, score) + WithScore(t, score)
  {
    if s == [] {
      assert s + t == t;
    } else {
      var first := if s[0].score == score then [s[0]] else [];
      assert (s + t)[1..] == s[1..] + t;
      WithScoreAppend(s[1..], t, score);
      assert first + (WithScore(s[1..], score) + WithScore(t, score)) == first + WithScore(s[1..], score) + WithScore(t, score);
    }
  }

  lemma {:induction false} NoneWithScore(s: seq<Item>, score: real)
    requires forall i :: 0 <= i < |s| ==> s[i].score < score
    ensures WithScore(s, score) == []
  {
    if s != [] {
      NoneWithScore(s[1..], score);
    }
  }

  lemma FrontStable(s: seq<Item>, x: Item, score: real)
    requires Descending(s) && (s == [] || s[0].score < x.score)
    ensures WithScore([x] + s, score) == WithScore(s, score) + WithScore([x], score)
  {
    WithScoreAppend([x], s, score);
    WithScoreOne(x, score);
    if x.score == score {
      NoneWithScore(s, score);
    }
  }

  lemma {:induction false} InsertStable(s: seq<Item>, x: Item, score: real)
    requires Descending(s)
    ensures WithScore(Insert(s, x), score) == WithScore(s, score) + WithScore([x], score)
  {
    if s == [] || s[0].score < x.score {
      FrontStable(s, x, score);
    } else {
      InsertStable(s[1..], x, score);
      WithScoreFirst(s[0], Insert(s[1..], x), score);
      WithScoreFirst(s[0], s[1..], score);
      assert [s[0]] + s[1..] == s;
      Regroup(WithScore([s[0]], score), WithScore(s[1..], score), WithScore([x], score));
    }
  }

  lemma Regroup(a: seq<Item>, b: seq<Item>, c: seq<Item>)
    ensures a + b + c == a + (b + c)
  {
  }

  lemma WithScoreOne(x: Item, score: real)
    ensures WithScore([x], score) == if x.score == score then [x] else []
  {
    assert [x][1..] == [];
  }

  lemma WithScoreFirst(x: Item, rest: seq<Item>, score: real)
    ensures WithScore([x] + rest, score) == WithScore([x], score) + WithScore(rest, score)
  {
  }

  /** Items of equal score stay in the order in which the attachments delivered them. */
  lemma {:induction false} TiesKeepTheirOrder(s: seq<Item>, score: real)
    ensures WithScore(SortDescending(s), score) == WithScore(s, score)
  {
    if s != [] {
      var front, x := s[..|s| - 1], s[|s| - 1];
      TiesKeepTheirOrder(front, score);
      SortedDescending(front);
      InsertStable(SortDescending(front), x, score);
      WithScoreAppend(front, [x], score);
      assert s == front + [x];
    }
  }

  /** What search_agent_knowledge answers. */
  function Answer(bases: seq<Base>, k: nat): seq<Item>
  {
    var s := SortDescending(Merged(bases));
    s[..Min(k, |s|)]
  }

  lemma HeadBeatsTail(s: seq<Item>, n: nat, x: Item, y: Item)
    requires Descending(s) && n <= |s| && x in s[n..] && y in s[..n]
    ensures y.score >= x.score
  {
  }

  lemma CutIsTopK(s: seq<Item>, k: nat)
    requires Descending(s)
    ensures IsTopK(multiset(s), k, s[..Min(k, |s|)])
  {
    var n := Min(k, |s|);
    assert s == s[..n] + s[n..];
    assert multiset(s) - multiset(s[..n]) == multiset(s[n..]);
    forall x, y | x in multiset(s[n..]) && y in multiset(s[..n]) ensures y.score >= x.score {
      HeadBeatsTail(s, n, x, y);
    }
  }

  // ── The merge ─────────────────────────────────────────────────────────────

  lemma {:induction false} MergedWithin(bases: seq<Base>, k: nat)
    requires Searched(bases, k)
    ensures multiset(Merged(bases)) <= Union(bases)
    ensures |Merged(bases)| <= |Union(bases)|
    ensures Min(k, |Merged(bases)|) == Min(k, |Union(bases)|)
  {
    if bases != [] {
      MergedWithin(bases[..|bases| - 1], k);
      assert IsTopK(Holds(bases[|bases| - 1]), k, Found(bases[|bases| - 1]));
    }
  }

  lemma {:induction false} FoundWithin(bases: seq<Base>, i: nat)
    requires i < |bases|
    ensures multiset(Found(bases[i])) <= multiset(Merged(bases))
  {
    if i < |bases| - 1 {
      FoundWithin(bases[..|bases| - 1], i);
    }
  }

  /** What the merge leaves out, some base left out. */
  lemma {:induction false} LeftOutBySome(bases: seq<Base>, k: nat, x: Item) returns (i: nat)
    requires Searched(bases, k) && x in Union(bases) - multiset(Merged(bases))
    ensures i < |bases| && x in Holds(bases[i]) - multiset(Found(bases[i]))
  {
    var last := |bases| - 1;
    MergedWithin(bases[..last], k);
    assert IsTopK(Holds(bases[last]), k, Found(bases[last]));
    if x in Holds(bases[last]) - multiset(Found(bases[last])) {
      i := last;
    } else {
      i := LeftOutBySome(bases[..last], k, x);
    }
  }

  lemma {:induction false} SubMultiset(a: multiset<Item>, b: multiset<Item>)
    requires a <= b
    ensures |a| <= |b|
  {
    assert b == a + (b - a);
  }

  lemma Smaller(a: multiset<Item>, b: multiset<Item>, x: Item)
    requires a <= b && x in b - a
    ensures |a| < |b|
  {
    assert b == a + (b - a);
  }

  lemma NotAllKept(found: multiset<Item>, r: multiset<Item>, y: Item) returns (z: Item)
    requires |r| <= |found| && y in r && y !in found
    ensures z in found && found[z] > r[z]
  {
    if found <= r - multiset{y} {
      SubMultiset(found, r - multiset{y});
      assert false;
    }
    z :| found[z] > (r - multiset{y})[z];
  }

  /** An item some base left out is beaten by everything in the answer. */
  lemma BeatenByTheAnswer(bases: seq<Base>, k: nat, r: seq<Item>, x: Item, y: Item)
    requires Searched(bases, k) && IsTopK(multiset(Merged(bases)), k, r)
    requires x in Union(bases) - multiset(Merged(bases)) && y in multiset(r)
    ensures y.score >= x.score
  {
    var i := LeftOutBySome(bases, k, x);
    FoundWithin(bases, i);
    Beaten(Holds(bases[i]), Found(bases[i]), multiset(Merged(bases)), k, r, x, y);
  }

  /** One base's share of the argument: its k results all beat x, and not all of them fit beside y. */
  lemma Beaten(all: multiset<Item>, found: seq<Item>, merged: multiset<Item>, k: nat, r: seq<Item>, x: Item, y: Item)
    requires IsTopK(all, k, found) && multiset(found) <= merged && IsTopK(merged, k, r)
    requires x in all - multiset(found) && y in multiset(r)
    ensures y.score >= x.score
  {
    var f, m := multiset(found), multiset(r);
    assert |f| == |found| && |m| == |r|;
    Smaller(f, all, x);
    if y !in f {
      var z := NotAllKept(f, m, y);
      assert z in merged - m;
      assert y.score >= z.score;
      assert z.score >= x.score;
    }
  }

  /** Merging the top k of every base and cutting to k ranks a top k of everything the bases hold. */
  lemma MergeIsTopK(bases: seq<Base>, k: nat)
    requires Searched(bases, k)
    ensures IsTopK(Union(bases), k, Answer(bases, k))
  {
    var m, r := Merged(bases), Answer(bases, k);
    SortedDescending(m);
    CutIsTopK(SortDescending(m), k);
    MergedWithin(bases, k);
    forall x: Item, y: Item | x in Union(bases) - multiset(r) && y in multiset(r) ensures y.score >= x.score {
      if x in Union(bases) - multiset(m) {
        BeatenByTheAnswer(bases, k, r, x, y);
      } else {
        assert x in multiset(m) - multiset(r);
      }
    }
  }

  // ── The scores of a top k are determined ──────────────────────────────────

  function Scores(s: seq<Item>): seq<real>
  {
    seq(|s|, i requires 0 <= i < |s| => s[i].score)
  }

  /** An item that occurs more often in a than in b. */
  lemma MoreOften(a: multiset<Item>, b: multiset<Item>) returns (z: Item)
    requires |a| > |b|
    ensures a[z] > b[z]
  {
    if a <= b {
      SubMultiset(a, b);
      assert false;
    }
    z :| a[z] > b[z];
  }

  /** If r[i] beat q[i], one of the first i + 1 items of r would be missing from q, though it beats q[i]. */
  lemma NoBetter(all: multiset<Item>, k: nat, r: seq<Item>, q: seq<Item>, i: nat)
    requires IsTopK(all, k, r) && IsTopK(all, k, q) && i < |r|
    ensures r[i].score <= q[i].score
  {
    if r[i].score > q[i].score {
      var z := MoreOften(multiset(r[..i + 1]), multiset(q[..i]));
      HeadBeats(r, i, z);
      TailIsBeaten(q, i, z);
      FrontCounts(r, i + 1, z);
      FrontCounts(q, i, z);
      MustBeat(all, k, q, z, q[i]);
    }
  }

  lemma MustBeat(all: multiset<Item>, k: nat, q: seq<Item>, z: Item, y: Item)
    requires IsTopK(all, k, q) && all[z] > multiset(q)[z] && y in q
    ensures y.score >= z.score
  {
    assert z in all - multiset(q) && y in multiset(q);
  }

  lemma FrontCounts(s: seq<Item>, n: nat, z: Item)
    requires n <= |s|
    ensures multiset(s)[z] == multiset(s[..n])[z] + multiset(s[n..])[z]
  {
    assert s == s[..n] + s[n..];
  }

  lemma HeadBeats(r: seq<Item>, i: nat, z: Item)
    requires Descending(r) && i < |r| && z in multiset(r[..i + 1])
    ensures z.score >= r[i].score
  {
  }

  lemma TailIsBeaten(q: seq<Item>, i: nat, z: Item)
    requires Descending(q) && i < |q| && z.score > q[i].score
    ensures z !in multiset(q[i..])
  {
  }

  /** Any two rankings of the k best have the same scores, place by place. */
  lemma SameScores(all: multiset<Item>, k: nat, r: seq<Item>, q: seq<Item>)
    requires IsTopK(all, k, r) && IsTopK(all, k, q)
    ensures Scores(r) == Scores(q)
  {
    forall i | 0 <= i < |r| ensures r[i].score == q[i].score {
      NoBetter(all, k, r, q, i);
      NoBetter(all, k, q, r, i);
    }
  }

  /** The merged answer scores, place by place, what one search over all attached bases would score. */
  lemma MergeScoresLikeOneSearch(bases: seq<Base>, k: nat, whole: seq<Item>)
    requires Searched(bases, k) && IsTopK(Union(bases), k, whole)
    ensures Scores(Answer(bases, k)) == Scores(whole)
  {
    MergeIsTopK(bases, k);
    SameScores(Union(bases), k, Answer(bases, k), whole);
  }

  // ── The order of ties ─────────────────────────────────────────────────────

  /** Attachment by attachment, what each delivered with this score. */
  function TieOrder(bases: seq<Base>, score: real): seq<Item>
  {
    if bases == [] then [] else WithScore(Found(bases[0]), score) + TieOrder(bases[1..], score)
  }

  lemma {:induction false} TieOrderLast(bases: seq<Base>, b: Base, score: real)
    ensures TieOrder(bases + [b], score) == TieOrder(bases, score) + WithScore(Found(b), score)
  {
    if bases == [] {
      assert [b][1..] == [] && bases + [b] == [b];
    } else {
      assert (bases + [b])[1..] == bases[1..] + [b];
      TieOrderLast(bases[1..], b, score);
      Regroup(WithScore(Found(bases[0]), score), TieOrder(bases[1..], score), WithScore(Found(b), score));
    }
  }

  lemma MergedLast(bases: seq<Base>, b: Base)
    ensures Merged(bases + [b]) == Merged(bases) + Found(b)
  {
    assert (bases + [b])[..|bases|] == bases;
  }

  lemma OneMoreTied(bases: seq<Base>, b: Base, score: real)
    requires WithScore(Merged(bases), score) == TieOrder(bases, score)
    ensures WithScore(Merged(bases + [b]), score) == TieOrder(bases + [b], score)
  {
    MergedLast(bases, b);
    WithScoreAppend(Merged(bases), Found(b), score);
    TieOrderLast(bases, b, score);
  }

  lemma {:induction false} MergedTies(bases: seq<Base>, score: real)
    ensures WithScore(Merged(bases), score) == TieOrder(bases, score)
  {
    if bases != [] {
      var front, b := bases[..|bases| - 1], bases[|bases| - 1];
      MergedTies(front, score);
      OneMoreTied(front, b, score);
      assert front + [b] == bases;
    }
  }

  lemma CutTies(s: seq<Item>, n: nat, score: real)
    requires Descending(s) && n <= |s|
    ensures WithScore(s[..n], score) <= WithScore(s, score)
    ensures n == |s| || (n > 0 && s[n - 1].score < score) ==> WithScore(s[..n], score) == WithScore(s, score)
  {
    assert s == s[..n] + s[n..];
    WithScoreAppend(s[..n], s[n..], score);
    if n == |s| || (n > 0 && s[n - 1].score < score) {
      assert forall i :: 0 <= i < |s[n..]| ==> s[n..][i] == s[n + i];
      NoneWithScore(s[n..], score);
    }
  }

  /** Items of one score are answered in the order of the attachments, and within one attachment in the order of its own
      search; only of the lowest score answered some may be cut, the last ones. */
  lemma TiesFollowTheAttachments(bases: seq<Base>, k: nat, score: real)
    ensures var r := Answer(bases, k);
      && WithScore(r, score) <= TieOrder(bases, score)
      && (|r| < k || (r != [] && r[|r| - 1].score < score) ==> WithScore(r, score) == TieOrder(bases, score))
  {
    var s := SortDescending(Merged(bases));
    SortedDescending(Merged(bases));
    CutTies(s, Min(k, |s|), score);
    TiesKeepTheirOrder(Merged(bases), score);
    MergedTies(bases, score);
  }

  // ── search_agent_knowledge ────────────────────────────────────────────────

  method SearchAgentKnowledge(bases: seq<Base>, k: nat) returns (r: seq<Item>)
    requires Searched(bases, k)
    ensures r == Answer(bases, k)
    ensures IsTopK(Union(bases), k, r)
  {
    MergeIsTopK(bases, k);
    if bases == [] {
      return [];
    }
    var merged := Collect(bases);
    merged := SortDescending(merged);
    return merged[..Min(k, |merged|)];
  }

  method Collect(bases: seq<Base>) returns (merged: seq<Item>)
    ensures merged == Merged(bases)
  {
    merged := [];
    for i := 0 to |bases|
      invariant merged == Merged(bases[..i])
    {
      assert bases[..i + 1][..i] == bases[..i];
      if bases[i].found.Some? {
        merged := merged + bases[i].found.value;
      }
    }
    assert bases[..|bases|] == bases;
  }
}

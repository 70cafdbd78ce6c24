/**
 * The selection and ordering logic of `SimilaritySearch` (similarity_search.py),
 * stated over a list of agents and the list of their scores.
 */
module Ranking {
  import opened Values

  /** The starting `best_score` of `find_similar_agent`: a score must exceed it to be picked. */
  const ScoreFloor: real := 0.09

  /** Position `k` holds the largest score and no earlier position reaches it. */
  predicate FirstBest(s: seq<real>, k: int)
  {
    && 0 <= k < |s|
    && (forall i :: 0 <= i < |s| ==> s[i] <= s[k])
    && (forall i :: 0 <= i < k ==> s[i] < s[k])
  }

  /** There is only one earliest maximum. */
  lemma FirstBestUnique(s: seq<real>, k: int, k': int)
    requires FirstBest(s, k) && FirstBest(s, k')
    ensures k == k'
  {
    assert s[k] == s[k'];
  }

  /** The loop state of `find_similar_agent`: `best_score` and the position of `best_agent`. */
  datatype Best = Best(score: real, index: Option<nat>)

  /**
   * The `(best_score, best_agent)` pair after the loop has seen the scores `s`.
   * No agent is held exactly when no score exceeds the floor; otherwise the one
   * held is the first with the largest score, and `best_score` is its score.
   */
  function Scan(s: seq<real>): (b: Best)
    ensures b.index.None? ==> b.score == ScoreFloor && forall i :: 0 <= i < |s| ==> s[i] <= ScoreFloor
    ensures b.index.Some? ==> FirstBest(s, b.index.value) && b.score == s[b.index.value] && ScoreFloor < b.score
  {
    if s == [] then Best(ScoreFloor, None)
    else
      var init := s[..|s| - 1];
      var prev := Scan(init);
      assert forall i :: 0 <= i < |init| ==> init[i] == s[i];
      if s[|s| - 1] > prev.score then Best(s[|s| - 1], Some(|s| - 1)) else prev
  }

  /** One step of the loop: the next score replaces the best only when it is strictly higher. */
  lemma ScanSnoc(s: seq<real>, x: real)
    ensures Scan(s + [x]) == if x > Scan(s).score then Best(x, Some(|s|)) else Scan(s)
  {
    assert (s + [x])[..|s|] == s;
  }

  /**
   * The end of `find_similar_agent` on agents with scores `s`.  It returns an agent
   * exactly when the first best-scoring agent scores above the floor, reaches the
   * threshold and is a non-empty dict; a best agent that fails either test is not
   * replaced by the runner-up.
   */
  function Pick(agents: seq<Dict>, s: seq<real>, threshold: real): (r: Option<Dict>)
    requires |s| == |agents|
    ensures r.Some? <==> exists k :: FirstBest(s, k) && ScoreFloor < s[k] && threshold <= s[k] && agents[k] != map[]
    ensures r.Some? ==> exists k :: FirstBest(s, k) && ScoreFloor < s[k] && threshold <= s[k] && r.value == agents[k]
    ensures r.Some? ==> r.value in agents && r.value != map[]
    ensures agents == [] ==> r == None
  {
    if agents == [] then None
    else
      var best := Scan(s);
      if best.score >= threshold && best.index.Some? && agents[best.index.value] != map[] then
        Some(agents[best.index.value])
      else
        None
  }

  /** The entries `get_similarity_scores` builds for each agent. */
  datatype ScoredAgent = ScoredAgent(agent: Dict, similarityScore: real, meetsThreshold: bool)

  /** The unsorted `results` list of `get_similarity_scores`. */
  function Rank(agents: seq<Dict>, s: seq<real>, threshold: real): (r: seq<ScoredAgent>)
    requires |s| == |agents|
    ensures |r| == |agents|
  {
    if agents == [] then []
    else
      var n := |agents| - 1;
      Rank(agents[..n], s[..n], threshold) + [ScoredAgent(agents[n], s[n], s[n] >= threshold)]
  }

  /** Entry `j` of the list pairs agent `j` with score `j` and its threshold test. */
  lemma {:induction false} RankAt(agents: seq<Dict>, s: seq<real>, threshold: real, j: nat)
    requires |s| == |agents| && j < |agents|
    ensures Rank(agents, s, threshold)[j] == ScoredAgent(agents[j], s[j], s[j] >= threshold)
  {
    var n := |agents| - 1;
    if j < n {
      RankAt(agents[..n], s[..n], threshold, j);
    }
  }

  /** Ranking one more agent of the list appends its entry. */
  lemma RankSnoc(agents: seq<Dict>, s: seq<real>, threshold: real, i: nat, x: real)
    requires |s| == i < |agents|
    ensures Rank(agents[..i + 1], s + [x], threshold)
         == Rank(agents[..i], s, threshold) + [ScoredAgent(agents[i], x, x >= threshold)]
  {
    assert agents[..i + 1][..i] == agents[..i];
    assert (s + [x])[..i] == s;
  }

  /** Scores never increase along the list. */
  predicate Descending(s: seq<ScoredAgent>)
  {
    forall i, j :: 0 <= i < j < |s| ==> s[i].similarityScore >= s[j].similarityScore
  }

  /** The entries of `s` whose score is `v`, in their order in `s`. */
  function WithScore(s: seq<ScoredAgent>, v: real): seq<ScoredAgent>
  {
    if s == [] then []
    else (if s[0].similarityScore == v then [s[0]] else []) + WithScore(s[1..], v)
  }

  /** The class of `v` holds exactly the entries of `s` that score `v`. */
  lemma {:induction false} WithScoreMembers(s: seq<ScoredAgent>, v: real, x: ScoredAgent)
    ensures x in WithScore(s, v) <==> x in s && x.similarityScore == v
  {
    if s != [] {
      WithScoreMembers(s[1..], v, x);
      assert x in s <==> x == s[0] || x in s[1..];
    }
  }

  /** Putting an entry that scores at least as high as all of `s` in front keeps `s` descending. */
  lemma DescendingCons(x: ScoredAgent, s: seq<ScoredAgent>)
    requires Descending(s)
    requires forall i :: 0 <= i < |s| ==> s[i].similarityScore <= x.similarityScore
    ensures Descending([x] + s)
  {
    var r := [x] + s;
    forall i, j | 0 <= i < j < |r| ensures r[i].similarityScore >= r[j].similarityScore {
      assert r[j] == s[j - 1];
      if i > 0 {
        assert r[i] == s[i - 1];
      }
    }
  }

  /**
   * Puts `x` in front of the first entry that does not score higher, so `x`
   * precedes every entry of `t` with its own score.
   */
  function Insert(x: ScoredAgent, t: seq<ScoredAgent>): (r: seq<ScoredAgent>)
    ensures multiset(r) == multiset(t) + multiset{x}
    ensures Descending(t) ==> Descending(r)
  {
    if t == [] || t[0].similarityScore <= x.similarityScore then
      InsertFront(x, t);
      [x] + t
    else
      var rest := Insert(x, t[1..]);
      InsertBehind(x, t, rest);
      [t[0]] + rest
  }

  /** The first case of `Insert`: `x` goes in front. */
  lemma InsertFront(x: ScoredAgent, t: seq<ScoredAgent>)
    requires t == [] || t[0].similarityScore <= x.similarityScore
    ensures Descending(t) ==> Descending([x] + t)
  {
    if Descending(t) {
      DescendingCons(x, t);
    }
  }

  /** The second case of `Insert`: `x` goes somewhere behind the head of `t`. */
  lemma InsertBehind(x: ScoredAgent, t: seq<ScoredAgent>, rest: seq<ScoredAgent>)
    requires t != [] && x.similarityScore < t[0].similarityScore
    requires multiset(rest) == multiset(t[1..]) + multiset{x}
    requires Descending(t[1..]) ==> Descending(rest)
    ensures multiset([t[0]] + rest) == multiset(t) + multiset{x}
    ensures Descending(t) ==> Descending([t[0]] + rest)
  {
    assert t == [t[0]] + t[1..];
    if Descending(t) {
      DescendingTail(t);
      forall i | 0 <= i < |rest| ensures rest[i].similarityScore <= t[0].similarityScore {
        assert rest[i] in multiset(t[1..]) + multiset{x};
        if rest[i] != x {
          assert rest[i] in t[1..];
        }
      }
      DescendingCons(t[0], rest);
    }
  }

  /**
   * `results.sort(key=lambda x: x["similarity_score"], reverse=True)`: Python's
   * stable sort in descending order of score.
   */
  function SortByScore(s: seq<ScoredAgent>): (r: seq<ScoredAgent>)
    ensures multiset(r) == multiset(s)
    ensures Descending(r)
  {
    if s == [] then []
    else
      assert s == [s[0]] + s[1..];
      Insert(s[0], SortByScore(s[1..]))
  }

  /** Consing an entry puts it in front of its own score class. */
  lemma WithScoreCons(x: ScoredAgent, s: seq<ScoredAgent>, v: real)
    ensures WithScore([x] + s, v) == (if x.similarityScore == v then [x] else []) + WithScore(s, v)
  {
    assert ([x] + s)[1..] == s;
  }

  /** Inserting `x` adds it to the front of its own score class and leaves the others alone. */
  lemma {:induction false} InsertWithScore(x: ScoredAgent, t: seq<ScoredAgent>, v: real)
    ensures WithScore(Insert(x, t), v) == (if x.similarityScore == v then [x] else []) + WithScore(t, v)
  {
    if t == [] || t[0].similarityScore <= x.similarityScore {
      WithScoreCons(x, t, v);
    } else {
      var rest := Insert(x, t[1..]);
      InsertWithScore(x, t[1..], v);
      WithScoreCons(t[0], rest, v);
      assert t == [t[0]] + t[1..];
      WithScoreCons(t[0], t[1..], v);
      var own := if x.similarityScore == v then [x] else [];
      var head := if t[0].similarityScore == v then [t[0]] else [];
      assert head == [] || own == [];
      assert head + (own + WithScore(t[1..], v)) == own + (head + WithScore(t[1..], v));
    }
  }

  /** The sort is stable: entries with the same score keep their relative order. */
  lemma {:induction false} SortStable(s: seq<ScoredAgent>, v: real)
    ensures WithScore(SortByScore(s), v) == WithScore(s, v)
  {
    if s != [] {
      SortStable(s[1..], v);
      InsertWithScore(s[0], SortByScore(s[1..]), v);
    }
  }

  /** Dropping the head keeps a list descending. */
  lemma DescendingTail(a: seq<ScoredAgent>)
    requires Descending(a) && a != []
    ensures Descending(a[1..])
  {
    assert forall i :: 0 <= i < |a| - 1 ==> a[1..][i] == a[i + 1];
  }

  /** Two non-empty descending lists with the same score classes start alike. */
  lemma SameHead(a: seq<ScoredAgent>, b: seq<ScoredAgent>)
    requires Descending(a) && Descending(b) && a != [] && b != []
    requires forall v :: WithScore(a, v) == WithScore(b, v)
    ensures a[0] == b[0]
  {
    var va, vb := a[0].similarityScore, b[0].similarityScore;
    WithScoreMembers(b, vb, b[0]);
    WithScoreMembers(a, vb, b[0]);
    var i :| 0 <= i < |a| && a[i] == b[0];
    WithScoreMembers(a, va, a[0]);
    WithScoreMembers(b, va, a[0]);
    var j :| 0 <= j < |b| && b[j] == a[0];
    assert va == vb;
    assert WithScore(a, va) == WithScore(b, va);
    assert WithScore(a, va) == [a[0]] + WithScore(a[1..], va);
    assert WithScore(b, va) == [b[0]] + WithScore(b[1..], va);
  }

  /** Lists with the same head and the same score classes have tails with the same classes. */
  lemma SameTailClasses(a: seq<ScoredAgent>, b: seq<ScoredAgent>, v: real)
    requires a != [] && b != [] && a[0] == b[0] && WithScore(a, v) == WithScore(b, v)
    ensures WithScore(a[1..], v) == WithScore(b[1..], v)
  {
    var head := if a[0].similarityScore == v then [a[0]] else [];
    assert WithScore(a, v) == head + WithScore(a[1..], v);
    assert WithScore(b, v) == head + WithScore(b[1..], v);
    assert WithScore(a[1..], v) == WithScore(a, v)[|head|..];
    assert WithScore(b[1..], v) == WithScore(b, v)[|head|..];
  }

  /**
   * A descending list is determined by its score classes: two descending lists
   * whose entries of every score agree in order are equal.  So `SortByScore` is
   * the only descending, stable rearrangement, whatever algorithm computes it.
   */
  lemma {:induction false} DescendingUnique(a: seq<ScoredAgent>, b: seq<ScoredAgent>)
    requires Descending(a) && Descending(b)
    requires forall v :: WithScore(a, v) == WithScore(b, v)
    ensures a == b
  {
    if a == [] {
      if b != [] {
        WithScoreMembers(b, b[0].similarityScore, b[0]);
      }
    } else if b == [] {
      WithScoreMembers(a, a[0].similarityScore, a[0]);
    } else {
      SameHead(a, b);
      forall v ensures WithScore(a[1..], v) == WithScore(b[1..], v) {
        SameTailClasses(a, b, v);
      }
      DescendingTail(a);
      DescendingTail(b);
      DescendingUnique(a[1..], b[1..]);
      assert a == [a[0]] + a[1..] && b == [b[0]] + b[1..];
    }
  }

  /** Any descending, stable rearrangement of `s` is `SortByScore(s)`. */
  lemma StableSortIsUnique(s: seq<ScoredAgent>, r: seq<ScoredAgent>)
    requires Descending(r) && forall v :: WithScore(r, v) == WithScore(s, v)
    ensures r == SortByScore(s)
  {
    forall v ensures WithScore(r, v) == WithScore(SortByScore(s), v) {
      SortStable(s, v);
    }
    DescendingUnique(r, SortByScore(s));
  }

  /** When the first `k` entries have other scores, the class of `v` starts at `k`. */
  lemma {:induction false} WithScoreFrom(s: seq<ScoredAgent>, k: nat, v: real)
    requires k < |s| && s[k].similarityScore == v
    requires forall i :: 0 <= i < k ==> s[i].similarityScore != v
    ensures WithScore(s, v) != [] && WithScore(s, v)[0] == s[k]
  {
    if k > 0 {
      WithScoreFrom(s[1..], k - 1, v);
    }
  }

  /** A sorted list starts with a top-scoring entry of the original list. */
  lemma SortedHead(s: seq<ScoredAgent>, k: nat)
    requires k < |s| && forall i :: 0 <= i < |s| ==> s[i].similarityScore <= s[k].similarityScore
    ensures SortByScore(s) != [] && SortByScore(s)[0].similarityScore == s[k].similarityScore
  {
    var r := SortByScore(s);
    assert s[k] in multiset(r);
    var j :| 0 <= j < |r| && r[j] == s[k];
    assert r[0] in multiset(s);
    var i :| 0 <= i < |s| && s[i] == r[0];
  }

  /**
   * The agent `find_similar_agent` returns heads the ranking of
   * `get_similarity_scores`, marked as meeting the threshold.
   */
  lemma PickedAgentRanksFirst(agents: seq<Dict>, s: seq<real>, threshold: real)
    requires |s| == |agents| && Pick(agents, s, threshold).Some?
    ensures var ranking := SortByScore(Rank(agents, s, threshold));
      ranking != [] && ranking[0].agent == Pick(agents, s, threshold).value && ranking[0].meetsThreshold
  {
    var k :| FirstBest(s, k) && ScoreFloor < s[k] && threshold <= s[k] && agents[k] != map[];
    var l :| FirstBest(s, l) && Pick(agents, s, threshold).value == agents[l];
    assert l == k;
    var ranked := Rank(agents, s, threshold);
    var v := s[k];
    forall i | 0 <= i < |ranked| ensures ranked[i].similarityScore == s[i] {
      RankAt(agents, s, threshold, i);
    }
    RankAt(agents, s, threshold, k);
    SortedHead(ranked, k);
    var r := SortByScore(ranked);
    WithScoreFrom(r, 0, v);
    WithScoreFrom(ranked, k, v);
    SortStable(ranked, v);
  }
}

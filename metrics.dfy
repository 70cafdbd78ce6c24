/**
 * The three lexical similarity metrics and their weighted combination
 * (similarity_search.py, `_jaccard_similarity`, `_keyword_overlap_similarity`,
 * `_cosine_similarity_simple`, `_calculate_similarity`).  Scores are exact reals;
 * the square root used by the Euclidean norm is supplied by the caller.
 */
module Metrics {
  import opened Values
  import opened Normalization
  import opened Text

  // ---------------------------------------------------------------- sets

  lemma {:induction false} SubsetCard<T>(a: set<T>, b: set<T>)
    requires a <= b
    ensures |a| <= |b|
    decreases |a|
  {
    if a != {} {
      var e :| e in a;
      SubsetCard(a - {e}, b - {e});
    }
  }

  lemma SubsetSameCard<T>(a: set<T>, b: set<T>)
    requires a <= b && |a| == |b|
    ensures a == b
  {
    if a != b {
      assert !(b <= a);
      var e :| e in b && e !in a;
      SubsetCard(a, b - {e});
    }
  }

  /** p / q for 0 <= p <= q, with its two extreme values. */
  lemma RatioFacts(p: nat, q: nat)
    requires 0 < q && p <= q
    ensures 0.0 <= p as real / q as real <= 1.0
    ensures p as real / q as real == 1.0 <==> p == q
    ensures p as real / q as real == 0.0 <==> p == 0
  {
    var r := p as real / q as real;
    assert r * q as real == p as real;
  }

  // ---------------------------------------------------------------- Jaccard

  /** The token set of a text: `set(_normalize_text(text).split())`. */
  function TokenSet(text: string): set<string>
  {
    set w | w in Tokens(text)
  }

  /**
   * Jaccard similarity of two token sets: 1 when both are empty, 0 when exactly
   * one is, otherwise |a * b| / |a + b|.  It is 1 exactly for equal sets and 0
   * exactly for disjoint sets that are not both empty.
   */
  function JaccardOfSets(a: set<string>, b: set<string>): (r: real)
    ensures 0.0 <= r <= 1.0
    ensures r == 1.0 <==> a == b
    ensures r == 0.0 <==> a * b == {} && a + b != {}
  {
    if |a| == 0 && |b| == 0 then 1.0
    else if |a| == 0 || |b| == 0 then 0.0
    else
      var intersection := |a * b|;
      var union := |a + b|;
      SubsetCard(a * b, a + b);
      SubsetCard(a, a + b);
      RatioFacts(intersection, union);
      assert intersection == union ==> a == b by {
        if intersection == union { SubsetSameCard(a * b, a + b); }
      }
      assert a == b ==> a * b == a + b;
      if union > 0 then intersection as real / union as real else 0.0
  }

  /**
   * `_jaccard_similarity(text1, text2)`: 1 exactly when the two texts have the same
   * token set, 0 exactly when they share no token and are not both empty of tokens.
   */
  function Jaccard(text1: string, text2: string): (r: real)
    ensures 0.0 <= r <= 1.0
    ensures r == 1.0 <==> TokenSet(text1) == TokenSet(text2)
    ensures r == 0.0 <==> TokenSet(text1) * TokenSet(text2) == {} && TokenSet(text1) + TokenSet(text2) != {}
  {
    JaccardOfSets(TokenSet(text1), TokenSet(text2))
  }

  /** Jaccard similarity does not depend on the order of its arguments. */
  lemma JaccardSymmetric(a: set<string>, b: set<string>)
    ensures JaccardOfSets(a, b) == JaccardOfSets(b, a)
  {
    assert a * b == b * a && a + b == b + a;
  }

  // ---------------------------------------------------------------- keyword overlap

  /** The keywords of a text: its tokens longer than three characters. */
  function KeywordSet(text: string): set<string>
  {
    set w | w in Tokens(text) && |w| > 3
  }

  /**
   * Keyword overlap of two keyword sets: the same empty-set cases as Jaccard,
   * otherwise |a * b| / max(|a|, |b|).  It is 1 exactly for equal sets.
   */
  function OverlapOfSets(a: set<string>, b: set<string>): (r: real)
    ensures 0.0 <= r <= 1.0
    ensures r == 1.0 <==> a == b
    ensures r == 0.0 <==> a * b == {} && a + b != {}
  {
    if |a| == 0 && |b| == 0 then 1.0
    else if |a| == 0 || |b| == 0 then 0.0
    else
      var overlap := |a * b|;
      var maxPossible := if |a| >= |b| then |a| else |b|;
      SubsetCard(a * b, a);
      SubsetCard(a * b, b);
      RatioFacts(overlap, maxPossible);
      assert overlap == maxPossible ==> a == b by {
        if overlap == maxPossible {
          SubsetSameCard(a * b, a);
          SubsetSameCard(a * b, b);
        }
      }
      assert a == b ==> a * b == a;
      if maxPossible > 0 then overlap as real / maxPossible as real else 0.0
  }

  /**
   * `_keyword_overlap_similarity(text1, text2)`: 1 exactly when the two texts have
   * the same keywords, 0 exactly when they share none and are not both without.
   */
  function KeywordOverlap(text1: string, text2: string): (r: real)
    ensures 0.0 <= r <= 1.0
    ensures r == 1.0 <==> KeywordSet(text1) == KeywordSet(text2)
    ensures r == 0.0 <==> KeywordSet(text1) * KeywordSet(text2) == {} && KeywordSet(text1) + KeywordSet(text2) != {}
  {
    OverlapOfSets(KeywordSet(text1), KeywordSet(text2))
  }

  /** Only tokens longer than three characters take part in the keyword overlap. */
  lemma KeywordsAreLongTokens(text: string, w: string)
    ensures w in KeywordSet(text) <==> w in TokenSet(text) && |w| > 3
  {
  }

  /** Keyword overlap does not depend on the order of its arguments. */
  lemma OverlapSymmetric(a: set<string>, b: set<string>)
    ensures OverlapOfSets(a, b) == OverlapOfSets(b, a)
  {
    assert a * b == b * a;
  }

  // ---------------------------------------------------------------- cosine

  /**
   * `sqrt` is the principal square root on the non-negative reals: its result is
   * non-negative, squares back to its argument, and is 0 only at 0.
   */
  ghost predicate IsSqrt(sqrt: real -> real)
  {
    forall x: real :: 0.0 <= x ==>
      0.0 <= sqrt(x) && sqrt(x) * sqrt(x) == x && (sqrt(x) == 0.0 <==> x == 0.0)
  }

  /** `list(set(words))`: the distinct words (listed in order of first occurrence). */
  function Vocabulary(words: seq<string>): (vocab: seq<string>)
    ensures forall w :: w in vocab <==> w in words
    ensures forall i, j :: 0 <= i < j < |vocab| ==> vocab[i] != vocab[j]
  {
    if words == [] then []
    else
      var prefix := Vocabulary(words[..|words| - 1]);
      var w := words[|words| - 1];
      assert words == words[..|words| - 1] + [w];
      if w in prefix then prefix else prefix + [w]
  }

  /** The term-frequency vector `[words.count(w) for w in vocab]`. */
  function Frequencies(words: seq<string>, vocab: seq<string>): (v: seq<nat>)
    ensures |v| == |vocab|
  {
    seq(|vocab|, i requires 0 <= i < |vocab| => multiset(words)[vocab[i]])
  }

  /** `np.dot(u, v)`. */
  function Dot(u: seq<int>, v: seq<int>): int
    requires |u| == |v|
  {
    if u == [] then 0 else u[0] * v[0] + Dot(u[1..], v[1..])
  }

  lemma {:induction false} DotOfNaturals(u: seq<nat>, v: seq<nat>)
    requires |u| == |v|
    ensures Dot(u, v) >= 0
    ensures Dot(u, v) == 0 <==> forall i :: 0 <= i < |u| ==> u[i] == 0 || v[i] == 0
  {
    if u != [] {
      DotOfNaturals(u[1..], v[1..]);
      assert u[0] * v[0] >= 0;
      assert u[0] * v[0] == 0 <==> u[0] == 0 || v[0] == 0;
      assert forall i :: 1 <= i < |u| ==> u[i] == u[1..][i - 1] && v[i] == v[1..][i - 1];
    }
  }

  lemma SquareNonNegative(u: seq<int>)
    ensures Dot(u, u) >= 0
  {
    if u != [] {
      SquareNonNegative(u[1..]);
      assert u[0] * u[0] >= 0;
    }
  }

  lemma MulMono(k: int, x: int, y: int)
    requires 0 <= k && x <= y
    ensures k * x <= k * y
  {
  }

  /** A non-negative s bounds t from above when t^2 <= s^2. */
  lemma SquareBound(s: int, t: int)
    requires 0 <= s && t * t <= s * s
    ensures t <= s
  {
    if t > s {
      MulMono(t, s, t);
      MulMono(s, s, t);
    }
  }

  /** The inductive step of Cauchy–Schwarz: adding one coordinate (a, b). */
  lemma CauchySchwarzStep(a: int, b: int, A: int, B: int, D: int)
    requires 0 <= A && 0 <= B && D * D <= A * B
    ensures (a * b + D) * (a * b + D) <= (a * a + A) * (b * b + B)
  {
    var x := a * b;
    var p := a * a * B;
    var q := b * b * A;
    assert 0 <= a * a && 0 <= b * b;
    assert 0 <= p by { MulMono(a * a, 0, B); }
    assert 0 <= q by { MulMono(b * b, 0, A); }
    assert (p - q) * (p - q) >= 0;
    assert (p + q) * (p + q) == (p - q) * (p - q) + 4 * (p * q);
    assert p * q == (x * x) * (A * B);
    assert (x * x) * (D * D) <= (x * x) * (A * B) by { MulMono(x * x, D * D, A * B); }
    assert (2 * x * D) * (2 * x * D) == 4 * ((x * x) * (D * D));
    assert (2 * x * D) * (2 * x * D) <= (p + q) * (p + q);
    SquareBound(p + q, 2 * x * D);
    assert (x + D) * (x + D) == x * x + 2 * x * D + D * D;
    assert (a * a + A) * (b * b + B) == x * x + p + q + A * B;
  }

  /** Cauchy–Schwarz: dot(u, v)^2 <= |u|^2 |v|^2. */
  lemma {:induction false} CauchySchwarz(u: seq<int>, v: seq<int>)
    requires |u| == |v|
    ensures Dot(u, v) * Dot(u, v) <= Dot(u, u) * Dot(v, v)
  {
    if u != [] {
      CauchySchwarz(u[1..], v[1..]);
      SquareNonNegative(u[1..]);
      SquareNonNegative(v[1..]);
      CauchySchwarzStep(u[0], v[0], Dot(u[1..], u[1..]), Dot(v[1..], v[1..]), Dot(u[1..], v[1..]));
    }
  }

  /** Frequencies are positive exactly on the words of the list. */
  lemma FrequencyPositive(words: seq<string>, vocab: seq<string>, i: nat)
    requires i < |vocab|
    ensures Frequencies(words, vocab)[i] > 0 <==> vocab[i] in words
  {
    assert vocab[i] in words <==> vocab[i] in multiset(words);
  }

  /** A word list has a zero frequency vector over a vocabulary containing it exactly when it is empty. */
  lemma ZeroNormIffEmpty(words: seq<string>, vocab: seq<string>)
    requires forall w :: w in words ==> w in vocab
    ensures Dot(Frequencies(words, vocab), Frequencies(words, vocab)) == 0 <==> words == []
  {
    var v := Frequencies(words, vocab);
    DotOfNaturals(v, v);
    if words != [] {
      assert words[0] in vocab;
      var j :| 0 <= j < |vocab| && vocab[j] == words[0];
      FrequencyPositive(words, vocab, j);
    } else {
      forall i | 0 <= i < |v| ensures v[i] == 0 { FrequencyPositive(words, vocab, i); }
    }
  }

  /** The frequency vectors share a non-zero coordinate exactly when the lists share a word. */
  lemma ZeroDotIffDisjoint(words1: seq<string>, words2: seq<string>, vocab: seq<string>)
    requires forall w :: w in words1 ==> w in vocab
    ensures Dot(Frequencies(words1, vocab), Frequencies(words2, vocab)) == 0
        <==> forall w :: w in words1 ==> w !in words2
  {
    var v1, v2 := Frequencies(words1, vocab), Frequencies(words2, vocab);
    DotOfNaturals(v1, v2);
    if w :| w in words1 && w in words2 {
      assert w in vocab;
      var j :| 0 <= j < |vocab| && vocab[j] == w;
      FrequencyPositive(words1, vocab, j);
      FrequencyPositive(words2, vocab, j);
    } else {
      forall i | 0 <= i < |v1| ensures v1[i] == 0 || v2[i] == 0 {
        FrequencyPositive(words1, vocab, i);
        FrequencyPositive(words2, vocab, i);
      }
    }
  }

  /** What a square root gives for a squared norm. */
  lemma MagnitudeFacts(n: int, sqrt: real -> real)
    requires IsSqrt(sqrt) && 0 <= n
    ensures 0.0 <= sqrt(n as real)
    ensures sqrt(n as real) * sqrt(n as real) == n as real
    ensures sqrt(n as real) == 0.0 <==> n == 0
  {
  }

  /** dot / (m1 m2) lies in [0, 1] when dot^2 <= m1^2 m2^2. */
  lemma QuotientBound(dot: int, n1: int, n2: int, m1: real, m2: real)
    requires 0 <= dot && dot * dot <= n1 * n2
    requires 0.0 < m1 && 0.0 < m2 && m1 * m1 == n1 as real && m2 * m2 == n2 as real
    ensures 0.0 <= dot as real / (m1 * m2) <= 1.0
    ensures dot as real / (m1 * m2) == 0.0 <==> dot == 0
  {
    var d, p := dot as real, m1 * m2;
    assert 0.0 < p;
    assert p * p == (m1 * m1) * (m2 * m2);
    assert d * d <= p * p;
    assert d <= p;
    assert (d / p) * p == d;
  }

  /**
   * Cosine of two frequency vectors, 0 when either has zero norm.  It lies in
   * [0, 1], is 0 exactly when a norm or the dot product is 0, and a non-zero
   * vector against itself gives 1.
   */
  function CosineOfVectors(v1: seq<nat>, v2: seq<nat>, sqrt: real -> real): (r: real)
    requires IsSqrt(sqrt) && |v1| == |v2|
    ensures 0.0 <= r <= 1.0
    ensures r == 0.0 <==> Dot(v1, v1) == 0 || Dot(v2, v2) == 0 || Dot(v1, v2) == 0
    ensures v1 == v2 && Dot(v1, v1) != 0 ==> r == 1.0
  {
    var dot := Dot(v1, v2);
    var n1, n2 := Dot(v1, v1), Dot(v2, v2);
    SquareNonNegative(v1);
    SquareNonNegative(v2);
    DotOfNaturals(v1, v2);
    MagnitudeFacts(n1, sqrt);
    MagnitudeFacts(n2, sqrt);
    var magnitude1 := sqrt(n1 as real);
    var magnitude2 := sqrt(n2 as real);
    if magnitude1 == 0.0 || magnitude2 == 0.0 then 0.0
    else
      CauchySchwarz(v1, v2);
      QuotientBound(dot, n1, n2, magnitude1, magnitude2);
      assert v1 == v2 ==> dot as real / (magnitude1 * magnitude2) == 1.0 by {
        if v1 == v2 {
          var p := magnitude1 * magnitude2;
          assert p == dot as real && 0.0 < p;
        }
      }
      dot as real / (magnitude1 * magnitude2)
  }

  /**
   * `_cosine_similarity_simple` on the two token lists.  It is 1 when both are
   * empty, 0 when exactly one is, and otherwise in [0, 1]; it is 0 exactly when the
   * lists share no word, and identical non-empty lists score 1.
   */
  function Cosine(words1: seq<string>, words2: seq<string>, sqrt: real -> real): (r: real)
    requires IsSqrt(sqrt)
    ensures 0.0 <= r <= 1.0
    ensures words1 == [] && words2 == [] ==> r == 1.0
    ensures (words1 == []) != (words2 == []) ==> r == 0.0
    ensures words1 != [] && words2 != [] ==> (r == 0.0 <==> forall w :: w in words1 ==> w !in words2)
    ensures words1 == words2 ==> r == 1.0
  {
    var vocab := Vocabulary(words1 + words2);
    if vocab == [] then
      assert words1 == [] && words2 == [];
      1.0
    else
      assert forall w :: w in words1 ==> w in words1 + words2;
      assert forall w :: w in words2 ==> w in words1 + words2;
      ZeroNormIffEmpty(words1, vocab);
      ZeroNormIffEmpty(words2, vocab);
      ZeroDotIffDisjoint(words1, words2, vocab);
      CosineOfVectors(Frequencies(words1, vocab), Frequencies(words2, vocab), sqrt)
  }

  // ---------------------------------------------------------------- combination

  /** The text an agent record is compared against: description, task type and name. */
  function AgentText(agent: Dict): string
  {
    Show(GetOr(agent, "description", Str(""))) + " "
      + Show(GetOr(agent, "task_type", Str(""))) + " "
      + Show(GetOr(agent, "name", Str("")))
  }

  /** The 0.4 / 0.3 / 0.3 weighting of Jaccard, keyword overlap and cosine. */
  function Weighted(jaccard: real, keyword: real, cosine: real): real
  {
    0.4 * jaccard + 0.3 * keyword + 0.3 * cosine
  }

  /**
   * `_calculate_similarity(query, agent)`: the weighted sum clamped to 1.0.  On
   * exact reals the clamp never bites: the score is the weighted sum and lies in [0, 1].
   */
  function Score(query: string, agent: Dict, sqrt: real -> real): (r: real)
    requires IsSqrt(sqrt)
    ensures 0.0 <= r <= 1.0
    ensures r == Weighted(Jaccard(query, AgentText(agent)), KeywordOverlap(query, AgentText(agent)),
                          Cosine(Tokens(query), Tokens(AgentText(agent)), sqrt))
  {
    var text := AgentText(agent);
    var weighted := 0.4 * Jaccard(query, text) + 0.3 * KeywordOverlap(query, text)
      + 0.3 * Cosine(Tokens(query), Tokens(text), sqrt);
    if weighted <= 1.0 then weighted else 1.0
  }

  /** The score reaches 1.0 exactly when all three metrics do. */
  lemma ScoreOneIffAllOne(query: string, agent: Dict, sqrt: real -> real)
    requires IsSqrt(sqrt)
    ensures var text := AgentText(agent);
      Score(query, agent, sqrt) == 1.0 <==>
        Jaccard(query, text) == 1.0 && KeywordOverlap(query, text) == 1.0
        && Cosine(Tokens(query), Tokens(text), sqrt) == 1.0
  {
  }

  /** Only the description, task type and name of a record enter its text. */
  lemma AgentTextIgnoresOtherKeys(agent: Dict, key: string, v: Value)
    requires key != "description" && key != "task_type" && key != "name"
    ensures AgentText(agent[key := v]) == AgentText(agent)
  {
  }

  /** The score does not depend on the case of the query. */
  lemma ScoreIgnoresQueryCase(query: string, agent: Dict, sqrt: real -> real)
    requires IsSqrt(sqrt)
    ensures Score(Lower(query), agent, sqrt) == Score(query, agent, sqrt)
  {
    NormalizeIgnoresCase(query);
    assert Tokens(Lower(query)) == Tokens(query);
  }

  /** The score does not depend on punctuation in the query: such a character counts as a space. */
  lemma ScoreIgnoresQueryPunctuation(query: string, i: nat, agent: Dict, sqrt: real -> real)
    requires IsSqrt(sqrt)
    requires i < |query| && !IsAlnum(query[i]) && !IsSpace(query[i])
    ensures Score(query[i := ' '], agent, sqrt) == Score(query, agent, sqrt)
  {
    NormalizeIgnoresPunctuation(query, i);
    assert Tokens(query[i := ' ']) == Tokens(query);
  }
}

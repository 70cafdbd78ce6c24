/**
 * `SimilaritySearch` (similarity_search.py): scoring every registered agent
 * against a query, picking the best match and ranking all agents.
 */
module Similarity {
  import opened Values
  import opened Metrics
  import opened Ranking

  /** The default `similarity_threshold` of the constructor. */
  const DefaultThreshold: real := 0.09

  /** `_calculate_similarity(query, agent)` for every agent, in list order. */
  function Scores(query: string, agents: seq<Dict>, sqrt: real -> real): (r: seq<real>)
    requires IsSqrt(sqrt)
    ensures |r| == |agents|
  {
    if agents == [] then []
    else Scores(query, agents[..|agents| - 1], sqrt) + [Score(query, agents[|agents| - 1], sqrt)]
  }

  /** The `j`-th score is the score of the `j`-th agent. */
  lemma {:induction false} ScoresAt(query: string, agents: seq<Dict>, sqrt: real -> real, j: nat)
    requires IsSqrt(sqrt) && j < |agents|
    ensures Scores(query, agents, sqrt)[j] == Score(query, agents[j], sqrt)
  {
    var init := agents[..|agents| - 1];
    if j < |agents| - 1 {
      ScoresAt(query, init, sqrt, j);
      assert init[j] == agents[j];
    }
  }

  /** Scoring one more agent appends its score. */
  lemma ScoresSnoc(query: string, agents: seq<Dict>, sqrt: real -> real, i: nat)
    requires IsSqrt(sqrt) && i < |agents|
    ensures Scores(query, agents[..i + 1], sqrt) == Scores(query, agents[..i], sqrt) + [Score(query, agents[i], sqrt)]
  {
    assert agents[..i + 1][..i] == agents[..i];
  }

  /** Scoring and ranking one more agent appends its entry. */
  lemma RankScoresSnoc(query: string, agents: seq<Dict>, sqrt: real -> real, threshold: real, i: nat)
    requires IsSqrt(sqrt) && i < |agents|
    ensures var score := Score(query, agents[i], sqrt);
      Rank(agents[..i + 1], Scores(query, agents[..i + 1], sqrt), threshold)
        == Rank(agents[..i], Scores(query, agents[..i], sqrt), threshold) + [ScoredAgent(agents[i], score, score >= threshold)]
  {
    ScoresSnoc(query, agents, sqrt, i);
    RankSnoc(agents, Scores(query, agents[..i], sqrt), threshold, i, Score(query, agents[i], sqrt));
  }

  /** Ranking the whole list: the prefix of every agent is the list itself. */
  lemma RankScoresAll(query: string, agents: seq<Dict>, sqrt: real -> real, threshold: real)
    requires IsSqrt(sqrt)
    ensures Rank(agents[..|agents|], Scores(query, agents[..|agents|], sqrt), threshold)
         == Rank(agents, Scores(query, agents, sqrt), threshold)
  {
    assert agents[..|agents|] == agents;
  }

  /** The matcher of similarity_search.py, with its configured threshold. */
  class SimilaritySearch {
    const similarityThreshold: real

    /** `SimilaritySearch(similarity_threshold)`. */
    constructor(threshold: real)
      ensures similarityThreshold == threshold
    {
      similarityThreshold := threshold;
    }

    /** `find_similar_agent`: one pass keeping the best score seen so far. */
    method FindSimilarAgent(query: string, agents: seq<Dict>, sqrt: real -> real) returns (r: Option<Dict>)
      requires IsSqrt(sqrt)
      ensures r == Pick(agents, Scores(query, agents, sqrt), similarityThreshold)
    {
      if agents == [] {
        return None;
      }
      ghost var seen: seq<real> := [];
      var bestAgent: Option<Dict> := None;
      var bestScore := ScoreFloor;
      for i := 0 to |agents|
        invariant seen == Scores(query, agents[..i], sqrt)
        invariant bestScore == Scan(seen).score
        invariant bestAgent == match Scan(seen).index
                                 case None => None
                                 case Some(k) => Some(agents[k])
      {
        var score := Score(query, agents[i], sqrt);
        ScoresSnoc(query, agents, sqrt, i);
        ScanSnoc(seen, score);
        if score > bestScore {
          bestScore := score;
          bestAgent := Some(agents[i]);
        }
        seen := seen + [score];
      }
      assert agents[..|agents|] == agents;
      if bestScore >= similarityThreshold && bestAgent.Some? && bestAgent.value != map[] {
        r := bestAgent;
      } else {
        r := None;
      }
    }

    /** The loop of `get_similarity_scores`: each agent with its score and threshold flag, in list order. */
    method ScoreAgents(query: string, agents: seq<Dict>, sqrt: real -> real)
      returns (results: seq<ScoredAgent>)
      requires IsSqrt(sqrt)
      ensures results == Rank(agents, Scores(query, agents, sqrt), similarityThreshold)
    {
      results := [];
      for i := 0 to |agents|
        invariant results == Rank(agents[..i], Scores(query, agents[..i], sqrt), similarityThreshold)
      {
        var score := Score(query, agents[i], sqrt);
        RankScoresSnoc(query, agents, sqrt, similarityThreshold, i);
        results := results + [ScoredAgent(agents[i], score, score >= similarityThreshold)];
      }
      RankScoresAll(query, agents, sqrt, similarityThreshold);
    }

    /** `get_similarity_scores`: every agent with its score, best first. */
    method GetSimilarityScores(query: string, agents: seq<Dict>, sqrt: real -> real)
      returns (results: seq<ScoredAgent>)
      requires IsSqrt(sqrt)
      ensures results == SortByScore(Rank(agents, Scores(query, agents, sqrt), similarityThreshold))
    {
      results := ScoreAgents(query, agents, sqrt);
      results := SortByScore(results);
    }
  }
}

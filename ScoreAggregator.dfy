/**
 * backend/app/services/score_aggregator.py: the recruiter status and rank
 * bands of a score and the weighted overall score. The weights are exact
 * reals here; Python computes with binary floats.
 */
module ScoreAggregator {
  import opened Numeric

  /** The band a score falls in: 3 from 80 on, 2 from 65, 1 from 50, 0 below. */
  function Band(score: int): (b: nat)
    ensures b <= 3
    ensures b == 3 <==> score >= 80
    ensures b >= 2 <==> score >= 65
    ensures b >= 1 <==> score >= 50
  {
    if score >= 80 then 3 else if score >= 65 then 2 else if score >= 50 then 1 else 0
  }

  const Statuses: seq<string> := ["AUTO_REJECTED", "MAYBE", "REVIEW", "SHORTLIST"]
  const Ranks: seq<string> := ["Bottom 50%", "Top 50%", "Top 25%", "Top 10%"]

  /** `get_recruiter_status`. */
  function RecruiterStatus(score: int): (s: string)
    ensures s in Statuses
  {
    if score >= 80 then "SHORTLIST"
    else if score >= 65 then "REVIEW"
    else if score >= 50 then "MAYBE"
    else "AUTO_REJECTED"
  }

  /** `get_rank_estimate`. */
  function RankEstimate(score: int): (s: string)
    ensures s in Ranks
  {
    if score >= 80 then "Top 10%"
    else if score >= 65 then "Top 25%"
    else if score >= 50 then "Top 50%"
    else "Bottom 50%"
  }

  /** Both step functions are read off the same band, so they share their cut points. */
  lemma StatusAndRankShareBands(score: int)
    ensures RecruiterStatus(score) == Statuses[Band(score)]
    ensures RankEstimate(score) == Ranks[Band(score)]
  {
  }

  /**
   * Status and rank determine each other: two scores with the same status
   * have the same rank and conversely, because the four labels of each
   * table are distinct.
   */
  lemma StatusDeterminesRank(a: int, b: int)
    ensures RecruiterStatus(a) == RecruiterStatus(b) <==> RankEstimate(a) == RankEstimate(b)
  {
    StatusAndRankShareBands(a);
    StatusAndRankShareBands(b);
    assert RecruiterStatus(a) == RecruiterStatus(b) <==> Band(a) == Band(b);
    assert RankEstimate(a) == RankEstimate(b) <==> Band(a) == Band(b);
  }

  /** A higher score never falls in a lower band, so never gets a worse status or rank. */
  lemma BandsMonotone(a: int, b: int)
    requires a <= b
    ensures Band(a) <= Band(b)
  {
  }

  /** The weighted sum before rounding. */
  function Weighted(keyword: int, semantic: int, structure: int): (w: real)
  {
    keyword as real * 0.40 + semantic as real * 0.35 + structure as real * 0.25
  }

  /** `compute_overall_score`: `int(round(weighted))`, ties to even; within one half of the weighted sum. */
  function OverallScore(keyword: int, semantic: int, structure: int): (r: int)
    ensures Weighted(keyword, semantic, structure) - 0.5 <= r as real <= Weighted(keyword, semantic, structure) + 0.5
  {
    RoundHalfEven(Weighted(keyword, semantic, structure))
  }

  /**
   * The weights sum to 1, so inputs in [0, 100] give an overall score in
   * [0, 100], and three equal inputs give that value back.
   */
  lemma OverallScoreRange(keyword: int, semantic: int, structure: int)
    ensures 0 <= keyword <= 100 && 0 <= semantic <= 100 && 0 <= structure <= 100 ==> 0 <= OverallScore(keyword, semantic, structure) <= 100
    ensures keyword == semantic == structure ==> OverallScore(keyword, semantic, structure) == keyword
  {
    var w := Weighted(keyword, semantic, structure);
    if 0 <= keyword <= 100 && 0 <= semantic <= 100 && 0 <= structure <= 100 {
      RoundBetweenInts(w, 0, 100);
    }
    if keyword == semantic == structure {
      assert w == keyword as real;
      RoundOfInt(keyword);
    }
  }

  /** The overall score never decreases when one of its three inputs grows. */
  lemma OverallMonotone(k1: int, s1: int, t1: int, k2: int, s2: int, t2: int)
    requires k1 <= k2 && s1 <= s2 && t1 <= t2
    ensures OverallScore(k1, s1, t1) <= OverallScore(k2, s2, t2)
  {
    RoundMonotone(Weighted(k1, s1, t1), Weighted(k2, s2, t2));
  }
}

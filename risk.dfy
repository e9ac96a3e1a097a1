/**
 * The risk distribution over a user's cases: every analyzed case that has a
 * risk score is put in one of four buckets by threshold, and the count, mean,
 * minimum and maximum of those scores are reported.
 */
module RiskDistribution {
  import opened Wrappers
  import opened Cases
  import opened SeqMath

  datatype Bucket = Low | Medium | High | Critical

  /** The threshold chain: 75 and up is critical, then 50, then 25, everything else is low. */
  function BucketOf(score: int): Bucket {
    if score >= 75 then Critical
    else if score >= 50 then High
    else if score >= 25 then Medium
    else Low
  }

  /** The same buckets as ranges, lower bound included and upper bound excluded, open at both ends. */
  predicate InRange(score: int, b: Bucket) {
    match b
    case Low => score < 25
    case Medium => 25 <= score < 50
    case High => 50 <= score < 75
    case Critical => 75 <= score
  }

  /** The threshold chain puts every score, in range or not, in the one bucket whose range holds it. */
  lemma BucketsPartitionScores(score: int)
    ensures InRange(score, BucketOf(score))
    ensures forall b :: InRange(score, b) ==> b == BucketOf(score)
  {
  }

  /** A case counts when it is analyzed and has a risk score. */
  predicate Counted(c: CaseRecord) {
    c.status == "analyzed" && c.riskScore.Some?
  }

  /** The `scores` list: the risk scores of the counted cases, in order. */
  function CountedScores(cases: seq<CaseRecord>): seq<int> {
    if cases == [] then []
    else
      var c := cases[|cases| - 1];
      CountedScores(cases[..|cases| - 1]) + (if Counted(c) then [c.riskScore.value] else [])
  }

  /** The four counters of the `distribution` dictionary. */
  datatype Distribution = Distribution(low: nat, medium: nat, high: nat, critical: nat) {
    function Count(b: Bucket): nat {
      match b
      case Low => low
      case Medium => medium
      case High => high
      case Critical => critical
    }

    function Total(): nat {
      low + medium + high + critical
    }

    /** One more score in bucket `b`. */
    function Increment(b: Bucket): Distribution {
      match b
      case Low => this.(low := low + 1)
      case Medium => this.(medium := medium + 1)
      case High => this.(high := high + 1)
      case Critical => this.(critical := critical + 1)
    }
  }

  /** The counters after classifying `scores` one by one, starting from zero. */
  function Classify(scores: seq<int>): Distribution {
    if scores == [] then Distribution(0, 0, 0, 0)
    else Classify(scores[..|scores| - 1]).Increment(BucketOf(scores[|scores| - 1]))
  }

  /** The handler's answer; `averageScore` is the exact mean, before rounding. */
  datatype Report = Report(distribution: Distribution, totalAnalyzed: nat, averageScore: real,
                           minScore: int, maxScore: int)

  /** The answer for `cases`: the mean, minimum and maximum are zero when no case counts. */
  function ReportOf(cases: seq<CaseRecord>): Report {
    var scores := CountedScores(cases);
    Report(Classify(scores), |scores|,
           if scores == [] then 0.0 else Sum(scores) as real / |scores| as real,
           if scores == [] then 0 else MinOf(scores),
           if scores == [] then 0 else MaxOf(scores))
  }

  /** The loop of the handler: classify each counted case, collect its score, then summarise. */
  method GetRiskDistribution(cases: seq<CaseRecord>) returns (report: Report)
    ensures report == ReportOf(cases)
  {
    var distribution := Distribution(0, 0, 0, 0);
    var scores: seq<int> := [];
    for i := 0 to |cases|
      invariant scores == CountedScores(cases[..i])
      invariant distribution == Classify(scores)
    {
      var c := cases[i];
      assert cases[..i + 1][..i] == cases[..i];
      if c.status == "analyzed" && c.riskScore.Some? {
        var score := c.riskScore.value;
        ghost var previous := scores;
        scores := scores + [score];
        assert scores[..|scores| - 1] == previous;
        if score >= 75 {
          distribution := distribution.(critical := distribution.critical + 1);
        } else if score >= 50 {
          distribution := distribution.(high := distribution.high + 1);
        } else if score >= 25 {
          distribution := distribution.(medium := distribution.medium + 1);
        } else {
          distribution := distribution.(low := distribution.low + 1);
        }
      }
    }
    assert cases[..|cases|] == cases;
    report := Report(distribution, |scores|,
                     if scores == [] then 0.0 else Sum(scores) as real / |scores| as real,
                     if scores == [] then 0 else MinOf(scores),
                     if scores == [] then 0 else MaxOf(scores));
  }

  // ---------------------------------------------------------------------
  // Properties
  // ---------------------------------------------------------------------

  /** Appending a case appends its score to `scores` exactly when it counts. */
  lemma CountedScoresAppend(cases: seq<CaseRecord>, c: CaseRecord)
    ensures CountedScores(cases + [c])
            == CountedScores(cases) + (if Counted(c) then [c.riskScore.value] else [])
  {
    assert (cases + [c])[..|cases|] == cases;
  }

  /** A counted case adds exactly one to exactly one bucket. */
  lemma OneCaseOneBucket(cases: seq<CaseRecord>, c: CaseRecord)
    requires Counted(c)
    ensures forall b :: ReportOf(cases + [c]).distribution.Count(b)
                        == ReportOf(cases).distribution.Count(b) + (if b == BucketOf(c.riskScore.value) then 1 else 0)
  {
    var s := CountedScores(cases);
    var x := c.riskScore.value;
    CountedScoresAppend(cases, c);
    assert (s + [x])[..|s|] == s;
    assert ReportOf(cases + [c]).distribution == Classify(s + [x]) == Classify(s).Increment(BucketOf(x));
  }

  /** A case that is not analyzed, or has no score, leaves the whole answer as it was. */
  lemma UncountedCaseIgnored(cases: seq<CaseRecord>, c: CaseRecord)
    requires !Counted(c)
    ensures ReportOf(cases + [c]) == ReportOf(cases)
  {
    CountedScoresAppend(cases, c);
    assert CountedScores(cases + [c]) == CountedScores(cases);
  }

  /** The four bucket counts add up to the number of classified scores. */
  lemma {:induction false} ClassifyTotal(scores: seq<int>)
    ensures Classify(scores).Total() == |scores|
  {
    if scores != [] {
      ClassifyTotal(scores[..|scores| - 1]);
    }
  }

  /** Bucket `b` counts exactly the scores whose range is `b`. */
  lemma {:induction false} ClassifyCountsRange(scores: seq<int>, b: Bucket)
    ensures Classify(scores).Count(b) == |set i | 0 <= i < |scores| && InRange(scores[i], b)|
  {
    if scores != [] {
      var n := |scores| - 1;
      ClassifyCountsRange(scores[..n], b);
      RangeIndicesStep(scores, b);
      BucketsPartitionScores(scores[n]);
      IncrementCount(Classify(scores[..n]), BucketOf(scores[n]), b);
    }
  }

  /** Classifying one more score adds one to its own bucket only. */
  lemma IncrementCount(d: Distribution, x: Bucket, b: Bucket)
    ensures d.Increment(x).Count(b) == d.Count(b) + (if x == b then 1 else 0)
  {
  }

  /** The positions in bucket `b` of a non-empty list: those of its prefix, and the last one if it is in `b`. */
  lemma RangeIndicesStep(scores: seq<int>, b: Bucket)
    requires scores != []
    ensures var n := |scores| - 1;
      |set i | 0 <= i < |scores| && InRange(scores[i], b)|
      == |set i | 0 <= i < n && InRange(scores[..n][i], b)| + (if InRange(scores[n], b) then 1 else 0)
  {
    var n := |scores| - 1;
    var s := set i | 0 <= i < |scores| && InRange(scores[i], b);
    var sp := set i | 0 <= i < n && InRange(scores[..n][i], b);
    assert forall i :: 0 <= i < n ==> scores[..n][i] == scores[i];
    if InRange(scores[n], b) {
      assert s == sp + {n};
    } else {
      assert s == sp;
    }
  }

  /** Exactly the analyzed, scored cases contribute scores, each its own. */
  lemma {:induction false} CountedScoresExact(cases: seq<CaseRecord>)
    ensures |CountedScores(cases)| <= |cases|
    ensures forall x :: x in CountedScores(cases) <==>
              exists i :: 0 <= i < |cases| && Counted(cases[i]) && cases[i].riskScore.value == x
  {
    if cases != [] {
      var n := |cases| - 1;
      var p := cases[..n];
      CountedScoresExact(p);
      forall x
        ensures x in CountedScores(cases) <==>
                exists i :: 0 <= i < |cases| && Counted(cases[i]) && cases[i].riskScore.value == x
      {
        if x in CountedScores(p) {
          var i :| 0 <= i < |p| && Counted(p[i]) && p[i].riskScore.value == x;
          assert cases[i] == p[i];
        }
        if exists i :: 0 <= i < |cases| && Counted(cases[i]) && cases[i].riskScore.value == x {
          var i :| 0 <= i < |cases| && Counted(cases[i]) && cases[i].riskScore.value == x;
          if i < n {
            assert p[i] == cases[i];
          }
        }
      }
    }
  }

  /**
   * The buckets are exhaustive and disjoint: they add up to `total_analyzed`,
   * which is the number of analyzed, scored cases; each bucket holds the
   * scores in its range.
   */
  lemma BucketsSumToTotal(cases: seq<CaseRecord>)
    ensures var r := ReportOf(cases);
      && r.distribution.Total() == r.totalAnalyzed == |CountedScores(cases)|
      && forall b :: r.distribution.Count(b)
                     == |set i | 0 <= i < |CountedScores(cases)| && InRange(CountedScores(cases)[i], b)|
  {
    ClassifyTotal(CountedScores(cases));
    forall b
      ensures Classify(CountedScores(cases)).Count(b)
              == |set i | 0 <= i < |CountedScores(cases)| && InRange(CountedScores(cases)[i], b)|
    {
      ClassifyCountsRange(CountedScores(cases), b);
    }
  }

  /**
   * With no counted score every statistic is zero; otherwise the minimum and
   * maximum are scores of counted cases, every counted score lies between
   * them, and so does the mean.
   */
  lemma ReportStatistics(cases: seq<CaseRecord>)
    ensures var r := ReportOf(cases);
      r.totalAnalyzed == 0 ==> r.averageScore == 0.0 && r.minScore == 0 && r.maxScore == 0
    ensures var r := ReportOf(cases);
      r.totalAnalyzed > 0 ==>
        && r.minScore <= r.averageScore.Floor && r.minScore as real <= r.averageScore <= r.maxScore as real
        && (exists i :: 0 <= i < |cases| && Counted(cases[i]) && cases[i].riskScore.value == r.minScore)
        && (exists i :: 0 <= i < |cases| && Counted(cases[i]) && cases[i].riskScore.value == r.maxScore)
        && forall i :: 0 <= i < |cases| && Counted(cases[i]) ==>
             r.minScore <= cases[i].riskScore.value <= r.maxScore
  {
    var scores := CountedScores(cases);
    CountedScoresExact(cases);
    if scores != [] {
      MeanBetweenMinAndMax(scores);
      forall i | 0 <= i < |cases| && Counted(cases[i])
        ensures MinOf(scores) <= cases[i].riskScore.value <= MaxOf(scores)
      {
        var x := cases[i].riskScore.value;
        assert x in scores;
        var k :| 0 <= k < |scores| && scores[k] == x;
      }
    }
  }

  /** Scores 10 and 80 analyzed, 90 still pending. */
  const RiskExample: seq<CaseRecord> := [
    CaseRecord("a", "analyzed", Some(10), None, "t1"),
    CaseRecord("b", "analyzed", Some(80), None, "t2"),
    CaseRecord("c", "pending", Some(90), None, "t3")
  ]

  /** Only the two analyzed cases of the example contribute their scores. */
  lemma ExampleScores()
    ensures CountedScores(RiskExample) == [10, 80]
  {
    var a, b, c := RiskExample[0], RiskExample[1], RiskExample[2];
    assert !Counted(c) by {
      assert c.status[0] != "analyzed"[0];
    }
    assert RiskExample == [a, b] + [c];
    CountedScoresAppend([a, b], c);
    assert [a, b] == [a] + [b];
    CountedScoresAppend([a], b);
    assert [a] == [] + [a];
    CountedScoresAppend([], a);
  }

  /** The worked example: one low, one critical, two analyzed, mean 45, minimum 10, maximum 80. */
  lemma ExampleReport()
    ensures ReportOf(RiskExample) == Report(Distribution(1, 0, 0, 1), 2, 45.0, 10, 80)
  {
    ExampleScores();
    var s: seq<int> := [10, 80];
    assert s[..1] == [10];
    assert Classify(s[..1]) == Distribution(1, 0, 0, 0);
    assert Sum(s[..1]) == 10 && Sum(s) == 90;
    assert MinOf(s[..1]) == 10 && MinOf(s) == 10;
    assert MaxOf(s[..1]) == 10 && MaxOf(s) == 80;
  }
}

/**
 * The popup's risk score: 100 minus a weighted penalty for every finding
 * that has a known severity and did not pass, never below 0; and the risk
 * band and colour derived from it.
 */
module Risk {
  import opened JsValues
  import opened Findings

  /** `weights[severity]`; an absent or unknown severity weighs nothing. */
  function Weight(severity: Option<string>): nat {
    if severity == Some(CRITICAL) then 5
    else if severity == Some(HIGH) then 3
    else if severity == Some(MEDIUM) then 2
    else if severity == Some(LOW) then 1
    else 0
  }

  predicate KnownSeverity(severity: Option<string>) {
    severity in {Some(CRITICAL), Some(HIGH), Some(MEDIUM), Some(LOW)}
  }

  /** The condition of the `forEach`: `result.severity && weights[result.severity] && result.status !== 'pass'`. */
  predicate Penalised(f: Finding) {
    Truthy(f.severity) && Weight(f.severity) != 0 && f.status != Some(PASS)
  }

  function Penalty(f: Finding): (p: nat)
    ensures p > 0 <==> KnownSeverity(f.severity) && f.status != Some(PASS)
    ensures p <= 5
  {
    if Penalised(f) then Weight(f.severity) else 0
  }

  /** The sum of the penalties. */
  function TotalPenalty(results: seq<Finding>): nat
    decreases |results|
  {
    if |results| == 0 then 0 else Penalty(results[0]) + TotalPenalty(results[1..])
  }

  /** `calculateRiskScore(results)`. */
  function RiskScore(results: seq<Finding>): (score: int)
    ensures 0 <= score <= 100
    ensures score == 100 - TotalPenalty(results) || (score == 0 && TotalPenalty(results) >= 100)
  {
    if 100 - TotalPenalty(results) > 0 then 100 - TotalPenalty(results) else 0
  }

  /** The source's loop: start at 100 and subtract each penalty in turn, then clamp at 0. */
  method CalculateRiskScore(results: seq<Finding>) returns (score: int)
    ensures score == RiskScore(results)
    ensures 0 <= score <= 100
  {
    score := 100;
    for i := 0 to |results|
      invariant score == 100 - TotalPenalty(results[..i])
    {
      var result := results[i];
      if Truthy(result.severity) && Weight(result.severity) != 0 && result.status != Some(PASS) {
        score := score - Weight(result.severity);
      }
      PenaltyAppend(results[..i], [result]);
      assert results[..i + 1] == results[..i] + [result];
    }
    assert results[..|results|] == results;
    score := if 0 > score then 0 else score;
  }

  lemma {:induction false} PenaltyAppend(a: seq<Finding>, b: seq<Finding>)
    ensures TotalPenalty(a + b) == TotalPenalty(a) + TotalPenalty(b)
    decreases |a|
  {
    if |a| == 0 {
      assert a + b == b;
    } else {
      assert (a + b)[1..] == a[1..] + b;
      PenaltyAppend(a[1..], b);
    }
  }

  /** No findings: a perfect score. Two failed findings, critical and high: 100 - 5 - 3. */
  lemma ScoreExamples(f1: Finding, f2: Finding)
    requires f1.status == Some(FAIL) && f1.severity == Some(CRITICAL)
    requires f2.status == Some(FAIL) && f2.severity == Some(HIGH)
    ensures RiskScore([]) == 100
    ensures RiskScore([f1, f2]) == 92
  {
    assert [f1, f2][1..] == [f2];
    assert Penalty(f1) == 5 && Penalty(f2) == 3;
    assert TotalPenalty([f2]) == 3;
  }

  /** A passed finding costs nothing whatever its severity; warn, na and error findings with a severity do cost. */
  lemma PassCostsNothing(results: seq<Finding>, f: Finding)
    ensures f.status == Some(PASS) ==> RiskScore(results + [f]) == RiskScore(results)
    ensures f.status != Some(PASS) && KnownSeverity(f.severity) ==>
      TotalPenalty(results + [f]) == TotalPenalty(results) + Weight(f.severity)
  {
    PenaltyAppend(results, [f]);
    assert TotalPenalty([f]) == Penalty(f);
  }

  /** Adding findings never raises the score. */
  lemma AppendNeverRaises(a: seq<Finding>, b: seq<Finding>)
    ensures RiskScore(a + b) <= RiskScore(a)
  {
    PenaltyAppend(a, b);
  }

  /** Taking one finding out of the list takes exactly its penalty out of the total. */
  lemma PenaltyRemove(b: seq<Finding>, j: nat)
    requires j < |b|
    ensures TotalPenalty(b) == Penalty(b[j]) + TotalPenalty(b[..j] + b[j + 1..])
  {
    assert TotalPenalty(b) == TotalPenalty(b[..j]) + TotalPenalty(b[j..]) by {
      assert b[..j] + b[j..] == b;
      PenaltyAppend(b[..j], b[j..]);
    }
    assert TotalPenalty(b[j..]) == Penalty(b[j]) + TotalPenalty(b[j + 1..]) by {
      PenaltyFrom(b, j);
    }
    assert TotalPenalty(b[..j] + b[j + 1..]) == TotalPenalty(b[..j]) + TotalPenalty(b[j + 1..]) by {
      PenaltyAppend(b[..j], b[j + 1..]);
    }
  }

  /** The suffix from position j costs finding j plus the suffix after it. */
  lemma PenaltyFrom(b: seq<Finding>, j: nat)
    requires j < |b|
    ensures TotalPenalty(b[j..]) == Penalty(b[j]) + TotalPenalty(b[j + 1..])
  {
    assert b[j..][0] == b[j] && b[j..][1..] == b[j + 1..];
  }

  lemma MultisetRemove(a: seq<Finding>, b: seq<Finding>, j: nat)
    requires |a| > 0 && j < |b| && b[j] == a[0]
    requires multiset(a) == multiset(b)
    ensures multiset(a[1..]) == multiset(b[..j] + b[j + 1..])
  {
    assert a == [a[0]] + a[1..];
    assert multiset(a) == multiset{a[0]} + multiset(a[1..]);
    assert b == b[..j] + [b[j]] + b[j + 1..];
    assert multiset(b) == multiset(b[..j]) + multiset{b[j]} + multiset(b[j + 1..]);
    assert multiset(b[..j] + b[j + 1..]) == multiset(b[..j]) + multiset(b[j + 1..]);
    var m1, m2, x := multiset(a[1..]), multiset(b[..j] + b[j + 1..]), multiset{a[0]};
    assert m1 + x == multiset(a);
    assert m2 + x == multiset(b);
    assert m1 == (m1 + x) - x && m2 == (m2 + x) - x;
  }

  /** The score does not depend on the order of the findings. */
  lemma {:induction false} ScoreIgnoresOrder(a: seq<Finding>, b: seq<Finding>)
    requires multiset(a) == multiset(b)
    ensures TotalPenalty(a) == TotalPenalty(b)
    ensures RiskScore(a) == RiskScore(b)
    decreases |a|
  {
    if |a| == 0 {
      assert |b| == |multiset(b)| == 0;
    } else {
      assert a[0] in multiset(b);
      var j :| 0 <= j < |b| && b[j] == a[0];
      MultisetRemove(a, b, j);
      ScoreIgnoresOrder(a[1..], b[..j] + b[j + 1..]);
      PenaltyRemove(b, j);
    }
  }

  const LowRisk := "Low Risk"
  const MediumRisk := "Medium Risk"
  const HighRisk := "High Risk"
  const CriticalRisk := "Critical Risk"

  /** `getRiskLevel(score)`: each band includes its lower bound. */
  function RiskLevel(score: int): (level: string)
    ensures level == LowRisk <==> 80 <= score
    ensures level == MediumRisk <==> 50 <= score < 80
    ensures level == HighRisk <==> 20 <= score < 50
    ensures level == CriticalRisk <==> score < 20
  {
    if score >= 80 then LowRisk
    else if score >= 50 then MediumRisk
    else if score >= 20 then HighRisk
    else CriticalRisk
  }

  /** `getRiskColor(score)`: the colour of the score's band. */
  function RiskColor(score: int): (color: string)
    ensures color == BandColor(RiskLevel(score))
  {
    if score >= 80 then "#34a853"
    else if score >= 50 then "#fbbc05"
    else if score >= 20 then "#ea4335"
    else "#b80672"
  }

  /** The colour of each band. */
  function BandColor(level: string): string {
    if level == LowRisk then "#34a853"
    else if level == MediumRisk then "#fbbc05"
    else if level == HighRisk then "#ea4335"
    else "#b80672"
  }

  function Rank(level: string): nat {
    if level == LowRisk then 0 else if level == MediumRisk then 1 else if level == HighRisk then 2 else 3
  }

  /** The colour uses the same thresholds as the band: it is a function of the band, and tells the bands apart. */
  lemma ColorFollowsLevel(s: int, t: int)
    ensures RiskColor(s) == BandColor(RiskLevel(s))
    ensures RiskColor(s) == RiskColor(t) <==> RiskLevel(s) == RiskLevel(t)
  {
  }

  /** A higher score never gives a worse band. */
  lemma LevelMonotonic(s: int, t: int)
    requires s <= t
    ensures Rank(RiskLevel(t)) <= Rank(RiskLevel(s))
  {
  }

  /** The band boundaries. */
  lemma LevelBoundaries()
    ensures RiskLevel(80) == LowRisk && RiskLevel(79) == MediumRisk
    ensures RiskLevel(50) == MediumRisk && RiskLevel(49) == HighRisk
    ensures RiskLevel(20) == HighRisk && RiskLevel(19) == CriticalRisk
  {
  }
}

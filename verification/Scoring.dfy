/** Weighted scores and verdicts (apps/api/app/scoring.py, apps/api/app/evaluation_engine.py), over
    exact reals in place of floating point. */
module Scoring {
  import opened Common

  // ----- rounding -----

  /** Python's round: to nearest, halves to even. */
  function Round(x: real): (n: int) {
    var f := x.Floor;
    var d := x - f as real;
    if d < 0.5 then f
    else if d > 0.5 then f + 1
    else if f % 2 == 0 then f else f + 1
  }

  lemma RoundIsMonotone(x: real, y: real)
    requires x <= y
    ensures Round(x) <= Round(y)
  {
    assert x.Floor <= y.Floor;
  }

  lemma RoundKeepsInteger(n: int)
    ensures Round(n as real) == n
  {
  }

  lemma RoundBetween(lo: int, x: real, hi: int)
    requires lo as real <= x <= hi as real
    ensures lo <= Round(x) <= hi
  {
    RoundIsMonotone(lo as real, x);
    RoundIsMonotone(x, hi as real);
    RoundKeepsInteger(lo);
    RoundKeepsInteger(hi);
  }

  /** Round goes to the nearest integer, and from halfway to the even one of the two. */
  lemma RoundIs(x: real, n: int)
    ensures Round(x) == n <==> -0.5 <= x - n as real <= 0.5 && (n % 2 == 0 || -0.5 < x - n as real < 0.5)
  {
    var f := x.Floor;
    assert f as real <= x < f as real + 1.0;
    if -0.5 <= x - n as real <= 0.5 {
      assert n == f || n == f + 1;
    }
  }

  // ----- weighted means -----

  /** A score with its weight. */
  datatype Part = Part(score: int, weight: nat)

  function Weight(parts: seq<Part>): (w: nat) {
    if parts == [] then 0 else Weight(parts[..|parts| - 1]) + parts[|parts| - 1].weight
  }

  function Points(parts: seq<Part>): (points: int) {
    if parts == [] then 0
    else Points(parts[..|parts| - 1]) + parts[|parts| - 1].score * parts[|parts| - 1].weight
  }

  function Mean(parts: seq<Part>): (mean: real)
    requires Weight(parts) > 0
  {
    Points(parts) as real / Weight(parts) as real
  }

  lemma TimesWeight(a: int, b: int, w: nat)
    requires a <= b
    ensures a * w <= b * w
  {
  }

  lemma Distribute(c: int, a: int, b: int)
    ensures c * (a + b) == c * a + c * b
  {
  }

  lemma {:induction false} PointsBetween(parts: seq<Part>, lo: int, hi: int)
    requires forall p | p in parts && p.weight > 0 :: lo <= p.score <= hi
    ensures lo * Weight(parts) <= Points(parts) <= hi * Weight(parts)
  {
    if parts != [] {
      var k := |parts| - 1;
      var p := parts[k];
      PointsBetween(parts[..k], lo, hi);
      assert p in parts;
      if p.weight > 0 {
        TimesWeight(lo, p.score, p.weight);
        TimesWeight(p.score, hi, p.weight);
      }
      Distribute(lo, Weight(parts[..k]), p.weight);
      Distribute(hi, Weight(parts[..k]), p.weight);
    }
  }

  lemma LessTimes(x: real, y: real, w: real)
    requires w > 0.0 && x * w <= y * w
    ensures x <= y
  {
  }

  lemma QuotientBetween(lo: int, points: int, weight: nat, hi: int)
    requires weight > 0 && lo * weight <= points <= hi * weight
    ensures lo as real <= points as real / weight as real <= hi as real
  {
    var w := weight as real;
    assert (lo * weight) as real == lo as real * w;
    assert (hi * weight) as real == hi as real * w;
    var q := points as real / w;
    assert q * w == points as real;
    LessTimes(lo as real, q, w);
    LessTimes(q, hi as real, w);
  }

  /** The rounded mean lies between the least and the greatest score that carries weight. */
  lemma MeanBetween(parts: seq<Part>, lo: int, hi: int)
    requires Weight(parts) > 0
    requires forall p | p in parts && p.weight > 0 :: lo <= p.score <= hi
    ensures lo <= Round(Mean(parts)) <= hi
  {
    PointsBetween(parts, lo, hi);
    QuotientBetween(lo, Points(parts), Weight(parts), hi);
    RoundBetween(lo, Mean(parts), hi);
  }

  /** The same weights, and no score lower. */
  predicate NoLower(parts: seq<Part>, parts': seq<Part>) {
    |parts| == |parts'| &&
    forall i | 0 <= i < |parts| :: parts[i].weight == parts'[i].weight && parts[i].score <= parts'[i].score
  }

  lemma {:induction false} PointsMonotone(parts: seq<Part>, parts': seq<Part>)
    requires NoLower(parts, parts')
    ensures Weight(parts) == Weight(parts') && Points(parts) <= Points(parts')
  {
    if parts != [] {
      var k := |parts| - 1;
      PointsMonotone(parts[..k], parts'[..k]);
      TimesWeight(parts[k].score, parts'[k].score, parts[k].weight);
    }
  }

  lemma QuotientMonotone(a: int, b: int, weight: nat)
    requires weight > 0 && a <= b
    ensures a as real / weight as real <= b as real / weight as real
  {
    var w := weight as real;
    var p, q := a as real / w, b as real / w;
    assert p * w == a as real && q * w == b as real;
    LessTimes(p, q, w);
  }

  lemma MeanMonotone(parts: seq<Part>, parts': seq<Part>)
    requires NoLower(parts, parts') && Weight(parts) > 0
    ensures Weight(parts') > 0 && Round(Mean(parts)) <= Round(Mean(parts'))
  {
    PointsMonotone(parts, parts');
    QuotientMonotone(Points(parts), Points(parts'), Weight(parts));
    RoundIsMonotone(Mean(parts), Mean(parts'));
  }

  function Scale(parts: seq<Part>, c: nat): (scaled: seq<Part>) {
    seq(|parts|, i requires 0 <= i < |parts| => Part(parts[i].score, c * parts[i].weight))
  }

  lemma Reorder(a: int, b: int, c: int)
    ensures a * (b * c) == b * (a * c)
  {
  }

  lemma {:induction false} ScaleTimes(parts: seq<Part>, c: nat)
    ensures Weight(Scale(parts, c)) == c * Weight(parts) && Points(Scale(parts, c)) == c * Points(parts)
  {
    if parts != [] {
      var k := |parts| - 1;
      var p := parts[k];
      ScaleTimes(parts[..k], c);
      assert Scale(parts, c)[..k] == Scale(parts[..k], c);
      Reorder(p.score, c, p.weight);
      Distribute(c, Weight(parts[..k]), p.weight);
      Distribute(c, Points(parts[..k]), p.score * p.weight);
    }
  }

  lemma QuotientScaled(a: int, weight: nat, c: nat)
    requires weight > 0 && c > 0
    ensures c * weight > 0 && (c * a) as real / (c * weight) as real == a as real / weight as real
  {
    var w, q := weight as real, a as real / weight as real;
    assert q * w == a as real;
    assert (c * a) as real == c as real * a as real;
    assert (c * weight) as real == c as real * w;
    assert q * (c as real * w) == c as real * a as real;
  }

  /** Scaling every weight changes nothing. */
  lemma MeanScaled(parts: seq<Part>, c: nat)
    requires Weight(parts) > 0 && c > 0
    ensures Weight(Scale(parts, c)) > 0 && Mean(Scale(parts, c)) == Mean(parts)
  {
    ScaleTimes(parts, c);
    QuotientScaled(Points(parts), Weight(parts), c);
  }

  // ----- verdicts -----

  datatype Verdict = AutoReject | Hold | Shortlist | HighlyRecommended

  datatype Thresholds = Thresholds(autoRejectBelow: int, holdBelow: int, highlyRecommendedAt: int)

  function AssignVerdict(total: int, t: Thresholds): (verdict: Verdict) {
    if total < t.autoRejectBelow then AutoReject
    else if total < t.holdBelow then Hold
    else if total >= t.highlyRecommendedAt then HighlyRecommended
    else Shortlist
  }

  function Rank(v: Verdict): (rank: nat) {
    match v
    case AutoReject => 0
    case Hold => 1
    case Shortlist => 2
    case HighlyRecommended => 3
  }

  /** Each verdict by its thresholds, the lower ones first. */
  lemma VerdictIs(total: int, t: Thresholds)
    ensures var v := AssignVerdict(total, t);
            && (v == AutoReject <==> total < t.autoRejectBelow)
            && (v == Hold <==> t.autoRejectBelow <= total < t.holdBelow)
            && (v == HighlyRecommended <==>
                  t.autoRejectBelow <= total && t.holdBelow <= total && t.highlyRecommendedAt <= total)
            && (v == Shortlist <==>
                  t.autoRejectBelow <= total && t.holdBelow <= total < t.highlyRecommendedAt)
  {
  }

  /** A greater total never gets a lower verdict, whatever the thresholds. */
  lemma VerdictMonotone(a: int, b: int, t: Thresholds)
    requires a <= b
    ensures var v, w := AssignVerdict(a, t), AssignVerdict(b, t);
            && (v == HighlyRecommended ==> w == HighlyRecommended)
            && (v == Shortlist ==> w == Shortlist || w == HighlyRecommended)
            && (v == Hold ==> w != AutoReject)
            && Rank(v) <= Rank(w)
    ensures Rank(AutoReject) < Rank(Hold) < Rank(Shortlist) < Rank(HighlyRecommended)
  {
  }

  // ----- scoring.py -----

  datatype Dimension = Dimension(name: string, score: int)

  /** The profile's weights, in their dictionary order. */
  datatype Share = Share(name: string, weight: int)

  function WeightSum(weights: seq<Share>): (sum: int) {
    if weights == [] then 0 else WeightSum(weights[..|weights| - 1]) + weights[|weights| - 1].weight
  }

  function NameOf(share: Share): (name: string) {
    share.name
  }

  function NamesOf(weights: seq<Share>): (names: set<string>) {
    set w | w in weights :: w.name
  }

  /** What profile creation demands; known are the seven dimension names. */
  predicate ValidProfile(weights: seq<Share>, known: set<string>) {
    NamesOf(weights) == known && (forall w | w in weights :: w.weight >= 0) && WeightSum(weights) > 0
  }

  method ValidateProfile(weights: seq<Share>, known: set<string>) returns (ok: bool)
    requires DistinctBy(weights, NameOf)
    ensures ok <==> ValidProfile(weights, known)
    ensures ok <==> && (forall w | w in weights :: w.name in known && w.weight >= 0)
                    && (forall name | name in known :: exists w :: w in weights && w.name == name)
                    && WeightSum(weights) > 0
  {
    if NamesOf(weights) - known != {} || known - NamesOf(weights) != {} {
      return false;
    }
    for i := 0 to |weights|
      invariant forall j | 0 <= j < i :: weights[j].weight >= 0
    {
      if weights[i].weight < 0 {
        assert weights[i] in weights;
        return false;
      }
    }
    ok := WeightSum(weights) > 0;
  }

  /** by_name: the last dimension of a name wins. */
  function ScoreFor(dimensions: seq<Dimension>, name: string): (score: Option<int>) {
    if dimensions == [] then None
    else if dimensions[|dimensions| - 1].name == name then Some(dimensions[|dimensions| - 1].score)
    else ScoreFor(dimensions[..|dimensions| - 1], name)
  }

  /** The score of a name is that of its last dimension, and there is none exactly without such a dimension. */
  lemma {:induction false} ScoreForIs(dimensions: seq<Dimension>, name: string)
    ensures ScoreFor(dimensions, name).None? <==> forall d | d in dimensions :: d.name != name
    ensures forall i | 0 <= i < |dimensions| && dimensions[i].name == name
                       && (forall j | i < j < |dimensions| :: dimensions[j].name != name) ::
              ScoreFor(dimensions, name) == Some(dimensions[i].score)
  {
    if dimensions != [] {
      var k := |dimensions| - 1;
      assert dimensions == dimensions[..k] + [dimensions[k]];
      ScoreForIs(dimensions[..k], name);
    }
  }

  function Total(dimensions: seq<Dimension>, weights: seq<Share>, sum: int): (total: real)
    requires sum > 0
  {
    if weights == [] then 0.0
    else
      var w := weights[|weights| - 1];
      var score := ScoreFor(dimensions, w.name);
      Total(dimensions, weights[..|weights| - 1], sum)
      + if score.Some? then score.value as real * (w.weight as real / sum as real) else 0.0
  }

  function Covered(dimensions: seq<Dimension>, weights: seq<Share>, sum: int): (covered: real)
    requires sum > 0
  {
    if weights == [] then 0.0
    else
      var w := weights[|weights| - 1];
      Covered(dimensions, weights[..|weights| - 1], sum)
      + if ScoreFor(dimensions, w.name).Some? then w.weight as real / sum as real else 0.0
  }

  /** None is the ValueError, for a weight sum that is not positive or for missing dimensions. */
  method ComputeTotalScore(dimensions: seq<Dimension>, weights: seq<Share>) returns (r: Option<int>)
    requires DistinctBy(weights, NameOf)
    ensures r.None? <==> WeightSum(weights) <= 0 || Covered(dimensions, weights, WeightSum(weights)) < 0.999
    ensures r.Some? ==> r.value == Round(Total(dimensions, weights, WeightSum(weights)))
  {
    var sum := WeightSum(weights);
    if sum <= 0 {
      return None;
    }
    var total, covered := 0.0, 0.0;
    for i := 0 to |weights|
      invariant total == Total(dimensions, weights[..i], sum)
      invariant covered == Covered(dimensions, weights[..i], sum)
    {
      assert weights[..i + 1][..i] == weights[..i];
      var share := weights[i].weight as real / sum as real;
      var score := ScoreFor(dimensions, weights[i].name);
      if score.None? {
        continue;
      }
      total := total + score.value as real * share;
      covered := covered + share;
    }
    assert weights[..|weights|] == weights;
    if covered < 0.999 {
      return None;
    }
    r := Some(Round(total));
  }

  // ----- a complete set of dimensions -----

  predicate Complete(dimensions: seq<Dimension>, weights: seq<Share>) {
    forall w | w in weights :: w.weight >= 0 && ScoreFor(dimensions, w.name).Some?
  }

  function Parts(dimensions: seq<Dimension>, weights: seq<Share>): (parts: seq<Part>)
    requires Complete(dimensions, weights)
  {
    seq(|weights|, i requires 0 <= i < |weights| =>
      assert weights[i] in weights;
      Part(ScoreFor(dimensions, weights[i].name).value, weights[i].weight))
  }

  lemma OneMoreShare(points: int, score: int, weight: int, sum: int)
    requires sum > 0
    ensures points as real / sum as real + score as real * (weight as real / sum as real)
         == (points + score * weight) as real / sum as real
  {
    var s := sum as real;
    assert (score * weight) as real == score as real * weight as real;
    assert score as real * (weight as real / s) == (score as real * weight as real) / s;
  }

  lemma PartsOneMore(dimensions: seq<Dimension>, weights: seq<Share>)
    requires Complete(dimensions, weights) && weights != []
    ensures var k := |weights| - 1;
            var w := weights[k];
            && w.weight >= 0 && ScoreFor(dimensions, w.name).Some? && Complete(dimensions, weights[..k])
            && Parts(dimensions, weights)
               == Parts(dimensions, weights[..k]) + [Part(ScoreFor(dimensions, w.name).value, w.weight)]
  {
    assert weights[|weights| - 1] in weights;
  }

  lemma SumsOneMore(parts: seq<Part>, p: Part)
    ensures Points(parts + [p]) == Points(parts) + p.score * p.weight && Weight(parts + [p]) == Weight(parts) + p.weight
  {
    assert (parts + [p])[..|parts|] == parts;
  }

  lemma {:induction false} TotalIsQuotient(dimensions: seq<Dimension>, weights: seq<Share>, sum: int)
    requires sum > 0 && Complete(dimensions, weights)
    ensures var parts := Parts(dimensions, weights);
            && Total(dimensions, weights, sum) == Points(parts) as real / sum as real
            && Covered(dimensions, weights, sum) == Weight(parts) as real / sum as real
            && Weight(parts) == WeightSum(weights)
  {
    if weights != [] {
      var k := |weights| - 1;
      PartsOneMore(dimensions, weights);
      TotalIsQuotient(dimensions, weights[..k], sum);
      var before, p := Parts(dimensions, weights[..k]), Parts(dimensions, weights)[k];
      SumsOneMore(before, p);
      OneMoreShare(Points(before), p.score, p.weight, sum);
      OneMoreShare(Weight(before), 1, p.weight, sum);
    }
  }

  lemma SelfQuotient(x: real)
    requires x > 0.0
    ensures x / x == 1.0
  {
  }

  /** With every dimension present the loop's total is the weighted mean, and it is accepted. */
  lemma TotalIsMean(dimensions: seq<Dimension>, weights: seq<Share>)
    requires Complete(dimensions, weights) && WeightSum(weights) > 0
    ensures var sum, parts := WeightSum(weights), Parts(dimensions, weights);
            && Weight(parts) > 0 && Total(dimensions, weights, sum) == Mean(parts)
            && Covered(dimensions, weights, sum) == 1.0
  {
    TotalIsQuotient(dimensions, weights, WeightSum(weights));
    SelfQuotient(WeightSum(weights) as real);
  }

  function Score(dimensions: seq<Dimension>, weights: seq<Share>): (score: int)
    requires WeightSum(weights) > 0
  {
    Round(Total(dimensions, weights, WeightSum(weights)))
  }

  /** The total lies between the lowest and the highest score. */
  lemma ScoreBetween(dimensions: seq<Dimension>, weights: seq<Share>, lo: int, hi: int)
    requires Complete(dimensions, weights) && WeightSum(weights) > 0
    requires forall w | w in weights :: lo <= ScoreFor(dimensions, w.name).value <= hi
    ensures lo <= Score(dimensions, weights) <= hi
  {
    var parts := Parts(dimensions, weights);
    TotalIsMean(dimensions, weights);
    forall p | p in parts ensures lo <= p.score <= hi {
      var i :| 0 <= i < |parts| && parts[i] == p;
      assert weights[i] in weights;
    }
    MeanBetween(parts, lo, hi);
  }

  /** Raising scores never lowers the total, nor the verdict, whatever the thresholds. */
  lemma ScoreMonotone(dimensions: seq<Dimension>, dimensions': seq<Dimension>, weights: seq<Share>, t: Thresholds)
    requires Complete(dimensions, weights) && Complete(dimensions', weights) && WeightSum(weights) > 0
    requires forall w | w in weights :: ScoreFor(dimensions, w.name).value <= ScoreFor(dimensions', w.name).value
    ensures Score(dimensions, weights) <= Score(dimensions', weights)
    ensures Rank(AssignVerdict(Score(dimensions, weights), t)) <= Rank(AssignVerdict(Score(dimensions', weights), t))
  {
    TotalIsMean(dimensions, weights);
    TotalIsMean(dimensions', weights);
    var parts, parts' := Parts(dimensions, weights), Parts(dimensions', weights);
    forall i | 0 <= i < |parts| ensures parts[i].score <= parts'[i].score {
      assert weights[i] in weights;
    }
    MeanMonotone(parts, parts');
  }

  function ScaleWeights(weights: seq<Share>, c: nat): (scaled: seq<Share>) {
    seq(|weights|, i requires 0 <= i < |weights| => Share(weights[i].name, c * weights[i].weight))
  }

  /** Scaling all the weights leaves the total as it was. */
  lemma ScoreScaled(dimensions: seq<Dimension>, weights: seq<Share>, c: nat)
    requires Complete(dimensions, weights) && WeightSum(weights) > 0 && c > 0
    ensures var scaled := ScaleWeights(weights, c);
            && Complete(dimensions, scaled) && WeightSum(scaled) > 0
            && Score(dimensions, scaled) == Score(dimensions, weights)
  {
    var scaled := ScaleWeights(weights, c);
    var parts := Parts(dimensions, weights);
    forall w | w in scaled ensures w.weight >= 0 && ScoreFor(dimensions, w.name).Some? {
      var i :| 0 <= i < |scaled| && scaled[i] == w;
      assert weights[i] in weights;
    }
    assert Parts(dimensions, scaled) == Scale(parts, c);
    TotalIsMean(dimensions, weights);
    MeanScaled(parts, c);
    TotalIsQuotient(dimensions, scaled, 1);
    TotalIsMean(dimensions, scaled);
  }

  // ----- evaluation_engine.py -----

  datatype Component = Component(name: string, score: int)

  /** A component of an unrecognised name weighs nothing. */
  function ComponentWeight(name: string): (w: nat) {
    if name == "resume" then 40
    else if name == "questionnaire" then 15
    else if name == "interview" then 30
    else if name == "coding" then 15
    else 0
  }

  /** The four weights, and the three thresholds. */
  lemma WeightsAre(name: string)
    ensures ComponentWeight("resume") == 40 && ComponentWeight("questionnaire") == 15
    ensures ComponentWeight("interview") == 30 && ComponentWeight("coding") == 15
    ensures name != "resume" && name != "questionnaire" && name != "interview" && name != "coding" ==>
              ComponentWeight(name) == 0
    ensures EvaluationThresholds() == Thresholds(30, 50, 85)
  {
    assert |"resume"| == 6 && |"questionnaire"| == 13 && |"interview"| == 9 && |"coding"| == 6;
    assert "resume"[0] == 'r' && "coding"[0] == 'c';
  }

  function ComponentParts(components: seq<Component>): (parts: seq<Part>) {
    seq(|components|, i requires 0 <= i < |components| =>
      Part(components[i].score, ComponentWeight(components[i].name)))
  }

  function EvaluationThresholds(): (t: Thresholds) {
    Thresholds(30, 50, 85)
  }

  /** None is the ValueError: no recognised component. */
  method ComputeOverall(components: seq<Component>) returns (r: Option<(int, Verdict)>)
    ensures r.None? <==> forall c | c in components :: ComponentWeight(c.name) == 0
    ensures r.Some? ==> Weight(ComponentParts(components)) > 0
                        && r.value.0 == Overall(components)
                        && r.value.1 == AssignVerdict(r.value.0, EvaluationThresholds())
  {
    var weightedTotal, totalWeight := 0, 0;
    ghost var parts := ComponentParts(components);
    for i := 0 to |components|
      invariant weightedTotal == Points(parts[..i]) && totalWeight == Weight(parts[..i])
    {
      assert parts[..i + 1][..i] == parts[..i];
      var weight := ComponentWeight(components[i].name);
      weightedTotal := weightedTotal + components[i].score * weight;
      totalWeight := totalWeight + weight;
    }
    assert parts[..|components|] == parts;
    NoWeightIff(components);
    if totalWeight <= 0 {
      return None;
    }
    var overall := Round(weightedTotal as real / totalWeight as real);
    r := Some((overall, AssignVerdict(overall, EvaluationThresholds())));
  }

  lemma {:induction false} NoWeightIff(components: seq<Component>)
    ensures Weight(ComponentParts(components)) == 0 <==> forall c | c in components :: ComponentWeight(c.name) == 0
  {
    if components != [] {
      var k := |components| - 1;
      NoWeightIff(components[..k]);
      assert ComponentParts(components)[..k] == ComponentParts(components[..k]);
      assert components == components[..k] + [components[k]];
    }
  }

  function Overall(components: seq<Component>): (score: int)
    requires Weight(ComponentParts(components)) > 0
  {
    Round(Mean(ComponentParts(components)))
  }

  /** The overall score lies between the recognised components' scores, whichever are present. */
  lemma OverallBetween(components: seq<Component>, lo: int, hi: int)
    requires Weight(ComponentParts(components)) > 0
    requires forall c | c in components && ComponentWeight(c.name) > 0 :: lo <= c.score <= hi
    ensures lo <= Overall(components) <= hi
  {
    var parts := ComponentParts(components);
    forall p | p in parts && p.weight > 0 ensures lo <= p.score <= hi {
      var i :| 0 <= i < |parts| && parts[i] == p;
      assert components[i] in components;
    }
    MeanBetween(parts, lo, hi);
  }

  /** Components of unrecognised names change nothing. */
  lemma UnrecognisedIgnored(components: seq<Component>, extra: Component)
    requires ComponentWeight(extra.name) == 0 && Weight(ComponentParts(components)) > 0
    ensures Weight(ComponentParts(components + [extra])) > 0 && Overall(components + [extra]) == Overall(components)
  {
    assert ComponentParts(components + [extra])[..|components|] == ComponentParts(components);
  }

  /** Raising component scores never lowers the overall score or the verdict. */
  lemma OverallMonotone(components: seq<Component>, components': seq<Component>)
    requires Weight(ComponentParts(components)) > 0 && |components| == |components'|
    requires forall i | 0 <= i < |components| ::
               components[i].name == components'[i].name && components[i].score <= components'[i].score
    ensures Weight(ComponentParts(components')) > 0 && Overall(components) <= Overall(components')
    ensures Rank(AssignVerdict(Overall(components), EvaluationThresholds()))
         <= Rank(AssignVerdict(Overall(components'), EvaluationThresholds()))
  {
    MeanMonotone(ComponentParts(components), ComponentParts(components'));
  }
}

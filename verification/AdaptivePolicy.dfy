// Adaptive limits and strategy weights.
module AdaptivePolicy {
  import opened Common

  // ----- Limits -----

  datatype Policy = Policy(total: nat, successes: nat, deltas: seq<real>, impactThreshold: int, maxAuto: int)

  function Clamp(value: int, minimum: int, maximum: int): int {
    Min(Max(value, minimum), maximum)
  }

  function InitialPolicy(impactThreshold: int, maxAuto: int): Policy {
    Policy(0, 0, [], Clamp(impactThreshold, 4, 8), Clamp(maxAuto, 1, 5))
  }

  function Sum(deltas: seq<real>): real {
    if deltas == [] then 0.0 else Sum(deltas[..|deltas| - 1]) + deltas[|deltas| - 1]
  }

  function SuccessRate(p: Policy): real {
    if p.total == 0 then 0.0 else p.successes as real / p.total as real
  }

  function AverageDelta(p: Policy): real {
    if p.deltas == [] then 0.0 else Sum(p.deltas) / |p.deltas| as real
  }

  /** Both limits after one step under this success rate and this average delta. */
  function Adjusted(p: Policy, rate: real, average: real): Policy {
    var threshold := if rate > 0.7 then p.impactThreshold - 1
                     else if rate < 0.4 then p.impactThreshold + 1
                     else p.impactThreshold;
    var budget := if average > 100.0 then p.maxAuto + 1
                  else if average < 0.0 then p.maxAuto - 1
                  else p.maxAuto;
    p.(impactThreshold := Clamp(threshold, 4, 8), maxAuto := Clamp(budget, 1, 5))
  }

  function Recomputed(p: Policy): Policy {
    Adjusted(p, SuccessRate(p), AverageDelta(p))
  }

  function Counted(p: Policy, delta: real): Policy {
    p.(total := p.total + 1, successes := p.successes + (if delta > 0.0 then 1 else 0), deltas := p.deltas + [delta])
  }

  function Recorded(p: Policy, delta: real): Policy {
    Recomputed(Counted(p, delta))
  }

  function RecordedAll(p: Policy, deltas: seq<real>): Policy {
    if deltas == [] then p else Recorded(RecordedAll(p, deltas[..|deltas| - 1]), deltas[|deltas| - 1])
  }

  function Successes(deltas: seq<real>): nat {
    if deltas == [] then 0
    else Successes(deltas[..|deltas| - 1]) + if deltas[|deltas| - 1] > 0.0 then 1 else 0
  }

  ghost predicate WithinLimits(p: Policy) {
    4 <= p.impactThreshold <= 8 && 1 <= p.maxAuto <= 5
  }

  lemma AdjustedBounds(p: Policy, rate: real, average: real)
    requires WithinLimits(p)
    ensures var q := Adjusted(p, rate, average);
            && WithinLimits(q) && q.total == p.total && q.successes == p.successes && q.deltas == p.deltas
            && -1 <= q.impactThreshold - p.impactThreshold <= 1 && -1 <= q.maxAuto - p.maxAuto <= 1
  {
  }

  /** One outcome is counted, and moves each limit by at most one within its range. */
  lemma RecordedBounds(p: Policy, delta: real)
    requires WithinLimits(p)
    ensures var q, c := Recorded(p, delta), Counted(p, delta);
            && WithinLimits(q) && q.total == c.total && q.successes == c.successes && q.deltas == c.deltas
            && -1 <= q.impactThreshold - p.impactThreshold <= 1 && -1 <= q.maxAuto - p.maxAuto <= 1
  {
    var c := Counted(p, delta);
    AdjustedBounds(c, SuccessRate(c), AverageDelta(c));
  }

  lemma {:induction false} AnyOutcomesWithinLimits(start: Policy, deltas: seq<real>)
    requires WithinLimits(start)
    ensures WithinLimits(RecordedAll(start, deltas))
    decreases |deltas|
  {
    if deltas != [] {
      var n := |deltas| - 1;
      AnyOutcomesWithinLimits(start, deltas[..n]);
      RecordedBounds(RecordedAll(start, deltas[..n]), deltas[n]);
    }
  }

  /** The limits are in range and the counters are those of these outcomes. */
  ghost predicate CountsOutcomes(p: Policy, deltas: seq<real>) {
    WithinLimits(p) && p.total == |deltas| && p.deltas == deltas && p.successes == Successes(deltas)
  }

  ghost predicate OneStepApart(before: Policy, after: Policy) {
    -1 <= after.impactThreshold - before.impactThreshold <= 1 && -1 <= after.maxAuto - before.maxAuto <= 1
  }

  lemma OneMoreOutcome(p: Policy, deltas: seq<real>, delta: real)
    requires CountsOutcomes(p, deltas)
    ensures CountsOutcomes(Recorded(p, delta), deltas + [delta]) && OneStepApart(p, Recorded(p, delta))
  {
    RecordedBounds(p, delta);
    assert (deltas + [delta])[..|deltas|] == deltas;
  }

  lemma {:induction false} OutcomesCounted(start: Policy, deltas: seq<real>)
    requires CountsOutcomes(start, [])
    ensures CountsOutcomes(RecordedAll(start, deltas), deltas)
    decreases |deltas|
  {
    if deltas != [] {
      var n := |deltas| - 1;
      OutcomesCounted(start, deltas[..n]);
      OneMoreOutcome(RecordedAll(start, deltas[..n]), deltas[..n], deltas[n]);
      assert deltas[..n] + [deltas[n]] == deltas;
    }
  }

  /** Over any outcomes the limits stay in range, the counters mean what they say, and one outcome
      moves each limit by at most one. */
  lemma LimitsStayInRange(impactThreshold: int, maxAuto: int, deltas: seq<real>, next: real)
    ensures var p := RecordedAll(InitialPolicy(impactThreshold, maxAuto), deltas);
            CountsOutcomes(p, deltas) && OneStepApart(p, Recorded(p, next))
  {
    var start := InitialPolicy(impactThreshold, maxAuto);
    OutcomesCounted(start, deltas);
    OneMoreOutcome(RecordedAll(start, deltas), deltas, next);
  }

  function Zeros(n: nat): seq<real> {
    seq(n, _ => 0.0)
  }

  lemma {:induction false} ZeroSum(n: nat)
    ensures Sum(Zeros(n)) == 0.0
  {
    if n > 0 {
      ZeroSum(n - 1);
      assert Zeros(n)[..n - 1] == Zeros(n - 1);
    }
  }

  /** After `n` outcomes without revenue. */
  ghost predicate NeutralAfter(start: Policy, p: Policy, n: nat) {
    && p.impactThreshold == Min(8, start.impactThreshold + n)
    && p.maxAuto == start.maxAuto && p.successes == 0 && p.deltas == Zeros(n)
  }

  /** Automatic executions report no revenue, so on their own they drive the threshold to its maximum. */
  lemma {:induction false} NeutralOutcomesRaiseThreshold(start: Policy, n: nat)
    requires WithinLimits(start) && start.successes == 0 && start.deltas == []
    ensures NeutralAfter(start, RecordedAll(start, Zeros(n)), n)
  {
    if n > 0 {
      NeutralOutcomesRaiseThreshold(start, n - 1);
      NeutralStep(start, RecordedAll(start, Zeros(n - 1)), n - 1);
      assert Zeros(n)[..n - 1] == Zeros(n - 1);
    }
  }

  lemma NeutralStep(start: Policy, p: Policy, n: nat)
    requires WithinLimits(start) && NeutralAfter(start, p, n)
    ensures NeutralAfter(start, Recorded(p, 0.0), n + 1)
  {
    var q := Counted(p, 0.0);
    assert q.deltas == Zeros(n + 1);
    ZeroSum(n + 1);
    RatioEnds(q.total);
    RatioEnds(|q.deltas|);
    assert SuccessRate(q) == 0.0 && AverageDelta(q) == 0.0;
    NeutralAdjustment(q);
  }

  lemma NeutralAdjustment(p: Policy)
    requires WithinLimits(p)
    ensures Adjusted(p, 0.0, 0.0) == p.(impactThreshold := Min(8, p.impactThreshold + 1))
  {
  }

  predicate Steady(delta: real, gains: bool) {
    if gains then delta > 100.0 else delta < 0.0
  }

  ghost predicate AllSteady(deltas: seq<real>, gains: bool) {
    forall i | 0 <= i < |deltas| :: Steady(deltas[i], gains)
  }

  /** Steady large gains loosen both limits to their ends; steady losses tighten both. */
  lemma {:induction false} SteadyOutcomesMoveLimits(start: Policy, deltas: seq<real>, gains: bool)
    requires WithinLimits(start) && start.total == start.successes == 0 && start.deltas == []
    requires AllSteady(deltas, gains)
    ensures SteadyAfter(start, RecordedAll(start, deltas), deltas, gains)
  {
    if deltas != [] {
      var n := |deltas| - 1;
      SteadyOutcomesMoveLimits(start, deltas[..n], gains);
      SteadyAverage(deltas, gains);
      assert deltas[..n] + [deltas[n]] == deltas && Steady(deltas[n], gains);
      SteadyStep(start, RecordedAll(start, deltas[..n]), deltas[..n], deltas[n], gains);
    }
  }

  /** Each limit has moved by one per outcome, until its end. */
  ghost predicate SteadyAfter(start: Policy, p: Policy, deltas: seq<real>, gains: bool) {
    var n := |deltas|;
    && p.impactThreshold == (if gains then Max(4, start.impactThreshold - n) else Min(8, start.impactThreshold + n))
    && p.maxAuto == (if gains then Min(5, start.maxAuto + n) else Max(1, start.maxAuto - n))
    && p.total == n && p.successes == (if gains then n else 0) && p.deltas == deltas
  }

  lemma {:induction false} SteadySum(deltas: seq<real>, gains: bool)
    requires AllSteady(deltas, gains) && deltas != []
    ensures if gains then Sum(deltas) > 100.0 * |deltas| as real else Sum(deltas) < 0.0
  {
    var n := |deltas| - 1;
    assert Steady(deltas[n], gains);
    if n > 0 {
      SteadySum(deltas[..n], gains);
    }
  }

  lemma SteadyAverage(deltas: seq<real>, gains: bool)
    requires AllSteady(deltas, gains) && deltas != []
    ensures Steady(Sum(deltas) / |deltas| as real, gains)
  {
    SteadySum(deltas, gains);
    QuotientBounds(Sum(deltas), |deltas| as real);
  }

  lemma QuotientBounds(sum: real, n: real)
    requires n > 0.0
    ensures sum > 100.0 * n ==> sum / n > 100.0
    ensures sum < 0.0 ==> sum / n < 0.0
  {
    var q := sum / n;
    assert q * n == sum;
    if q < 100.0 {
      MulLess(q, 100.0, n);
    }
    if 0.0 < q {
      MulLess(0.0, q, n);
    }
  }

  lemma SteadyStep(start: Policy, p: Policy, deltas: seq<real>, delta: real, gains: bool)
    requires WithinLimits(start) && SteadyAfter(start, p, deltas, gains) && Steady(delta, gains)
    requires Steady(Sum(deltas + [delta]) / |deltas + [delta]| as real, gains)
    ensures SteadyAfter(start, Recorded(p, delta), deltas + [delta], gains)
  {
    var q := Counted(p, delta);
    RatioEnds(q.total);
    assert q.deltas == deltas + [delta] && AverageDelta(q) == Sum(q.deltas) / |q.deltas| as real;
  }

  lemma RatioEnds(n: nat)
    requires n > 0
    ensures n as real / n as real == 1.0 && 0 as real / n as real == 0.0
  {
  }

  // ----- What one outcome does -----

  lemma QuotientVersus(a: real, n: real, c: real)
    requires n > 0.0
    ensures a / n > c <==> a > c * n
    ensures a / n < c <==> a < c * n
  {
    var q := a / n;
    assert q * n == a;
    if q < c {
      MulLess(q, c, n);
    } else if c < q {
      MulLess(c, q, n);
    }
  }

  lemma RateVersus(successes: nat, total: nat, tenths: nat)
    requires total > 0
    ensures successes as real / total as real > tenths as real / 10.0 <==> 10 * successes > tenths * total
    ensures successes as real / total as real < tenths as real / 10.0 <==> 10 * successes < tenths * total
  {
    QuotientVersus(successes as real, total as real, tenths as real / 10.0);
    assert 10.0 * (tenths as real / 10.0 * total as real) == (tenths * total) as real;
  }

  lemma SumOneMore(deltas: seq<real>, delta: real)
    ensures Sum([]) == 0.0 && Sum(deltas + [delta]) == Sum(deltas) + delta
  {
    assert (deltas + [delta])[..|deltas|] == deltas;
  }

  /** How far the impact threshold moves: down above seven successes in ten, up below four. */
  function ThresholdMove(successes: nat, total: nat): int {
    if 10 * successes > 7 * total then -1 else if 10 * successes < 4 * total then 1 else 0
  }

  /** How far the budget moves: up when the deltas average more than a hundred, down when they lose. */
  function BudgetMove(sum: real, count: nat): int {
    if sum > 100.0 * count as real then 1 else if sum < 0.0 then -1 else 0
  }

  lemma MovesAre(p: Policy)
    requires p.total > 0 && p.deltas != []
    ensures Recomputed(p).impactThreshold == Clamp(p.impactThreshold + ThresholdMove(p.successes, p.total), 4, 8)
    ensures Recomputed(p).maxAuto == Clamp(p.maxAuto + BudgetMove(Sum(p.deltas), |p.deltas|), 1, 5)
  {
    RateVersus(p.successes, p.total, 7);
    RateVersus(p.successes, p.total, 4);
    QuotientVersus(Sum(p.deltas), |p.deltas| as real, 100.0);
    QuotientVersus(Sum(p.deltas), |p.deltas| as real, 0.0);
  }

  /** One recorded outcome: both counters first; then each limit moves by what all outcomes so far say, and
      stays in its range. */
  lemma OutcomeMeans(p: Policy, delta: real)
    ensures var q := Recorded(p, delta);
            var successes := p.successes + if delta > 0.0 then 1 else 0;
            var threshold := p.impactThreshold + ThresholdMove(successes, p.total + 1);
            var budget := p.maxAuto + BudgetMove(Sum(p.deltas) + delta, |p.deltas| + 1);
            && q.total == p.total + 1 && q.successes == successes && q.deltas == p.deltas + [delta]
            && q.impactThreshold == (if threshold < 4 then 4 else if threshold > 8 then 8 else threshold)
            && q.maxAuto == if budget < 1 then 1 else if budget > 5 then 5 else budget
  {
    SumOneMore(p.deltas, delta);
    MovesAre(Counted(p, delta));
  }

  lemma InitialPolicyMeans(impactThreshold: int, maxAuto: int)
    ensures var p := InitialPolicy(impactThreshold, maxAuto);
            && p.total == 0 && p.successes == 0 && p.deltas == []
            && SuccessRate(p) == 0.0 && AverageDelta(p) == 0.0
            && p.impactThreshold
                 == (if impactThreshold < 4 then 4 else if impactThreshold > 8 then 8 else impactThreshold)
            && p.maxAuto == if maxAuto < 1 then 1 else if maxAuto > 5 then 5 else maxAuto
  {
  }

  // ----- Weights -----

  datatype Metrics = Metrics(kind: string, decisions: nat, score: real)

  const MIN_WEIGHT := 0.1
  const MAX_WEIGHT := 3.0
  const MIN_DECISIONS := 5

  function Eligible(performance: seq<Metrics>): seq<Metrics> {
    if performance == [] then []
    else Eligible(performance[..|performance| - 1])
         + if performance[|performance| - 1].decisions >= MIN_DECISIONS
           then [performance[|performance| - 1]] else []
  }

  function MaxScore(ms: seq<Metrics>): (m: real)
    requires ms != []
    ensures forall x | x in ms :: x.score <= m
  {
    var last := ms[|ms| - 1].score;
    if |ms| == 1 then last
    else
      assert ms == ms[..|ms| - 1] + [ms[|ms| - 1]];
      var m := MaxScore(ms[..|ms| - 1]);
      if m < last then last else m
  }

  function Normalised(score: real, maxScore: real): real {
    if maxScore <= 0.0 then 0.0 else score / maxScore
  }

  function Blend(weight: real, score: real): real {
    var mixed := weight * 0.7 + score * 0.3;
    var capped := if mixed < MAX_WEIGHT then mixed else MAX_WEIGHT;
    if MIN_WEIGHT < capped then capped else MIN_WEIGHT
  }

  /** A missing or zero weight counts as one. */
  function WeightOf(weights: map<string, real>, kind: string): real {
    if kind in weights && weights[kind] != 0.0 then weights[kind] else 1.0
  }

  ghost predicate DistinctKinds(ms: seq<Metrics>) {
    forall i, j | 0 <= i < j < |ms| :: ms[i].kind != ms[j].kind
  }

  /** What a weight with this normalised score is drawn to. */
  function Target(score: real): real {
    if score < MIN_WEIGHT then MIN_WEIGHT else score
  }

  ghost predicate NoneOfKind(ms: seq<Metrics>, kind: string) {
    forall m | m in ms :: m.kind != kind
  }

  ghost predicate SameWeight(before: map<string, real>, after: map<string, real>, kind: string) {
    (kind in after <==> kind in before) && (kind in after ==> after[kind] == before[kind])
  }

  /** The kind's new weight mixes its old one with its score relative to the best. */
  ghost predicate Blended(before: map<string, real>, after: map<string, real>, m: Metrics, top: real) {
    m.kind in after && after[m.kind] == Blend(WeightOf(before, m.kind), Normalised(m.score, top))
  }

  /** Every eligible weight blended in turn. */
  function Reweighed(weights: map<string, real>, eligible: seq<Metrics>, top: real): map<string, real> {
    if eligible == [] then weights
    else
      var before, m := Reweighed(weights, eligible[..|eligible| - 1], top), eligible[|eligible| - 1];
      before[m.kind := Blend(WeightOf(before, m.kind), Normalised(m.score, top))]
  }

  function Refreshed(weights: map<string, real>, performance: seq<Metrics>): map<string, real> {
    var eligible := Eligible(performance);
    if eligible == [] then weights else Reweighed(weights, eligible, MaxScore(eligible))
  }

  class AdaptivePolicyEngine {
    var policy: Policy
    var weights: map<string, real>

    constructor (impactThreshold: int, maxAuto: int, weights: map<string, real>)
      ensures policy == InitialPolicy(impactThreshold, maxAuto) && this.weights == weights
    {
      policy := InitialPolicy(impactThreshold, maxAuto);
      this.weights := weights;
    }

    method RecordActionOutcome(delta: real)
      modifies this`policy
      ensures policy == Recorded(old(policy), delta)
    {
      policy := policy.(total := policy.total + 1);
      if delta > 0.0 {
        policy := policy.(successes := policy.successes + 1);
      }
      policy := policy.(deltas := policy.deltas + [delta]);
      policy := Recomputed(policy);
    }

    method RefreshStrategyWeights(performance: seq<Metrics>)
      requires DistinctKinds(performance)
      modifies this`weights
      ensures weights == Refreshed(old(weights), performance)
      ensures forall kind | NoneOfKind(Eligible(performance), kind) :: SameWeight(old(weights), weights, kind)
      ensures forall m | m in Eligible(performance) ::
                Blended(old(weights), weights, m, MaxScore(Eligible(performance)))
    {
      RefreshedEntries(weights, performance);
      var eligible := Eligible(performance);
      if eligible != [] {
        weights := Reweigh(eligible, MaxScore(eligible));
      }
    }

    method Reweigh(eligible: seq<Metrics>, top: real) returns (updated: map<string, real>)
      ensures updated == Reweighed(weights, eligible, top)
    {
      updated := weights;
      for i := 0 to |eligible|
        invariant updated == Reweighed(weights, eligible[..i], top)
      {
        assert eligible[..i + 1][..i] == eligible[..i];
        var m := eligible[i];
        updated := updated[m.kind := Blend(WeightOf(updated, m.kind), Normalised(m.score, top))];
      }
      assert eligible[..|eligible|] == eligible;
    }
  }

  /** Since kinds are distinct, every eligible weight is blended exactly once and no other changes. */
  lemma {:induction false} ReweighedEntries(weights: map<string, real>, eligible: seq<Metrics>, top: real)
    requires DistinctKinds(eligible)
    ensures var after := Reweighed(weights, eligible, top);
            && (forall m | m in eligible :: Blended(weights, after, m, top))
            && (forall kind | NoneOfKind(eligible, kind) :: SameWeight(weights, after, kind))
  {
    if eligible != [] {
      var n := |eligible| - 1;
      var before, after, last := Reweighed(weights, eligible[..n], top), Reweighed(weights, eligible, top), eligible[n];
      ReweighedEntries(weights, eligible[..n], top);
      assert NoneOfKind(eligible[..n], last.kind);
      assert SameWeight(weights, before, last.kind);
      forall m | m in eligible ensures Blended(weights, after, m, top) {
        if m != last {
          assert m in eligible[..n] && Blended(weights, before, m, top);
        }
      }
      forall kind | NoneOfKind(eligible, kind) ensures SameWeight(weights, after, kind) {
        assert last in eligible && NoneOfKind(eligible[..n], kind);
        assert SameWeight(weights, before, kind);
      }
    }
  }

  lemma RefreshedEntries(weights: map<string, real>, performance: seq<Metrics>)
    requires DistinctKinds(performance)
    ensures var after := Refreshed(weights, performance);
            && (forall m | m in Eligible(performance) ::
                  Blended(weights, after, m, MaxScore(Eligible(performance))))
            && (forall kind | NoneOfKind(Eligible(performance), kind) :: SameWeight(weights, after, kind))
  {
    EligibleDistinct(performance);
    var eligible := Eligible(performance);
    if eligible != [] {
      ReweighedEntries(weights, eligible, MaxScore(eligible));
    }
  }

  lemma {:induction false} EligibleDistinct(performance: seq<Metrics>)
    requires DistinctKinds(performance)
    ensures DistinctKinds(Eligible(performance))
    ensures forall m | m in Eligible(performance) :: m in performance
  {
    if performance != [] {
      var n := |performance| - 1;
      EligibleDistinct(performance[..n]);
      forall m | m in Eligible(performance[..n]) ensures m.kind != performance[n].kind {
        var j :| 0 <= j < n && performance[j] == m;
      }
    }
  }

  lemma {:induction false} EligibleIff(performance: seq<Metrics>, m: Metrics)
    ensures m in Eligible(performance) <==> m in performance && m.decisions >= 5
  {
    if performance != [] {
      var n := |performance| - 1;
      EligibleIff(performance[..n], m);
      assert performance == performance[..n] + [performance[n]];
    }
  }

  lemma {:induction false} MaxScoreReached(ms: seq<Metrics>, best: Metrics)
    requires best in ms && forall m | m in ms :: m.score <= best.score
    ensures MaxScore(ms) == best.score
  {
    var n := |ms| - 1;
    assert ms == ms[..n] + [ms[n]];
    if best in ms[..n] {
      MaxScoreReached(ms[..n], best);
    } else {
      assert best == ms[n];
      if n > 0 {
        MaxScoreAttained(ms[..n]);
      }
    }
  }

  lemma {:induction false} MaxScoreAttained(ms: seq<Metrics>)
    requires ms != []
    ensures exists m | m in ms :: m.score == MaxScore(ms)
  {
    var n := |ms| - 1;
    assert ms == ms[..n] + [ms[n]];
    if n > 0 {
      MaxScoreAttained(ms[..n]);
    }
    assert ms[n] in ms;
  }

  /** The weight of a kind with five decisions or more becomes seven tenths of itself (of one, if it is
      missing or zero) and three tenths of its score relative to the best such kind, between 0.1 and 3. */
  lemma RefreshedWeight(weights: map<string, real>, performance: seq<Metrics>, m: Metrics, best: Metrics)
    requires DistinctKinds(performance) && m in performance && m.decisions >= 5
    requires best in performance && best.decisions >= 5
    requires forall x | x in performance && x.decisions >= 5 :: x.score <= best.score
    ensures var after := Refreshed(weights, performance);
            var weight := if m.kind !in weights || weights[m.kind] == 0.0 then 1.0 else weights[m.kind];
            var score := if best.score > 0.0 then m.score / best.score else 0.0;
            var mixed := 0.7 * weight + 0.3 * score;
            && m.kind in after
            && after[m.kind] == if mixed < 0.1 then 0.1 else if mixed > 3.0 then 3.0 else mixed
  {
    EligibleIff(performance, m);
    EligibleIff(performance, best);
    forall x | x in Eligible(performance) ensures x.score <= best.score {
      EligibleIff(performance, x);
    }
    MaxScoreReached(Eligible(performance), best);
    RefreshedEntries(weights, performance);
    assert Blended(weights, Refreshed(weights, performance), m, best.score);
  }

  /** Every other weight stays, present or not. */
  lemma OtherWeights(weights: map<string, real>, performance: seq<Metrics>, kind: string)
    requires DistinctKinds(performance) && forall m | m in performance && m.kind == kind :: m.decisions < 5
    ensures var after := Refreshed(weights, performance);
            (kind in after <==> kind in weights) && (kind in after ==> after[kind] == weights[kind])
  {
    forall m | m in Eligible(performance) ensures m.kind != kind {
      EligibleIff(performance, m);
    }
    RefreshedEntries(weights, performance);
    assert SameWeight(weights, Refreshed(weights, performance), kind);
  }

  lemma NormalisedAtMostOne(score: real, maxScore: real)
    requires score <= maxScore
    ensures Normalised(score, maxScore) <= 1.0
  {
    if maxScore > 0.0 {
      var q := score / maxScore;
      assert q * maxScore == score;
      if 1.0 < q {
        MulLess(1.0, q, maxScore);
      }
    }
  }

  ghost predicate InRange(w: real) {
    MIN_WEIGHT <= w <= MAX_WEIGHT
  }

  function Abs(x: real): real {
    if x < 0.0 then -x else x
  }

  /** A distance shrunk `k` times by the factor 0.7. */
  function Decayed(distance: real, k: nat): real {
    if k == 0 then distance else 0.7 * Decayed(distance, k - 1)
  }

  function Power(base: real, k: nat): real {
    if k == 0 then 1.0 else base * Power(base, k - 1)
  }

  /** The bound of the convergence: each refresh multiplies the distance by seven tenths. */
  lemma {:induction false} DecayedIsPower(distance: real, k: nat)
    ensures Decayed(distance, k) == Power(0.7, k) * distance
  {
    if k > 0 {
      DecayedIsPower(distance, k - 1);
    }
  }

  /** The weight of one kind after `k` refreshes on the same performance. */
  function Rounds(weight: real, score: real, k: nat): real {
    if k == 0 then weight else Blend(Rounds(weight, score, k - 1), score)
  }

  lemma {:induction false} RoundsConverge(weight: real, score: real, k: nat)
    requires InRange(weight) && score <= 1.0
    ensures InRange(Rounds(weight, score, k))
    ensures Abs(Rounds(weight, score, k) - Target(score)) <= Decayed(Abs(weight - Target(score)), k)
  {
    if k > 0 {
      RoundsConverge(weight, score, k - 1);
      var before := Rounds(weight, score, k - 1);
      Contraction(before, score);
    }
  }

  /** The weights after `k` refreshes on the same performance. */
  function RefreshedTimes(weights: map<string, real>, performance: seq<Metrics>, k: nat): map<string, real> {
    if k == 0 then weights else Refreshed(RefreshedTimes(weights, performance, k - 1), performance)
  }

  function ScoreOf(performance: seq<Metrics>, m: Metrics): real
    requires m in Eligible(performance)
  {
    Normalised(m.score, MaxScore(Eligible(performance)))
  }

  /** Refreshing the whole map acts on each eligible weight alone, and on no other. */
  lemma {:induction false} RefreshesActAlone(weights: map<string, real>, performance: seq<Metrics>, m: Metrics, k: nat)
    requires DistinctKinds(performance) && m in Eligible(performance) && InRange(WeightOf(weights, m.kind))
    ensures WeightOf(RefreshedTimes(weights, performance, k), m.kind)
         == Rounds(WeightOf(weights, m.kind), ScoreOf(performance, m), k)
  {
    if k > 0 {
      var before := RefreshedTimes(weights, performance, k - 1);
      RefreshesActAlone(weights, performance, m, k - 1);
      RefreshedEntries(before, performance);
      NormalisedAtMostOne(m.score, MaxScore(Eligible(performance)));
      RoundsConverge(WeightOf(weights, m.kind), ScoreOf(performance, m), k);
      assert Blended(before, Refreshed(before, performance), m, MaxScore(Eligible(performance)));
    }
  }

  lemma {:induction false} OthersUntouched(weights: map<string, real>, performance: seq<Metrics>, kind: string, k: nat)
    requires DistinctKinds(performance) && NoneOfKind(Eligible(performance), kind)
    ensures SameWeight(weights, RefreshedTimes(weights, performance, k), kind)
  {
    if k > 0 {
      OthersUntouched(weights, performance, kind, k - 1);
      RefreshedEntries(RefreshedTimes(weights, performance, k - 1), performance);
    }
  }

  ghost predicate AllInRange(weights: map<string, real>) {
    forall kind | kind in weights :: InRange(weights[kind])
  }

  /** Refreshing keeps every weight in [0.1, 3]. */
  lemma {:induction false} WeightsStayInRange(weights: map<string, real>, performance: seq<Metrics>, k: nat)
    requires DistinctKinds(performance) && AllInRange(weights)
    ensures AllInRange(RefreshedTimes(weights, performance, k))
  {
    if k > 0 {
      var before, after := RefreshedTimes(weights, performance, k - 1), RefreshedTimes(weights, performance, k);
      WeightsStayInRange(weights, performance, k - 1);
      RefreshedEntries(before, performance);
      forall kind | kind in after ensures InRange(after[kind]) {
        if m :| m in Eligible(performance) && m.kind == kind {
          assert Blended(before, after, m, MaxScore(Eligible(performance)));
        } else {
          assert NoneOfKind(Eligible(performance), kind) && SameWeight(before, after, kind);
        }
      }
    }
  }

  /** Refreshing on the same performance again and again keeps an eligible weight in range and brings
      it geometrically close to its normalised score, or to the floor. */
  lemma {:induction false} WeightsConverge(weights: map<string, real>, performance: seq<Metrics>, m: Metrics, k: nat)
    requires DistinctKinds(performance) && m in Eligible(performance) && InRange(WeightOf(weights, m.kind))
    ensures var before, after := WeightOf(weights, m.kind), WeightOf(RefreshedTimes(weights, performance, k), m.kind);
            var target := Target(ScoreOf(performance, m));
            InRange(after) && Abs(after - target) <= Decayed(Abs(before - target), k)
  {
    RefreshesActAlone(weights, performance, m, k);
    NormalisedAtMostOne(m.score, MaxScore(Eligible(performance)));
    RoundsConverge(WeightOf(weights, m.kind), ScoreOf(performance, m), k);
  }

  lemma Contraction(weight: real, score: real)
    requires InRange(weight) && score <= 1.0
    ensures InRange(Blend(weight, score))
    ensures Abs(Blend(weight, score) - Target(score)) <= 0.7 * Abs(weight - Target(score))
  {
  }

  lemma {:induction false} RoundsKeepOrder(w1: real, s1: real, w2: real, s2: real, k: nat)
    requires w1 <= w2 && s1 <= s2
    ensures Rounds(w1, s1, k) <= Rounds(w2, s2, k)
  {
    if k > 0 {
      RoundsKeepOrder(w1, s1, w2, s2, k - 1);
    }
  }

  lemma NormalisedKeepsOrder(a: real, b: real, top: real)
    requires a <= b <= top
    ensures Normalised(a, top) <= Normalised(b, top)
  {
    if top > 0.0 {
      var x, y := a / top, b / top;
      assert x * top == a && y * top == b;
      if y < x {
        MulLess(y, x, top);
      }
    }
  }

  /** A pair ordered the same way in weight and in score stays so ordered over all refreshes. */
  lemma {:induction false} OrderIsKept(weights: map<string, real>, performance: seq<Metrics>, m: Metrics, n: Metrics, k: nat)
    requires DistinctKinds(performance) && m in Eligible(performance) && n in Eligible(performance)
    requires InRange(WeightOf(weights, m.kind)) && InRange(WeightOf(weights, n.kind))
    requires WeightOf(weights, m.kind) <= WeightOf(weights, n.kind) && m.score <= n.score
    ensures var after := RefreshedTimes(weights, performance, k); WeightOf(after, m.kind) <= WeightOf(after, n.kind)
  {
    RefreshesActAlone(weights, performance, m, k);
    RefreshesActAlone(weights, performance, n, k);
    NormalisedKeepsOrder(m.score, n.score, MaxScore(Eligible(performance)));
    RoundsKeepOrder(WeightOf(weights, m.kind), ScoreOf(performance, m),
                    WeightOf(weights, n.kind), ScoreOf(performance, n), k);
  }
}

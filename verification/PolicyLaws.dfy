/** What one round of decisions on one snapshot guarantees. */
module PolicyLaws {
  import opened Arith
  import opened Sums
  import opened Cluster
  import opened Policies

  /** The registry's invariant: every entry is filed under its own worker id. */
  ghost predicate Keyed(workers: Registry) { forall id :: id in workers ==> workers[id].workerId == id }

  /** The rates that all sharers would be granted on one snapshot at one clock reading. */
  ghost function Grants(p: Policy, workers: Registry, now: real): map<string, real>
    requires p.Valid()
  {
    map id | id in Sharers(p, workers) :: Decide(p, id, workers, now).rate
  }

  lemma SumOnes(m: map<string, real>)
    requires forall id :: id in m ==> m[id] == 1.0
    ensures Sum(m) == |m| as real
  {
  }

  /** Every policy grants a sharer the bandwidth times its part of the total weight. */
  lemma GrantIsShare(p: Policy, id: string, workers: Registry, now: real)
    requires p.Valid() && Keyed(workers) && id in Sharers(p, workers)
    ensures var weights := Weights(p, workers, now);
      && 0.0 < weights[id] <= Sum(weights)
      && Decide(p, id, workers, now) == Instruction(StartFlush, Share(p.bandwidth, weights[id], Sum(weights)))
  {
    var weights := Weights(p, workers, now);
    SumPositive(weights);
    SumPositive(weights - {id});
    SumRemove(weights, id);
    if p.UniformFairShare? || p.ActiveFairShare? {
      SumOnes(weights);
      assert weights.Keys == Sharers(p, workers);
      assert p.bandwidth * 1.0 == p.bandwidth;
    }
  }

  /** HOLD goes exactly to the workers without a pending checkpoint, except under uniform-fair-share. */
  lemma HoldIffInactive(p: Policy, id: string, workers: Registry, now: real)
    requires p.Valid() && !p.UniformFairShare?
    ensures Decide(p, id, workers, now).action == Hold <==> id !in ActiveIds(workers)
    ensures id !in ActiveIds(workers) ==> Decide(p, id, workers, now) == HOLD
  {
  }

  /** On one snapshot two sharers' rates are in the ratio of their weights. */
  lemma Proportional(p: Policy, i: string, j: string, workers: Registry, now: real)
    requires p.Valid() && Keyed(workers) && i in Sharers(p, workers) && j in Sharers(p, workers)
    ensures var weights := Weights(p, workers, now);
      Times(Decide(p, i, workers, now).rate, weights[j]) == Times(Decide(p, j, workers, now).rate, weights[i])
  {
    hide Weights, Decide, Share, Times;
    var weights := Weights(p, workers, now);
    GrantIsShare(p, i, workers, now);
    GrantIsShare(p, j, workers, now);
    var c := p.bandwidth / Sum(weights);
    ShareAsMultiple(p.bandwidth, weights[i], Sum(weights));
    ShareAsMultiple(p.bandwidth, weights[j], Sum(weights));
    Exchange(c, weights[i], weights[j]);
  }

  lemma Exchange(c: real, a: real, b: real)
    ensures Times(Times(c, a), b) == Times(Times(c, b), a)
  {
  }

  /** Static-priority: a worker with a positive configured priority weighs that, every other the default. */
  lemma StaticRatio(p: Policy, i: string, j: string, workers: Registry, now: real)
    requires p.Valid() && p.StaticPriority? && Keyed(workers)
    requires i in ActiveIds(workers) && j in ActiveIds(workers)
    requires i in p.priorities && 0.0 < p.priorities[i]
    requires j !in p.priorities || p.priorities[j] <= 0.0
    ensures Times(Decide(p, i, workers, now).rate, p.defaultPriority)
            == Times(Decide(p, j, workers, now).rate, p.priorities[i])
  {
    assert Weights(p, workers, now)[i] == p.priorities[i] && Weights(p, workers, now)[j] == p.defaultPriority;
    hide Decide, Times, Weights;
    Proportional(p, i, j, workers, now);
  }

  lemma ShareAsMultiple(bandwidth: real, weight: real, total: real)
    requires 0.0 < total
    ensures Share(bandwidth, weight, total) == Times(bandwidth / total, weight)
    ensures Times(bandwidth / total, total) == bandwidth
  {
  }

  /** The ceiling: the shares granted on one snapshot at one clock reading add up to the bandwidth. */
  lemma SharesSumToCeiling(p: Policy, workers: Registry, now: real)
    requires p.Valid() && Keyed(workers) && Sharers(p, workers) != {}
    ensures Sum(Grants(p, workers, now)) == p.bandwidth
  {
    hide Weights, Decide, Share, Times;
    var weights, grants := Weights(p, workers, now), Grants(p, workers, now);
    assert weights != map[] by {
      var id :| id in Sharers(p, workers);
      assert id in weights;
    }
    SumPositive(weights);
    forall id | id in grants
      ensures grants[id] == Times(p.bandwidth / Sum(weights), weights[id])
    {
      GrantIsShare(p, id, workers, now);
      ShareAsMultiple(p.bandwidth, weights[id], Sum(weights));
    }
    SumScale(weights, grants, p.bandwidth / Sum(weights));
    ShareAsMultiple(p.bandwidth, Sum(weights), Sum(weights));
  }

  // ---- Ranges of weights ------------------------------------------------------

  ghost predicate WeightsWithin(p: Policy, workers: Registry, now: real, lo: real, hi: real)
    requires p.Valid()
  {
    var weights := Weights(p, workers, now);
    forall id :: id in weights ==> lo <= weights[id] <= hi
  }

  /** The least weight that the policy can give a worker. */
  function LowWeight(p: Policy): real {
    match p
    case AgePriority(_, _, _) => EPS
    case EpochPriority(_, f) => Max(f, EPS)
    case _ => 1.0
  }

  /** The greatest weight that the policy can give a worker. */
  function HighWeight(p: Policy): real {
    match p
    case AgePriority(_, a, b) => Max(a + b, EPS)
    case _ => 1.0
  }

  lemma NormRange(x: real, most: real)
    requires x <= most
    ensures Norm(x, most) <= 1.0
    ensures 0.0 <= x ==> 0.0 <= Norm(x, most)
    ensures 0.0 < x == most ==> Norm(x, most) == 1.0
  {
    if most > 0.0 {
      var q := Norm(x, most);
      DivMul(x, most);
      DivLe(x, most, 1.0);
      if 0.0 <= x { DivPos(x, most); }
      if x == most {
        assert (q - 1.0) * most == 0.0;
      }
    }
  }

  lemma NormMono(x: real, y: real, most: real)
    requires x <= y
    ensures Norm(x, most) <= Norm(y, most)
  {
  }

  lemma AgeWeightRange(p: Policy, w: WorkerState, now: real, maxSize: real, maxAge: real)
    requires p.Valid() && p.AgePriority?
    requires w.checkpointSize <= maxSize && Age(w, now) <= maxAge
    ensures EPS <= AgeWeight(p, w, now, maxSize, maxAge) <= Max(p.alpha + p.beta, EPS)
  {
    TimesAdd(p.alpha, 0.0, 0.0);
    TimesAdd(p.beta, 0.0, 0.0);
    hide Times, Norm;
    NormRange(w.checkpointSize, maxSize);
    NormRange(Age(w, now), maxAge);
    TimesMono(p.alpha, Norm(w.checkpointSize, maxSize), 1.0);
    TimesMono(p.beta, Norm(Age(w, now), maxAge), 1.0);
  }

  lemma EpochWeightRange(p: Policy, w: WorkerState)
    requires p.Valid() && p.EpochPriority?
    ensures Max(p.floor, EPS) <= EpochWeight(p, w) <= 1.0
  {
    var c := 1.0 - p.floor;
    TimesAdd(c, 0.0, 0.0);
    assert 0.0 <= Progress(w) <= 1.0;
    hide Times, Progress;
    TimesMono(c, 0.0, Progress(w));
    TimesMono(c, Progress(w), 1.0);
  }

  /** The two greatest values that age-priority normalises by. */
  lemma AgeMaxima(p: Policy, id: string, workers: Registry, now: real) returns (maxSize: real, maxAge: real)
    requires p.Valid() && p.AgePriority? && id in ActiveIds(workers)
    ensures IsMax(Sizes(workers), maxSize) && IsMax(Ages(workers, now), maxAge)
    ensures workers[id].checkpointSize <= maxSize && Age(workers[id], now) <= maxAge && 0.0 < maxSize
    ensures Weights(p, workers, now)
            == map i | i in ActiveIds(workers) :: AgeWeight(p, workers[i], now, maxSize, maxAge)
  {
    assert id in Sizes(workers) && id in Ages(workers, now);
    maxSize, maxAge := MaxValue(Sizes(workers)), MaxValue(Ages(workers, now));
  }

  /** Apart from the configured static weights, all weights lie between the policy's two bounds. */
  lemma WeightRange(p: Policy, workers: Registry, now: real)
    requires p.Valid() && !p.StaticPriority?
    ensures 0.0 < LowWeight(p) <= HighWeight(p)
    ensures WeightsWithin(p, workers, now, LowWeight(p), HighWeight(p))
  {
    var weights := Weights(p, workers, now);
    forall id | id in weights
      ensures LowWeight(p) <= weights[id] <= HighWeight(p)
    {
      if p.AgePriority? {
        var maxSize, maxAge := AgeMaxima(p, id, workers, now);
        assert id in Sizes(workers) && id in Ages(workers, now);
        AgeWeightRange(p, workers[id], now, maxSize, maxAge);
      } else if p.EpochPriority? {
        EpochWeightRange(p, workers[id]);
      }
    }
  }

  // ---- No starvation ----------------------------------------------------------

  lemma ShareAtLeast(bandwidth: real, low: real, weight: real, total: real, most: real)
    requires 0.0 <= bandwidth && 0.0 <= low <= weight && 0.0 < total <= most
    ensures Share(bandwidth, low, most) <= Share(bandwidth, weight, total)
  {
  }

  /** The number of sharers times the greatest weight: the most the weights can add up to. */
  function MostWeight(p: Policy, workers: Registry): real { Times(HighWeight(p), |Sharers(p, workers)| as real) }

  lemma WeightsTotal(p: Policy, id: string, workers: Registry, now: real)
    requires p.Valid() && !p.StaticPriority? && id in Sharers(p, workers)
    ensures 0.0 < Sum(Weights(p, workers, now)) <= MostWeight(p, workers)
  {
    hide Weights, HighWeight, LowWeight, Times;
    var weights := Weights(p, workers, now);
    assert |weights.Keys| == |weights|;
    WeightRange(p, workers, now);
    SumBounds(weights, LowWeight(p), HighWeight(p));
    SumPositive(weights);
  }

  /** A worker whose weight is at least low gets at least low's share of the most the weights can add up to. */
  lemma GrantAtLeast(p: Policy, id: string, workers: Registry, now: real, low: real)
    requires p.Valid() && Keyed(workers) && !p.StaticPriority? && 0.0 <= p.bandwidth
    requires id in Sharers(p, workers) && 0.0 <= low <= Weights(p, workers, now)[id]
    ensures 0.0 < MostWeight(p, workers)
    ensures Share(p.bandwidth, low, MostWeight(p, workers)) <= Decide(p, id, workers, now).rate
  {
    hide Weights, Decide, Share, MostWeight;
    WeightsTotal(p, id, workers, now);
    GrantIsShare(p, id, workers, now);
    var weights := Weights(p, workers, now);
    ShareAtLeast(p.bandwidth, low, weights[id], Sum(weights), MostWeight(p, workers));
  }

  /** Epoch-priority never starves: each active worker gets bandwidth * max(floor, EPS) / n. */
  lemma EpochNoStarvation(p: Policy, id: string, workers: Registry, now: real)
    requires p.Valid() && Keyed(workers) && p.EpochPriority? && 0.0 <= p.bandwidth && id in ActiveIds(workers)
    ensures |ActiveIds(workers)| > 0
    ensures Share(p.bandwidth, Max(p.floor, EPS), |ActiveIds(workers)| as real) <= Decide(p, id, workers, now).rate
  {
    WeightRange(p, workers, now);
    assert MostWeight(p, workers) == |ActiveIds(workers)| as real;
    hide Decide, Share, Times, Weights, MostWeight;
    GrantAtLeast(p, id, workers, now, Max(p.floor, EPS));
  }

  /**
   Age-priority never starves, at nonnegative ages: of n active workers each gets at
   least bandwidth * EPS / (n * max(alpha + beta, EPS)); the oldest, at a positive age,
   at least the same with beta for EPS, and the largest with alpha.
   */
  lemma AgeNoStarvation(p: Policy, id: string, workers: Registry, now: real)
    requires p.Valid() && Keyed(workers) && p.AgePriority? && 0.0 <= p.bandwidth && id in ActiveIds(workers)
    requires forall i :: i in ActiveIds(workers) ==> 0.0 <= Age(workers[i], now)
    ensures var most, rate := MostWeight(p, workers), Decide(p, id, workers, now).rate;
      && 0.0 < most
      && Share(p.bandwidth, EPS, most) <= rate
      && (IsMax(Ages(workers, now), Age(workers[id], now)) && 0.0 < Age(workers[id], now) ==>
            Share(p.bandwidth, p.beta, most) <= rate)
      && (IsMax(Sizes(workers), workers[id].checkpointSize) ==> Share(p.bandwidth, p.alpha, most) <= rate)
  {
    var weight := Weights(p, workers, now)[id];
    var maxSize, maxAge := AgeMaxima(p, id, workers, now);
    assert id in Sizes(workers) && id in Ages(workers, now);
    var w := workers[id];
    AgeWeightParts(p, w, now, maxSize, maxAge);
    assert weight == AgeWeight(p, w, now, maxSize, maxAge);
    hide Decide, Weights, AgeWeight, Share, MostWeight;
    GrantAtLeast(p, id, workers, now, EPS);
    if IsMax(Ages(workers, now), Age(w, now)) && 0.0 < Age(w, now) {
      assert maxAge == Age(w, now);
      GrantAtLeast(p, id, workers, now, p.beta);
    }
    if IsMax(Sizes(workers), w.checkpointSize) {
      assert maxSize == w.checkpointSize;
      GrantAtLeast(p, id, workers, now, p.alpha);
    }
  }

  lemma AgeWeightParts(p: Policy, w: WorkerState, now: real, maxSize: real, maxAge: real)
    requires p.Valid() && p.AgePriority?
    requires 0.0 < w.checkpointSize <= maxSize && 0.0 <= Age(w, now) <= maxAge
    ensures var weight := AgeWeight(p, w, now, maxSize, maxAge);
      && EPS <= weight
      && (0.0 < Age(w, now) == maxAge ==> p.beta <= weight)
      && (w.checkpointSize == maxSize ==> p.alpha <= weight)
  {
    TimesAdd(p.alpha, 0.0, 0.0);
    TimesAdd(p.beta, 0.0, 0.0);
    hide Times, Norm;
    NormRange(w.checkpointSize, maxSize);
    NormRange(Age(w, now), maxAge);
    TimesMono(p.alpha, 0.0, Norm(w.checkpointSize, maxSize));
    TimesMono(p.beta, 0.0, Norm(Age(w, now), maxAge));
  }

  /** At one clock reading a checkpoint that is at least as large and at least as old gets no less. */
  lemma AgeMonotone(p: Policy, i: string, j: string, workers: Registry, now: real)
    requires p.Valid() && Keyed(workers) && p.AgePriority? && 0.0 <= p.bandwidth
    requires i in ActiveIds(workers) && j in ActiveIds(workers)
    requires workers[i].checkpointSize <= workers[j].checkpointSize
    requires Age(workers[i], now) <= Age(workers[j], now)
    ensures Decide(p, i, workers, now).rate <= Decide(p, j, workers, now).rate
  {
    var maxSize, maxAge := AgeMaxima(p, i, workers, now);
    var weights := Weights(p, workers, now);
    AgeWeightMonotone(p, workers[i], workers[j], now, maxSize, maxAge);
    assert weights[i] <= weights[j];
    hide Decide, Weights, Share;
    GrantIsShare(p, i, workers, now);
    GrantIsShare(p, j, workers, now);
    ShareAtLeast(p.bandwidth, weights[i], weights[j], Sum(weights), Sum(weights));
  }

  lemma AgeWeightMonotone(p: Policy, v: WorkerState, w: WorkerState, now: real, maxSize: real, maxAge: real)
    requires p.Valid() && p.AgePriority?
    requires v.checkpointSize <= w.checkpointSize && Age(v, now) <= Age(w, now)
    ensures AgeWeight(p, v, now, maxSize, maxAge) <= AgeWeight(p, w, now, maxSize, maxAge)
  {
    hide Times, Norm;
    NormMono(v.checkpointSize, w.checkpointSize, maxSize);
    NormMono(Age(v, now), Age(w, now), maxAge);
    TimesMono(p.alpha, Norm(v.checkpointSize, maxSize), Norm(w.checkpointSize, maxSize));
    TimesMono(p.beta, Norm(Age(v, now), maxAge), Norm(Age(w, now), maxAge));
  }

  /** Under epoch-priority further progress never gets less, and strictly more below floor 1 and above EPS. */
  lemma EpochMonotone(p: Policy, i: string, j: string, workers: Registry, now: real)
    requires p.Valid() && Keyed(workers) && p.EpochPriority? && 0.0 < p.bandwidth
    requires i in ActiveIds(workers) && j in ActiveIds(workers) && Progress(workers[i]) <= Progress(workers[j])
    ensures Decide(p, i, workers, now).rate <= Decide(p, j, workers, now).rate
    ensures EPS <= p.floor < 1.0 && Progress(workers[i]) < Progress(workers[j]) ==>
              Decide(p, i, workers, now).rate < Decide(p, j, workers, now).rate
  {
    var weights := Weights(p, workers, now);
    var c := 1.0 - p.floor;
    assert weights[i] == EpochWeight(p, workers[i]) && weights[j] == EpochWeight(p, workers[j]);
    TimesAdd(c, 0.0, 0.0);
    assert 0.0 <= Progress(workers[i]);
    hide Decide, Weights, Share, Times, Progress;
    TimesMono(c, 0.0, Progress(workers[i]));
    TimesMono(c, Progress(workers[i]), Progress(workers[j]));
    GrantIsShare(p, i, workers, now);
    GrantIsShare(p, j, workers, now);
    ShareAtLeast(p.bandwidth, weights[i], weights[j], Sum(weights), Sum(weights));
    if EPS <= p.floor < 1.0 && Progress(workers[i]) < Progress(workers[j]) {
      TimesStrict(c, Progress(workers[i]), Progress(workers[j]));
      ShareStrict(p.bandwidth, weights[i], weights[j], Sum(weights));
    }
  }

  lemma ShareStrict(bandwidth: real, low: real, weight: real, total: real)
    requires 0.0 < bandwidth && low < weight && 0.0 < total
    ensures Share(bandwidth, low, total) < Share(bandwidth, weight, total)
  {
  }

  /** A job at the start of its training gets max(floor, EPS) times the rate of a job at its end. */
  lemma EpochEndpoints(p: Policy, i: string, j: string, workers: Registry, now: real)
    requires p.Valid() && Keyed(workers) && p.EpochPriority?
    requires i in ActiveIds(workers) && j in ActiveIds(workers)
    requires Progress(workers[i]) == 0.0 && Progress(workers[j]) == 1.0
    ensures Decide(p, i, workers, now).rate == Times(Decide(p, j, workers, now).rate, Max(p.floor, EPS))
  {
    TimesAdd(1.0 - p.floor, 0.0, 0.0);
    TimesAdd(Decide(p, i, workers, now).rate, 0.0, 0.0);
    assert Weights(p, workers, now)[i] == Max(p.floor, EPS) && Weights(p, workers, now)[j] == 1.0;
    hide Decide, Times, Weights;
    Proportional(p, i, j, workers, now);
  }

  // ---- Policies that coincide -------------------------------------------------

  /** With floor 1, and with no configured priorities, the weighted policies are active-fair-share. */
  lemma CollapseToActiveFairShare(bandwidth: real, default: real, id: string, workers: Registry, now: real)
    requires 0.0 < default && Keyed(workers)
    ensures Decide(EpochPriority(bandwidth, 1.0), id, workers, now)
            == Decide(ActiveFairShare(bandwidth), id, workers, now)
    ensures Decide(StaticPriority(bandwidth, map[], default), id, workers, now)
            == Decide(ActiveFairShare(bandwidth), id, workers, now)
  {
    if id in ActiveIds(workers) {
      var epoch := EpochPriority(bandwidth, 1.0);
      var flat := StaticPriority(bandwidth, map[], default);
      var active := ActiveFairShare(bandwidth);
      var n := |ActiveIds(workers)| as real;
      EqualWeights(epoch, 1.0, id, workers, now);
      EqualWeights(flat, default, id, workers, now);
      EqualWeights(active, 1.0, id, workers, now);
    }
  }

  lemma EqualWeights(p: Policy, c: real, id: string, workers: Registry, now: real)
    requires p.Valid() && Keyed(workers) && id in ActiveIds(workers) && !p.UniformFairShare? && 0.0 < c
    requires forall i :: i in Weights(p, workers, now) ==> Weights(p, workers, now)[i] == c
    ensures |ActiveIds(workers)| > 0
    ensures Decide(p, id, workers, now) == Instruction(StartFlush, p.bandwidth / |ActiveIds(workers)| as real)
  {
    hide Decide, Weights, Share;
    var weights := Weights(p, workers, now);
    SumBounds(weights, c, c);
    assert |weights.Keys| == |weights|;
    GrantIsShare(p, id, workers, now);
    var n := |ActiveIds(workers)| as real;
    ShareCancels(p.bandwidth, c, n);
    assert weights[id] == c;
  }

  lemma ShareCancels(bandwidth: real, c: real, n: real)
    requires 0.0 < c && 0.0 < n
    ensures 0.0 < Times(c, n) && Share(bandwidth, c, Times(c, n)) == bandwidth / n
  {
  }
}

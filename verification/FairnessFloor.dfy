/** How unfair a weighted policy can be, measured by Jain's index. */
module FairnessFloor {
  import opened Arith
  import opened Sums
  import opened Cluster
  import opened Policies
  import opened PolicyLaws
  import opened OvershootLaws
  import opened Fairness

  /**
   The rates that any policy grants on one snapshot to its sharers, listed in any order,
   have a Jain index of at least 4 lo hi / (lo + hi)^2, where [lo, hi] holds all weights
   that the policy can use; such bounds always exist.
   */
  lemma GrantsFairness(p: Policy, ids: seq<string>, workers: Registry, now: real, lo: real, hi: real)
    requires p.Valid() && Keyed(workers) && WeightBounds(p, lo, hi) && 0.0 < p.bandwidth
    requires Enumerates(ids, Sharers(p, workers)) && ids != []
    ensures var rates := Along(ids, Grants(p, workers, now));
      && rates != [] && AllPositive(rates) && 0.0 < Sq(lo + hi)
      && 4.0 * Times(lo, hi) / Sq(lo + hi) <= Jain(rates)
  {
    hide Weights, Decide, Times, Sq, Enumerates, Jain, Along, Grants, Sharers, Keyed;
    var c, ws := GrantsAreScaled(p, ids, workers, now, lo, hi);
    JainScale(ws, c);
    JainRangeFloor(ws, lo, hi);
  }

  lemma GrantsAreScaled(p: Policy, ids: seq<string>, workers: Registry, now: real, lo: real, hi: real)
    returns (c: real, ws: seq<real>)
    requires p.Valid() && Keyed(workers) && WeightBounds(p, lo, hi) && 0.0 < p.bandwidth
    requires Enumerates(ids, Sharers(p, workers)) && ids != []
    ensures 0.0 < c && ws != [] && AllPositive(ws)
    ensures forall i :: 0 <= i < |ws| ==> lo <= ws[i] <= hi
    ensures Along(ids, Grants(p, workers, now)) == Scaled(ws, c)
  {
    hide Weights, Decide, Share, Times, WeightBounds, Enumerates, Grants, Sharers, Keyed;
    var weights, grants := Weights(p, workers, now), Grants(p, workers, now);
    GrantScaled(p, ids, workers, now, lo, hi, 0);
    ws, c := Along(ids, weights), p.bandwidth / Sum(weights);
    DivPos(p.bandwidth, Sum(weights));
    forall i: nat | i < |ids|
      ensures 0.0 < ws[i] && lo <= ws[i] <= hi && Along(ids, grants)[i] == Times(c, ws[i])
    {
      GrantScaled(p, ids, workers, now, lo, hi, i);
    }
    assert Along(ids, grants) == Scaled(ws, c);
  }

  lemma GrantScaled(p: Policy, ids: seq<string>, workers: Registry, now: real, lo: real, hi: real, i: nat)
    requires p.Valid() && Keyed(workers) && WeightBounds(p, lo, hi)
    requires Enumerates(ids, Sharers(p, workers)) && i < |ids|
    ensures var weights := Weights(p, workers, now);
      var w, rate := Along(ids, weights)[i], Along(ids, Grants(p, workers, now))[i];
      && 0.0 < Sum(weights) && 0.0 < w && lo <= w <= hi
      && rate == Times(p.bandwidth / Sum(weights), w)
  {
    hide Weights, Decide, Share, Times, WeightBounds;
    var id := ids[i];
    assert id in Sharers(p, workers);
    BoundsHold(p, workers, now, lo, hi);
    GrantIsShare(p, id, workers, now);
    var weights := Weights(p, workers, now);
    assert id in weights && id in Grants(p, workers, now);
    ShareAsMultiple(p.bandwidth, weights[id], Sum(weights));
  }

  /** Epoch-priority with floor f: the index of the granted rates is at least 4g / (1 + g)^2, where g = max(f, EPS). */
  lemma EpochFairness(p: Policy, ids: seq<string>, workers: Registry, now: real)
    requires p.Valid() && Keyed(workers) && p.EpochPriority? && 0.0 < p.bandwidth
    requires Enumerates(ids, ActiveIds(workers)) && ids != []
    ensures var rates, g := Along(ids, Grants(p, workers, now)), Max(p.floor, EPS);
      && rates != [] && AllPositive(rates) && 0.0 < Sq(1.0 + g)
      && 4.0 * g / Sq(1.0 + g) <= Jain(rates)
  {
    hide Jain, Decide, Weights;
    var g := Max(p.floor, EPS);
    GrantsFairness(p, ids, workers, now, g, 1.0);
    assert Times(g, 1.0) == g;
  }
}

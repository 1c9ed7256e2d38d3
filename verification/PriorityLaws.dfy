/**
 The weighted policies' rates in terms of what heartbeats report: epochs and total epochs,
 sizes, and the times at which checkpoints became pending.
 */
module PriorityLaws {
  import opened Arith
  import opened Sums
  import Cluster
  import opened Policies
  import opened PolicyLaws
  import opened OvershootLaws
  import Orchestrator
  import opened ConvergenceLaws

  // ---- Fair shares ----------------------------------------------------------------

  /** Under the fair-share policies any two sharers get the same, and under the other policies no one else gets any. */
  lemma EqualShares(p: Policy, i: string, j: string, workers: Cluster.Registry, now: real)
    requires (p.UniformFairShare? || p.ActiveFairShare?) && Keyed(workers)
    requires i in workers && j in workers
    requires p.ActiveFairShare? ==> 0.0 < workers[i].checkpointSize && 0.0 < workers[j].checkpointSize
    ensures Decide(p, i, workers, now) == Decide(p, j, workers, now)
    ensures Decide(p, i, workers, now).action == StartFlush
  {
  }

  // ---- Epoch-priority ---------------------------------------------------------------

  function Between(floor: real, e: real, t: real): real
    requires 0.0 < t
  {
    floor + (1.0 - floor) * (e / t)
  }

  /** floor + (1 - floor) * e / t, for e between 0 and t; beyond as at the ends, and as at 0 without a total. */
  function EpochTerm(floor: real, e: int, t: int): real {
    if t <= 0 || e < 0 then floor
    else if t < e then 1.0
    else Between(floor, e as real, t as real)
  }

  lemma EpochWeightIsTerm(p: Policy, w: Cluster.WorkerState)
    requires p.Valid() && p.EpochPriority?
    ensures EpochWeight(p, w) == Max(EpochTerm(p.floor, w.epoch, w.totalEpochs), 0.000001)
  {
    var e, t := w.epoch as real, w.totalEpochs as real;
    if 0 < w.totalEpochs {
      DivLe(e, t, 1.0);
      DivLe(e, t, 0.0);
      DivMul(e, t);
    }
  }

  /** Epoch-priority, exactly: two active workers' rates are in the ratio of their terms, none below 0.000001. */
  lemma EpochExact(p: Policy, i: string, j: string, workers: Cluster.Registry, now: real)
    requires p.Valid() && Keyed(workers) && p.EpochPriority?
    requires i in ActiveIds(workers) && j in ActiveIds(workers)
    ensures var v, w := workers[i], workers[j];
      Times(Decide(p, i, workers, now).rate, Max(EpochTerm(p.floor, w.epoch, w.totalEpochs), 0.000001))
      == Times(Decide(p, j, workers, now).rate, Max(EpochTerm(p.floor, v.epoch, v.totalEpochs), 0.000001))
  {
    assert Weights(p, workers, now)[i] == EpochWeight(p, workers[i]);
    assert Weights(p, workers, now)[j] == EpochWeight(p, workers[j]);
    hide Decide, Weights, Times, EpochWeight, EpochTerm;
    EpochWeightIsTerm(p, workers[i]);
    EpochWeightIsTerm(p, workers[j]);
    Proportional(p, i, j, workers, now);
  }

  /** In epochs and totals, without division: for a floor of at least 0.000001 and epochs within their totals. */
  lemma EpochRatio(p: Policy, i: string, j: string, workers: Cluster.Registry, now: real)
    requires p.Valid() && Keyed(workers) && p.EpochPriority? && 0.000001 <= p.floor
    requires i in ActiveIds(workers) && j in ActiveIds(workers)
    requires 0 <= workers[i].epoch <= workers[i].totalEpochs && 0 < workers[i].totalEpochs
    requires 0 <= workers[j].epoch <= workers[j].totalEpochs && 0 < workers[j].totalEpochs
    ensures var ei, ti := workers[i].epoch as real, workers[i].totalEpochs as real;
      var ej, tj := workers[j].epoch as real, workers[j].totalEpochs as real;
      var f := p.floor;
      Decide(p, i, workers, now).rate * ti * (f * tj + (1.0 - f) * ej)
      == Decide(p, j, workers, now).rate * tj * (f * ti + (1.0 - f) * ei)
  {
    hide Decide, EpochTerm, Times, Between;
    var v, w := workers[i], workers[j];
    EpochExact(p, i, j, workers, now);
    TermWithin(p.floor, v.epoch, v.totalEpochs);
    TermWithin(p.floor, w.epoch, w.totalEpochs);
    ClearTotals(Decide(p, i, workers, now).rate, Decide(p, j, workers, now).rate, p.floor,
                v.epoch as real, v.totalEpochs as real, w.epoch as real, w.totalEpochs as real);
  }

  lemma TermWithin(floor: real, e: int, t: int)
    requires 0.000001 <= floor <= 1.0 && 0 <= e <= t && 0 < t
    ensures Max(EpochTerm(floor, e, t), 0.000001) == Between(floor, e as real, t as real)
  {
    DivPos(e as real, t as real);
    AboveFloor(floor, e as real, t as real);
  }

  lemma AboveFloor(floor: real, e: real, t: real)
    requires floor <= 1.0 && 0.0 < t && 0.0 <= e / t
    ensures floor <= Between(floor, e, t)
  {
    var q := e / t;
    MulMono(0.0, q, 1.0 - floor);
  }

  lemma ClearTotals(a: real, b: real, f: real, ei: real, ti: real, ej: real, tj: real)
    requires 0.0 < ti && 0.0 < tj
    requires Times(a, Between(f, ej, tj)) == Times(b, Between(f, ei, ti))
    ensures a * ti * (f * tj + (1.0 - f) * ej) == b * tj * (f * ti + (1.0 - f) * ei)
  {
    hide Times, Between;
    TimesTotal(f, ei, ti);
    TimesTotal(f, ej, tj);
    Reorder(a, ti, Between(f, ej, tj), tj);
    Reorder(b, tj, Between(f, ei, ti), ti);
  }

  lemma TimesTotal(f: real, e: real, t: real)
    requires 0.0 < t
    ensures Between(f, e, t) * t == f * t + (1.0 - f) * e
  {
    DivMul(e, t);
  }

  lemma Reorder(a: real, s: real, u: real, t: real)
    ensures a * s * (u * t) == Times(a, u) * (s * t)
  {
  }

  /** Epochs outside 0..total, and unknown totals, count as the nearest end. */
  lemma EpochClamped(p: Policy, i: string, j: string, workers: Cluster.Registry, now: real)
    requires p.Valid() && Keyed(workers) && p.EpochPriority?
    requires i in ActiveIds(workers) && j in ActiveIds(workers)
    requires var v, w := workers[i], workers[j];
      || ((v.totalEpochs <= 0 || v.epoch < 0) && w.epoch == 0)
      || (0 < v.totalEpochs < v.epoch && 0 < w.totalEpochs == w.epoch)
    ensures Decide(p, i, workers, now).rate == Decide(p, j, workers, now).rate
  {
    var v, w := workers[i], workers[j];
    EpochWeightIsTerm(p, v);
    EpochWeightIsTerm(p, w);
    if 0 < w.totalEpochs {
      DivMul(w.epoch as real, w.totalEpochs as real);
      assert w.epoch == 0 ==> w.epoch as real / w.totalEpochs as real == 0.0;
      assert w.epoch == w.totalEpochs ==> w.epoch as real / w.totalEpochs as real == 1.0;
    }
    assert Weights(p, workers, now)[i] == Weights(p, workers, now)[j];
    hide Decide, Weights;
    GrantIsShare(p, i, workers, now);
    GrantIsShare(p, j, workers, now);
  }

  // ---- Age-priority -----------------------------------------------------------------

  /** alpha * size / largest + beta * waited / longest wait, the wait counting from when a checkpoint became pending. */
  function AgeTerm(p: Policy, size: real, largest: real, since: real, first: real, now: real): real
    requires p.AgePriority? && 0.0 < largest
  {
    p.alpha * (size / largest) + if first < now then p.beta * ((now - since) / (now - first)) else 0.0
  }

  /** The largest pending size. */
  ghost predicate Largest(workers: Cluster.Registry, size: real) {
    && (exists id :: id in ActiveIds(workers) && workers[id].checkpointSize == size)
    && forall id :: id in ActiveIds(workers) ==> workers[id].checkpointSize <= size
  }

  /** Worker id is active, and its unbroken run of positive sizes began at time t. */
  ghost predicate PendingFrom(events: seq<Cluster.Event>, id: string, t: real) {
    && id in ActiveIds(Cluster.Replay(events))
    && exists k :: Cluster.OpensRun(events, id, k) && events[k].b.now == t
  }

  /** No active worker's checkpoint has been pending for longer than since t. */
  ghost predicate Earliest(events: seq<Cluster.Event>, t: real) {
    && (exists id :: PendingFrom(events, id, t))
    && forall id, u :: PendingFrom(events, id, u) ==> t <= u
  }

  lemma AgeIsWait(events: seq<Cluster.Event>, id: string, t: real, now: real)
    requires PendingFrom(events, id, t)
    ensures Age(Cluster.Replay(events)[id], now) == now - t
  {
    hide Cluster.Replay;
    var k :| Cluster.OpensRun(events, id, k) && events[k].b.now == t;
    var j := Cluster.PendingSinceOpensRun(events, id);
    Cluster.OpensRunOnce(events, id, j, k);
  }

  lemma WaitExists(events: seq<Cluster.Event>, id: string) returns (t: real)
    requires id in ActiveIds(Cluster.Replay(events))
    ensures PendingFrom(events, id, t)
  {
    var k := Cluster.PendingSinceOpensRun(events, id);
    t := events[k].b.now;
  }

  /** The greatest age is the wait since the earliest opening. */
  lemma LongestWait(events: seq<Cluster.Event>, first: real, now: real, maxAge: real)
    requires Earliest(events, first) && IsMax(Ages(Cluster.Replay(events), now), maxAge)
    ensures maxAge == now - first
  {
    hide Cluster.Replay, Age;
    var ages := Ages(Cluster.Replay(events), now);
    var id :| id in ages && ages[id] == maxAge;
    var t := WaitExists(events, id);
    AgeIsWait(events, id, t, now);
    var id0 :| PendingFrom(events, id0, first);
    AgeIsWait(events, id0, first, now);
    assert id0 in ages;
  }

  lemma TermOfWeight(p: Policy, w: Cluster.WorkerState, now: real, largest: real, first: real, since: real)
    requires p.AgePriority? && 0.0 < largest && Age(w, now) == now - since
    ensures AgeWeight(p, w, now, largest, now - first)
            == Max(AgeTerm(p, w.checkpointSize, largest, since, first, now), 0.000001)
  {
  }

  lemma AgeWeightIsTerm(p: Policy, events: seq<Cluster.Event>, id: string, now: real,
                        largest: real, first: real, since: real)
    requires p.Valid() && p.AgePriority? && PendingFrom(events, id, since)
    requires Largest(Cluster.Replay(events), largest) && Earliest(events, first)
    ensures 0.0 < largest
    ensures var workers := Cluster.Replay(events);
      Weights(p, workers, now)[id] ==
      Max(AgeTerm(p, workers[id].checkpointSize, largest, since, first, now), 0.000001)
  {
    hide Cluster.Replay, Age, Weights, AgeWeight, AgeTerm, Earliest, Largest, Max;
    var workers := Cluster.Replay(events);
    var maxSize, maxAge := AgeMaxima(p, id, workers, now);
    LongestWait(events, first, now, maxAge);
    SameMaximum(workers, maxSize, largest);
    AgeIsWait(events, id, since, now);
    TermOfWeight(p, workers[id], now, largest, first, since);
  }

  lemma SameMaximum(workers: Cluster.Registry, a: real, b: real)
    requires IsMax(Sizes(workers), a) && Largest(workers, b)
    ensures a == b
  {
    var id :| id in ActiveIds(workers) && workers[id].checkpointSize == b;
    assert id in Sizes(workers);
    var top :| top in Sizes(workers) && Sizes(workers)[top] == a;
  }

  /**
   Age-priority, exactly. In every run, two active workers' rates are in the ratio of
   their terms, none below 0.000001, where each wait counts from the heartbeat that made
   the checkpoint pending.
   */
  lemma AgeExact(p: Policy, messages: seq<Orchestrator.Message>, now: real, i: string, j: string,
                 sinceI: real, sinceJ: real, largest: real, first: real)
    requires p.Valid() && p.AgePriority?
    requires PendingFrom(Events(messages), i, sinceI) && PendingFrom(Events(messages), j, sinceJ)
    requires Largest(Orchestrator.Run(p, messages).workers, largest) && Earliest(Events(messages), first)
    ensures 0.0 < largest
    ensures var workers := Orchestrator.Run(p, messages).workers;
      && i in workers && j in workers
      && var termI := AgeTerm(p, workers[i].checkpointSize, largest, sinceI, first, now);
         var termJ := AgeTerm(p, workers[j].checkpointSize, largest, sinceJ, first, now);
         Times(Decide(p, i, workers, now).rate, Max(termJ, 0.000001))
         == Times(Decide(p, j, workers, now).rate, Max(termI, 0.000001))
  {
    hide Cluster.Replay, Orchestrator.Run, Weights, Decide, Times, AgeTerm, Earliest, Largest, Events;
    RunReplays(p, messages);
    KeyedRun(p, messages);
    AgeWeightIsTerm(p, Events(messages), i, now, largest, first, sinceI);
    AgeWeightIsTerm(p, Events(messages), j, now, largest, first, sinceJ);
    Proportional(p, i, j, Orchestrator.Run(p, messages).workers, now);
  }

  /**
   Of two checkpoints of the same size the one that became pending earlier gets strictly
   more, for beta > 0 and as soon as time has passed, exactly when its term exceeds 0.000001.
   */
  lemma EarlierGetsMore(p: Policy, messages: seq<Orchestrator.Message>, now: real, i: string, j: string,
                        sinceI: real, sinceJ: real, largest: real, first: real)
    requires p.Valid() && p.AgePriority? && 0.0 < p.beta && 0.0 < p.bandwidth
    requires PendingFrom(Events(messages), i, sinceI) && PendingFrom(Events(messages), j, sinceJ)
    requires Largest(Orchestrator.Run(p, messages).workers, largest) && Earliest(Events(messages), first)
    requires sinceI < sinceJ && first < now
    requires var workers := Orchestrator.Run(p, messages).workers;
      i in workers && j in workers && workers[i].checkpointSize == workers[j].checkpointSize
    ensures 0.0 < largest
    ensures var workers := Orchestrator.Run(p, messages).workers;
      Decide(p, j, workers, now).rate < Decide(p, i, workers, now).rate <==>
      0.000001 < AgeTerm(p, workers[i].checkpointSize, largest, sinceI, first, now)
  {
    RunReplays(p, messages);
    KeyedRun(p, messages);
    hide Cluster.Replay, Orchestrator.Run, Weights, Decide, Earliest, Largest, Events, Share, AgeTerm;
    var workers := Orchestrator.Run(p, messages).workers;
    AgeWeightIsTerm(p, Events(messages), i, now, largest, first, sinceI);
    AgeWeightIsTerm(p, Events(messages), j, now, largest, first, sinceJ);
    LaterTerm(p, workers[i].checkpointSize, largest, sinceI, sinceJ, first, now);
    GrantIsShare(p, i, workers, now);
    GrantIsShare(p, j, workers, now);
    var weights := Weights(p, workers, now);
    if weights[j] < weights[i] {
      ShareStrict(p.bandwidth, weights[j], weights[i], Sum(weights));
    }
  }

  lemma LaterTerm(p: Policy, size: real, largest: real, a: real, b: real, first: real, now: real)
    requires p.AgePriority? && 0.0 < p.beta && 0.0 < largest && a < b && first < now
    ensures AgeTerm(p, size, largest, b, first, now) < AgeTerm(p, size, largest, a, first, now)
  {
    var longest := now - first;
    DivMul(now - a, longest);
    DivMul(now - b, longest);
    LaterShare(now - b, now - a, longest);
    MulPos((now - a) / longest - (now - b) / longest, p.beta);
    assert p.beta * ((now - a) / longest) - p.beta * ((now - b) / longest)
        == p.beta * ((now - a) / longest - (now - b) / longest);
  }

  lemma LaterShare(x: real, y: real, d: real)
    requires x < y && 0.0 < d
    ensures x / d < y / d
  {
  }
}

/** The bandwidth-sharing policies of src/orchestrator/scheduler.py. */
module Policies {
  import opened Arith
  import opened Sums
  import opened Cluster

  datatype Action = Hold | StartFlush | ChangeRate | Exit

  datatype Instruction = Instruction(action: Action, rate: real)

  const HOLD := Instruction(Hold, 0.0)

  const EPS := 0.000001

  datatype Policy =
    | UniformFairShare(bandwidth: real)
    | ActiveFairShare(bandwidth: real)
    | StaticPriority(bandwidth: real, priorities: map<string, real>, defaultPriority: real)
    | AgePriority(bandwidth: real, alpha: real, beta: real)
    | EpochPriority(bandwidth: real, floor: real)
  {
    /** What the constructors assert. */
    predicate Valid() {
      match this
      case UniformFairShare(_) => true
      case ActiveFairShare(_) => true
      case StaticPriority(_, _, d) => 0.0 < d
      case AgePriority(_, a, b) => 0.0 <= a && 0.0 <= b && 0.0 < a + b
      case EpochPriority(_, f) => 0.0 <= f <= 1.0
    }
  }

  function ActiveIds(workers: Registry): set<string> { set id | id in workers && workers[id].checkpointSize > 0.0 }

  /** The workers that get a share: under uniform-fair-share all, otherwise the active ones. */
  function Sharers(p: Policy, workers: Registry): set<string> {
    if p.UniformFairShare? then workers.Keys else ActiveIds(workers)
  }

  function StaticWeight(p: Policy, id: string): real
    requires p.StaticPriority?
  {
    var w := if id in p.priorities then p.priorities[id] else p.defaultPriority;
    if w > 0.0 then w else p.defaultPriority
  }

  function Age(w: WorkerState, now: real): real {
    if w.pendingSince.Some? then now - w.pendingSince.value else 0.0
  }

  /** x relative to the greatest value, 0 when that is not positive. */
  function Norm(x: real, most: real): real { if most > 0.0 then x / most else 0.0 }

  function AgeWeight(p: Policy, w: WorkerState, now: real, maxSize: real, maxAge: real): real
    requires p.AgePriority?
  {
    Max(Times(p.alpha, Norm(w.checkpointSize, maxSize)) + Times(p.beta, Norm(Age(w, now), maxAge)), EPS)
  }

  function Progress(w: WorkerState): real {
    if w.totalEpochs <= 0 then 0.0 else Max(0.0, Min(w.epoch as real / w.totalEpochs as real, 1.0))
  }

  function EpochWeight(p: Policy, w: WorkerState): real
    requires p.EpochPriority?
  {
    Max(p.floor + Times(1.0 - p.floor, Progress(w)), EPS)
  }

  function Sizes(workers: Registry): map<string, real> {
    map id | id in ActiveIds(workers) :: workers[id].checkpointSize
  }

  function Ages(workers: Registry, now: real): map<string, real> {
    map id | id in ActiveIds(workers) :: Age(workers[id], now)
  }

  /** The weight of every sharer, as `decide` computes them from one snapshot at one clock reading. */
  ghost function Weights(p: Policy, workers: Registry, now: real): (weights: map<string, real>)
    requires p.Valid()
    ensures weights.Keys == Sharers(p, workers)
    ensures forall id :: id in weights ==> 0.0 < weights[id]
  {
    match p
    case UniformFairShare(_) => map id | id in workers :: 1.0
    case ActiveFairShare(_) => map id | id in ActiveIds(workers) :: 1.0
    case StaticPriority(_, _, _) => map id | id in ActiveIds(workers) :: StaticWeight(p, workers[id].workerId)
    case AgePriority(_, _, _) =>
      if ActiveIds(workers) == {} then map[]
      else
        var id0 :| id0 in ActiveIds(workers);
        assert id0 in Sizes(workers) && id0 in Ages(workers, now);
        var maxSize, maxAge := MaxValue(Sizes(workers)), MaxValue(Ages(workers, now));
        map id | id in ActiveIds(workers) :: AgeWeight(p, workers[id], now, maxSize, maxAge)
    case EpochPriority(_, _) => map id | id in ActiveIds(workers) :: EpochWeight(p, workers[id])
  }

  /** The weight the policy looks up for the worker it answers, by id or from its state. */
  function OwnWeight(p: Policy, id: string, weights: map<string, real>): real
    requires id in weights
  {
    if p.StaticPriority? then StaticWeight(p, id) else weights[id]
  }

  function Share(bandwidth: real, weight: real, total: real): real
    requires 0.0 < total
  {
    Times(bandwidth, weight) / total
  }

  /** The instruction for worker id on a snapshot of the registry at one clock reading. */
  ghost function Decide(p: Policy, id: string, workers: Registry, now: real): Instruction
    requires p.Valid()
  {
    if p.UniformFairShare? then
      Instruction(StartFlush, if workers == map[] then 0.0 else p.bandwidth / |workers| as real)
    else if id !in workers || workers[id].checkpointSize <= 0.0 then HOLD
    else
      assert id in ActiveIds(workers);
      if p.ActiveFairShare? then
        Instruction(StartFlush, p.bandwidth / |ActiveIds(workers)| as real)
      else
        var weights := Weights(p, workers, now);
        SumPositive(weights);
        Instruction(StartFlush, Share(p.bandwidth, OwnWeight(p, id, weights), Sum(weights)))
  }

  method WeightsOf(p: Policy, workers: Registry, now: real) returns (weights: map<string, real>)
    requires p.Valid()
    ensures weights == Weights(p, workers, now)
  {
    var active := ActiveIds(workers);
    match p {
      case UniformFairShare(_) => weights := map id | id in workers :: 1.0;
      case ActiveFairShare(_) => weights := map id | id in active :: 1.0;
      case StaticPriority(_, _, _) => weights := map id | id in active :: StaticWeight(p, workers[id].workerId);
      case AgePriority(_, _, _) =>
        if active == {} {
          return map[];
        }
        ghost var id0 :| id0 in active;
        assert id0 in Sizes(workers) && id0 in Ages(workers, now);
        var maxSize := MaxOf(Sizes(workers));
        var maxAge := MaxOf(Ages(workers, now));
        weights := map id | id in active :: AgeWeight(p, workers[id], now, maxSize, maxAge);
      case EpochPriority(_, _) => weights := map id | id in active :: EpochWeight(p, workers[id]);
    }
  }

  /** `decide` itself: the weights, their total by a loop over them, and one division. */
  method DecideInstruction(p: Policy, id: string, workers: Registry, now: real) returns (instruction: Instruction)
    requires p.Valid()
    ensures instruction == Decide(p, id, workers, now)
  {
    if p.UniformFairShare? {
      return Instruction(StartFlush, if workers == map[] then 0.0 else p.bandwidth / |workers| as real);
    }
    if id !in workers || workers[id].checkpointSize <= 0.0 {
      return HOLD;
    }
    assert id in ActiveIds(workers);
    if p.ActiveFairShare? {
      return Instruction(StartFlush, p.bandwidth / |ActiveIds(workers)| as real);
    }
    hide Weights, Share;
    var weights := WeightsOf(p, workers, now);
    SumPositive(weights);
    var total := SumOf(weights);
    instruction := Instruction(StartFlush, Share(p.bandwidth, OwnWeight(p, id, weights), total));
  }
}

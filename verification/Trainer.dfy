/** The training loop and its checkpoint trigger (src/train/trainer.py, src/train/train.py). */
module Trainer {
  import opened Common
  import opened Arith
  import opened Checkpoint
  import Cluster
  import opened Policies

  /** The steps at which a run of `steps` steps saves: the multiples of the interval. */
  function SaveSteps(steps: int, interval: int): seq<int>
    requires 0 <= steps && 0 < interval
  {
    if steps == 0 then []
    else SaveSteps(steps - 1, interval) + if steps % interval == 0 then [steps] else []
  }

  lemma NextMultiple(step: int, interval: int)
    requires 0 <= step && 0 < interval
    ensures (step + 1) / interval == step / interval + if (step + 1) % interval == 0 then 1 else 0
  {
    var q, r := step / interval, step % interval;
    if r + 1 < interval {
      Quotient(step + 1, interval, q, r + 1);
    } else {
      assert (q + 1) * interval == q * interval + interval;
      Quotient(step + 1, interval, q + 1, 0);
    }
  }

  lemma Quotient(a: int, m: int, q: int, r: int)
    requires 0 <= r < m && a == q * m + r
    ensures a / m == q && a % m == r
  {
    var d := a / m - q;
    assert d * m == r - a % m;
    Factor(d, m);
  }

  lemma Factor(d: int, m: int)
    requires 0 < m
    ensures d >= 1 ==> m <= d * m
    ensures d <= -1 ==> d * m <= -m
  {
  }

  /** There are steps / interval of them, the k-th at k times the interval. */
  lemma {:induction false} SaveStepsAreMultiples(steps: int, interval: int)
    requires 0 <= steps && 0 < interval
    ensures |SaveSteps(steps, interval)| == steps / interval
    ensures forall k :: 0 <= k < steps / interval ==> SaveSteps(steps, interval)[k] == (k + 1) * interval
  {
    if steps == 0 {
      assert 0 / interval == 0;
    } else {
      SaveStepsAreMultiples(steps - 1, interval);
      NextMultiple(steps - 1, interval);
      if steps % interval == 0 {
        assert steps == steps / interval * interval;
      }
    }
  }

  /** What happens around the save at a step: the state written and the faults met. */
  datatype Plan = Plan(content: Bytes, temporary: string, faults: Faults)

  function SaveRaises(f: Faults): bool { f.notifyRaises && (f.copyFails || f.replaceFails) }

  /** The temporary names are fresh, as uuid4 makes them. */
  ghost predicate FreshNames(plan: int -> Plan, checkpoint: Checkpoint)
    reads checkpoint, checkpoint.pfs
  {
    forall step :: plan(step).temporary !in {checkpoint.primary, checkpoint.alternate} &&
                   plan(step).temporary !in checkpoint.pfs.files
  }

  function AtLeastZero(n: int): nat { if n > 0 then n else 0 }

  /** All saves up to now were due and none raised. */
  ghost predicate Progressed(steps: int, saves: seq<int>, interval: int, plan: int -> Plan)
    requires 0 < interval
  {
    && 0 <= steps && saves == SaveSteps(steps, interval)
    && forall s :: 0 < s <= steps && s % interval == 0 ==> !SaveRaises(plan(s).faults)
  }

  /**
   Trains maxSteps steps over a source of `batches` batches, started again when it is
   exhausted, saving at every multiple of the interval. A save that raises ends the run.
   */
  method Train(maxSteps: int, interval: int, batches: nat, checkpoint: Checkpoint, plan: int -> Plan)
    returns (steps: int, saves: seq<int>, raised: bool)
    requires 0 < interval && 0 < batches && checkpoint.Valid() && FreshNames(plan, checkpoint)
    modifies checkpoint`epoch, checkpoint`useAlt, checkpoint.pfs
    ensures checkpoint.Valid() && checkpoint.epoch == old(checkpoint.epoch) + |saves|
    ensures 0 <= steps && (raised ==> 0 < steps <= maxSteps)
    ensures !raised ==> steps == AtLeastZero(maxSteps) && saves == SaveSteps(steps, interval)
    ensures raised ==>
              steps % interval == 0 && SaveRaises(plan(steps).faults) && saves == SaveSteps(steps - 1, interval)
    ensures raised <==> exists s :: s % interval == 0 && 0 < s <= maxSteps && SaveRaises(plan(s).faults)
  {
    steps, saves, raised := 0, [], false;
    while steps < maxSteps
      invariant 0 <= steps <= AtLeastZero(maxSteps)
      invariant Progressed(steps, saves, interval, plan)
      invariant checkpoint.Valid() && FreshNames(plan, checkpoint)
      invariant checkpoint.epoch == old(checkpoint.epoch) + |saves|
      decreases maxSteps - steps
    {
      ghost var before := steps;
      for batch := 0 to batches
        invariant before + batch == steps < maxSteps
        invariant Progressed(steps, saves, interval, plan)
        invariant checkpoint.Valid() && FreshNames(plan, checkpoint)
        invariant checkpoint.epoch == old(checkpoint.epoch) + |saves|
      {
        steps := steps + 1;
        if steps % interval == 0 {
          var p := plan(steps);
          var saved := checkpoint.Save(p.content, p.temporary, p.faults);
          if saved.SaveError? {
            raised := true;
            return;
          }
          saves := saves + [steps];
        }
        if steps >= maxSteps {
          break;
        }
      }
    }
  }

  /**
   A trainer-driven worker's progress is never clamped: with the total that train.py
   computes, a fresh manager's epoch stays within it after any number of its saves.
   */
  lemma EpochWithinTotal(steps: int, maxSteps: int, interval: int)
    requires 0 < interval && 0 <= steps <= maxSteps
    ensures |SaveSteps(steps, interval)| <= maxSteps / interval
  {
    SaveStepsAreMultiples(steps, interval);
    SaveStepsAreMultiples(maxSteps, interval);
    SaveStepsGrow(steps, maxSteps, interval);
  }

  lemma {:induction false} SaveStepsGrow(a: int, b: int, interval: int)
    requires 0 < interval && 0 <= a <= b
    ensures |SaveSteps(a, interval)| <= |SaveSteps(b, interval)|
    decreases b - a
  {
    if a < b {
      SaveStepsGrow(a, b - 1, interval);
    }
  }

  /** So epoch-priority's upper clamp leaves such a worker's progress at epoch over total. */
  lemma ProgressUnclamped(w: Cluster.WorkerState, steps: int, maxSteps: int, interval: int)
    requires 0 < interval && interval <= maxSteps && 0 <= steps <= maxSteps
    requires w.epoch == |SaveSteps(steps, interval)| && w.totalEpochs == maxSteps / interval
    ensures 0 < w.totalEpochs && Progress(w) == w.epoch as real / w.totalEpochs as real
  {
    EpochWithinTotal(steps, maxSteps, interval);
    EpochWithinTotal(interval, maxSteps, interval);
    SaveStepsAreMultiples(interval, interval);
    DivPos(w.epoch as real, w.totalEpochs as real);
    DivLe(w.epoch as real, w.totalEpochs as real, 1.0);
  }
}

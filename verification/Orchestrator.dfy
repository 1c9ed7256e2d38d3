/** The heartbeat protocol of the orchestrator (src/orchestrator/server.py) and its runs. */
module Orchestrator {
  import opened Cluster
  import opened Policies

  const EXIT_RATE := 500000000.0

  /**
   The servicer. One call of Heartbeat is one pass of Monitor's loop, atomic as a step;
   StreamEnd is its finally block.
   */
  class OrchestratorService {
    const policy: Policy
    const cluster: ClusterState
    var shuttingDown: bool

    constructor (policy: Policy, cluster: ClusterState)
      ensures this.policy == policy && this.cluster == cluster && !shuttingDown
    {
      this.policy := policy;
      this.cluster := cluster;
      shuttingDown := false;
    }

    method RequestShutdown()
      modifies this
      ensures shuttingDown
    {
      shuttingDown := true;
    }

    /** Registers the heartbeat, then answers it; done says that the loop breaks. */
    method Heartbeat(b: Beat, decidedAt: real) returns (instruction: Instruction, done: bool)
      requires policy.Valid()
      modifies cluster
      ensures done == shuttingDown
      ensures cluster.workers == Updated(old(cluster.workers), b)
      ensures shuttingDown ==> instruction == Instruction(Exit, 500000000.0)
      ensures !shuttingDown ==> instruction == Decide(policy, b.id, cluster.workers, decidedAt)
      ensures !shuttingDown ==> forall granted ::
                System(cluster.workers, Told(granted, b.id, instruction)) ==
                Handle(policy, System(old(cluster.workers), granted), Message.Heartbeat(b, decidedAt))
    {
      cluster.Update(b);
      if shuttingDown {
        return Instruction(Exit, EXIT_RATE), true;
      }
      var workers := cluster.Snapshot();
      instruction := DecideInstruction(policy, b.id, workers, decidedAt);
      done := false;
    }

    method StreamEnd(id: string)
      modifies cluster
      ensures cluster.workers == Dropped(old(cluster.workers), id)
    {
      if id != "" {
        cluster.Remove(id);
      }
    }
  }

  // ---- Runs before shutdown ---------------------------------------------------

  /** A heartbeat with the clock reading its decision uses, or the end of a worker's stream. */
  datatype Message = Heartbeat(b: Beat, decidedAt: real) | Disconnect(id: string)

  /** The registry, and the rate that every worker was granted last. */
  datatype System = System(workers: Registry, granted: map<string, real>)

  /** A hold leaves the rate that the migrater has installed. */
  function Told(granted: map<string, real>, id: string, instruction: Instruction): map<string, real> {
    if instruction.action == StartFlush then granted[id := instruction.rate] else granted
  }

  function Dropped(workers: Registry, id: string): Registry { if id == "" then workers else workers - {id} }

  ghost function Handle(p: Policy, s: System, m: Message): System
    requires p.Valid()
  {
    match m
    case Heartbeat(b, decidedAt) =>
      var workers := Updated(s.workers, b);
      System(workers, Told(s.granted, b.id, Decide(p, b.id, workers, decidedAt)))
    case Disconnect(id) => s.(workers := Dropped(s.workers, id))
  }

  ghost function Run(p: Policy, messages: seq<Message>): System
    requires p.Valid()
  {
    if messages == [] then System(map[], map[])
    else Handle(p, Run(p, messages[..|messages| - 1]), messages[|messages| - 1])
  }
}

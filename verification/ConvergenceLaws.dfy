/** When stale grants stop being stale: the granted rates add up to the bandwidth again. */
module ConvergenceLaws {
  import opened Arith
  import opened Sums
  import opened Cluster
  import opened Policies
  import opened PolicyLaws
  import opened Orchestrator
  import opened OvershootLaws

  /** The weights of the sharers at one clock reading, on which they depend under age-priority only. */
  ghost function WeightsAfter(p: Policy, messages: seq<Message>, now: real): map<string, real>
    requires p.Valid()
  {
    Weights(p, Run(p, messages).workers, now)
  }

  /** Since message i neither the sharers nor their weights at that clock reading have changed. */
  ghost predicate StableSince(p: Policy, messages: seq<Message>, i: nat, now: real)
    requires p.Valid()
  {
    forall j: nat :: i <= j <= |messages| ==> WeightsAfter(p, messages[..j], now) == WeightsAfter(p, messages, now)
  }

  /** Message j is the latest heartbeat of worker id. */
  predicate LatestBeat(messages: seq<Message>, id: string, j: nat) {
    && j < |messages| && messages[j].Heartbeat? && messages[j].b.id == id
    && forall k :: j < k < |messages| ==> !(messages[k].Heartbeat? && messages[k].b.id == id)
  }

  /**
   Worker id's latest heartbeat was decided on the registry after message i - 1 or later,
   under age-priority at this clock reading.
   */
  ghost predicate BeatSince(p: Policy, messages: seq<Message>, i: nat, now: real, id: string) {
    exists j: nat :: i <= j + 1 && LatestBeat(messages, id, j) && (p.AgePriority? ==> messages[j].decidedAt == now)
  }

  /** Every sharer has, and there are sharers. */
  ghost predicate AllBeatSince(p: Policy, messages: seq<Message>, i: nat, now: real)
    requires p.Valid()
  {
    && Sharers(p, Run(p, messages).workers) != {}
    && forall id :: id in Sharers(p, Run(p, messages).workers) ==> BeatSince(p, messages, i, now, id)
  }

  /** Apart from age-priority any heartbeat from message i - 1 on will do. */
  lemma AnyBeat(p: Policy, messages: seq<Message>, i: nat, now: real, id: string, k: nat)
    requires !p.AgePriority? && i <= k + 1 <= |messages| && messages[k].Heartbeat? && messages[k].b.id == id
    ensures BeatSince(p, messages, i, now, id)
  {
    var j := LatestBeatExists(messages, id, k);
  }

  lemma {:induction false} LatestBeatExists(messages: seq<Message>, id: string, k: nat) returns (j: nat)
    requires k < |messages| && messages[k].Heartbeat? && messages[k].b.id == id
    ensures k <= j && LatestBeat(messages, id, j)
  {
    var n := |messages| - 1;
    if messages[n].Heartbeat? && messages[n].b.id == id {
      j := n;
    } else {
      j := LatestBeatExists(messages[..n], id, k);
    }
  }

  lemma ClockFree(p: Policy, workers: Registry, t: real, now: real)
    requires p.Valid() && (p.AgePriority? ==> t == now)
    ensures Weights(p, workers, t) == Weights(p, workers, now)
  {
  }

  lemma StableFront(p: Policy, messages: seq<Message>, i: nat, now: real)
    requires p.Valid() && messages != [] && i < |messages| && StableSince(p, messages, i, now)
    ensures var front := messages[..|messages| - 1];
      StableSince(p, front, i, now) && WeightsAfter(p, front, now) == WeightsAfter(p, messages, now)
  {
    hide WeightsAfter;
    var n := |messages| - 1;
    forall k: nat | i <= k <= n
      ensures WeightsAfter(p, messages[..n][..k], now) == WeightsAfter(p, messages, now)
    {
      assert messages[..n][..k] == messages[..k];
    }
    assert messages[..n][..n] == messages[..n];
  }

  /** A sharer that has heartbeated since the weights last changed holds exactly its share. */
  lemma {:induction false} GrantCurrent(p: Policy, messages: seq<Message>, i: nat, now: real, id: string)
    requires p.Valid() && i <= |messages| && StableSince(p, messages, i, now)
    requires BeatSince(p, messages, i, now, id) && id in WeightsAfter(p, messages, now)
    ensures var weights, s := WeightsAfter(p, messages, now), Run(p, messages);
      && 0.0 < Sum(weights) && id in s.granted
      && s.granted[id] == Share(p.bandwidth, weights[id], Sum(weights))
  {
    hide Decide, Weights, Share, Updated, StableSince;
    var n := |messages| - 1;
    var front, m := messages[..n], messages[n];
    var s' := Run(p, messages);
    assert s' == Handle(p, Run(p, front), m);
    var j: nat :| i <= j + 1 && LatestBeat(messages, id, j) && (p.AgePriority? ==> messages[j].decidedAt == now);
    if j == n {
      KeyedRun(p, messages);
      ClockFree(p, s'.workers, m.decidedAt, now);
      GrantIsShare(p, id, s'.workers, m.decidedAt);
    } else {
      assert LatestBeat(front, id, j) && front[j] == messages[j];
      StableFront(p, messages, i, now);
      GrantCurrent(p, front, i, now, id);
    }
  }

  /**
   Re-convergence. In any run, once every sharer has heartbeated since the sharers and
   their weights last changed, the last-granted rates add up to exactly the bandwidth;
   under age-priority when these heartbeats were decided at one common clock reading.
   */
  lemma Reconverged(p: Policy, messages: seq<Message>, i: nat, now: real)
    requires p.Valid() && i <= |messages|
    requires StableSince(p, messages, i, now) && AllBeatSince(p, messages, i, now)
    ensures var s := Run(p, messages);
      && SharedGrants(p, s).Keys == Sharers(p, s.workers)
      && SharedGrants(p, s) == Grants(p, s.workers, now)
      && Sum(SharedGrants(p, s)) == p.bandwidth
  {
    hide Run, Decide, Weights, Share, BeatSince, StableSince;
    var s := Run(p, messages);
    KeyedRun(p, messages);
    forall id | id in Sharers(p, s.workers)
      ensures id in s.granted && s.granted[id] == Decide(p, id, s.workers, now).rate
    {
      GrantCurrent(p, messages, i, now, id);
      GrantIsShare(p, id, s.workers, now);
    }
    assert SharedGrants(p, s) == Grants(p, s.workers, now);
    SharesSumToCeiling(p, s.workers, now);
  }

  // ---- What the migraters install ---------------------------------------------

  /** The rates that the migraters install for these grants. */
  ghost function Installed(grants: map<string, real>): map<string, real> {
    map id | id in grants :: Int(grants[id]) as real
  }

  lemma {:induction false} InstalledSum(grants: map<string, real>)
    requires forall id :: id in grants ==> 0.0 <= grants[id]
    ensures Sum(grants) - |grants| as real <= Sum(Installed(grants)) <= Sum(grants)
    ensures grants != map[] ==> Sum(grants) - |grants| as real < Sum(Installed(grants))
    decreases |grants|
  {
    if grants == map[] {
      assert Installed(grants) == map[];
    } else {
      hide Sum;
      var id :| id in grants;
      RemoveShrinks(grants, id);
      SumRemove(grants, id);
      SumRemove(Installed(grants), id);
      assert Installed(grants) - {id} == Installed(grants - {id});
      InstalledSum(grants - {id});
    }
  }

  /** After re-convergence the installed rates stay within the bandwidth and lose less than n of it. */
  lemma InstalledAfterReconvergence(p: Policy, messages: seq<Message>, i: nat, now: real)
    requires p.Valid() && i <= |messages| && 0.0 <= p.bandwidth
    requires StableSince(p, messages, i, now) && AllBeatSince(p, messages, i, now)
    ensures var s := Run(p, messages);
      && Sum(Installed(SharedGrants(p, s))) <= p.bandwidth
      && p.bandwidth - |Sharers(p, s.workers)| as real < Sum(Installed(SharedGrants(p, s)))
  {
    hide Run, Weights, Share, BeatSince, StableSince, Installed, Decide;
    Reconverged(p, messages, i, now);
    KeyedRun(p, messages);
    var s := Run(p, messages);
    var grants := SharedGrants(p, s);
    forall id | id in grants
      ensures 0.0 <= grants[id]
    {
      GrantIsShare(p, id, s.workers, now);
      var weights := Weights(p, s.workers, now);
      ShareNonnegative(p.bandwidth, weights[id], Sum(weights));
    }
    InstalledSum(grants);
    assert |grants.Keys| == |grants|;
    assert grants != map[];
  }

  lemma ShareNonnegative(bandwidth: real, weight: real, total: real)
    requires 0.0 <= bandwidth && 0.0 < weight && 0.0 < total
    ensures 0.0 <= Share(bandwidth, weight, total)
  {
  }

  // ---- Ages over runs ---------------------------------------------------------

  /** What a message does to the registry. */
  function EventOf(m: Message): seq<Event> {
    match m
    case Heartbeat(b, _) => [Update(b)]
    case Disconnect(id) => if id == "" then [] else [Remove(id)]
  }

  function Events(messages: seq<Message>): seq<Event> {
    if messages == [] then [] else Events(messages[..|messages| - 1]) + EventOf(messages[|messages| - 1])
  }

  lemma ReplayMore(events: seq<Event>, more: seq<Event>)
    requires |more| <= 1
    ensures Replay(events + more) == if more == [] then Replay(events) else Apply(Replay(events), more[0])
  {
    if more == [] {
      assert events + more == events;
    } else {
      assert (events + more)[..|events|] == events;
    }
  }

  /** The registry of a run is the replay of its updates and removals. */
  lemma {:induction false} RunReplays(p: Policy, messages: seq<Message>)
    requires p.Valid()
    ensures Run(p, messages).workers == Replay(Events(messages))
  {
    if messages != [] {
      hide Decide, Updated, Replay;
      var front, m := messages[..|messages| - 1], messages[|messages| - 1];
      RunReplays(p, front);
      ReplayMore(Events(front), EventOf(m));
    }
  }

  /** In every run on a clock that never goes backwards, age-priority starves no active worker. */
  lemma AgeNoStarvationInRuns(p: Policy, messages: seq<Message>, now: real, id: string)
    requires p.Valid() && p.AgePriority? && 0.0 <= p.bandwidth
    requires ClockBy(Events(messages), now) && id in ActiveIds(Run(p, messages).workers)
    ensures var workers := Run(p, messages).workers;
      var most, rate := MostWeight(p, workers), Decide(p, id, workers, now).rate;
      && 0.0 < most
      && Share(p.bandwidth, EPS, most) <= rate
      && (IsMax(Ages(workers, now), Age(workers[id], now)) && 0.0 < Age(workers[id], now) ==>
            Share(p.bandwidth, p.beta, most) <= rate)
      && (IsMax(Sizes(workers), workers[id].checkpointSize) ==> Share(p.bandwidth, p.alpha, most) <= rate)
  {
    hide Run, Decide, Weights, Share, MostWeight, IsMax;
    var workers := Run(p, messages).workers;
    KeyedRun(p, messages);
    RunReplays(p, messages);
    forall i | i in ActiveIds(workers)
      ensures 0.0 <= Age(workers[i], now)
    {
      AgesNonnegative(Events(messages), now, i);
    }
    AgeNoStarvation(p, id, workers, now);
  }
}

/**
 What the orchestrator and the token buckets achieve together: a limit on the bytes that
 the workers that share the bandwidth in the registry write to the parallel file system,
 one copy each, and what copies of other workers add to it.
 */
module BandwidthCeiling {
  import opened Arith
  import opened Sums
  import opened Cluster
  import opened Policies
  import opened PolicyLaws
  import opened Orchestrator
  import opened OvershootLaws
  import opened ConvergenceLaws
  import opened TokenBucket
  import opened TokenBucketLaws

  /**
   One worker's copy: its job, the iterations its loop has carried out, and how many of
   them came before the worker's present grant took effect. The grants and rates that
   those earlier iterations saw do not matter.
   */
  datatype Transfer = Transfer(job: Job, ticks: seq<Tick>, since: nat) {
    predicate Valid() { job.Valid() && since <= |ticks| }

    function Before(): Copy
      requires Valid()
    {
      job.After(ticks[..since])
    }

    /** The bytes written since the grant took effect. */
    function Written(): real
      requires Valid()
    {
      (job.After(ticks).copied - Before().copied) as real
    }

    /** The tokens that the copy brings along from earlier: never more than one capacity at its new rate is spent. */
    function Carried(rate: int): real
      requires Valid()
    {
      Min(Before().tokens, Capacity(job.cfg, rate))
    }
  }

  /** For at most `elapsed` seconds, the copy has seen rates of at most r. */
  ghost predicate Within(t: Transfer, r: int, elapsed: real) {
    && t.Valid() && Ordered(t.job, t.ticks) && Performed(t.job, t.ticks) && RatesAtMostFrom(t.ticks, t.since, r)
    && HeadTime(t.job, t.ticks) - HeadTime(t.job, t.ticks[..t.since]) <= elapsed
  }

  /** Every transfer obeys the rate that its worker has installed for its grant. */
  ghost predicate Enforced(transfers: map<string, Transfer>, grants: map<string, real>, elapsed: real) {
    transfers.Keys == grants.Keys && forall id :: id in transfers ==> Within(transfers[id], Int(grants[id]), elapsed)
  }

  ghost predicate AllValid(transfers: map<string, Transfer>) {
    forall id :: id in transfers ==> transfers[id].Valid()
  }

  ghost function Written(transfers: map<string, Transfer>): map<string, real>
    requires AllValid(transfers)
  {
    map id | id in transfers :: transfers[id].Written()
  }

  ghost function Carried(transfers: map<string, Transfer>, grants: map<string, real>): map<string, real>
    requires AllValid(transfers) && transfers.Keys == grants.Keys
  {
    map id | id in transfers :: transfers[id].Carried(Int(grants[id]))
  }

  /** Nothing carried is negative or more than one capacity at the new rate, and a copy that starts carries nothing. */
  ghost predicate CarriedWithin(transfers: map<string, Transfer>, grants: map<string, real>)
    requires AllValid(transfers) && transfers.Keys == grants.Keys
  {
    forall id :: id in transfers ==>
      var t, rate := transfers[id], Int(grants[id]);
      && 0.0 <= t.Carried(rate) <= Capacity(t.job.cfg, rate)
      && (t.since == 0 ==> t.Carried(rate) == 0.0)
  }

  /** Since its grant took effect a copy has written at most that rate's worth, and what it carried. */
  lemma WithinGrant(t: Transfer, grant: real, elapsed: real)
    requires Within(t, Int(grant), elapsed) && 0.0 <= grant
    ensures t.Written() <= Times(elapsed, grant) + t.Carried(Int(grant))
    ensures 0.0 <= t.Carried(Int(grant)) <= Capacity(t.job.cfg, Int(grant))
    ensures t.since == 0 ==> t.Carried(Int(grant)) == 0.0
  {
    hide TokenBucket.Run, Step, Earned, Times, Int, Capacity, Credit;
    WindowLimit(t.job, t.ticks, t.since, Int(grant));
    TokenConservation(t.job, t.ticks);
    PrefixOrdered(t.job, t.ticks, t.since);
    TokenConservation(t.job, t.ticks[..t.since]);
    CapacityPositive(t.job.cfg, Int(grant));
    EarnedWithin(HeadTime(t.job, t.ticks) - HeadTime(t.job, t.ticks[..t.since]), elapsed, grant);
    if t.since == |t.ticks| {
      assert t.ticks[..t.since] == t.ticks;
    }
    if t.since == 0 {
      NothingEarned(t.job, t.ticks[..t.since]);
    }
  }

  lemma CapacityPositive(cfg: Config, rate: int)
    requires 0 < cfg.chunkSize
    ensures 0.0 < Capacity(cfg, rate)
  {
  }

  lemma NothingEarned(job: Job, ticks: seq<Tick>)
    requires job.Valid() && ticks == []
    ensures job.After(ticks).tokens == 0.0
  {
  }

  lemma EarnedWithin(spent: real, elapsed: real, grant: real)
    requires 0.0 <= spent <= elapsed && 0.0 <= grant
    ensures 0.0 <= Earned(spent, Int(grant)) <= Times(elapsed, grant)
  {
  }

  lemma {:induction false} SumMono(a: map<string, real>, b: map<string, real>)
    requires a.Keys == b.Keys && forall id :: id in a ==> a[id] <= b[id]
    ensures Sum(a) <= Sum(b)
    decreases |a|
  {
    if a == map[] {
      assert b == map[];
    } else {
      var id :| id in a;
      RemoveShrinks(a, id);
      RemoveShrinks(b, id);
      SumRemove(a, id);
      SumRemove(b, id);
      SumMono(a - {id}, b - {id});
    }
  }

  lemma {:induction false} SumPlus(a: map<string, real>, b: map<string, real>, c: map<string, real>)
    requires a.Keys == b.Keys == c.Keys && forall id :: id in a ==> c[id] == a[id] + b[id]
    ensures Sum(c) == Sum(a) + Sum(b)
    decreases |a|
  {
    if a == map[] {
      assert b == map[] && c == map[];
    } else {
      hide Sum;
      var id :| id in a;
      RemoveShrinks(a, id);
      RemoveShrinks(b, id);
      RemoveShrinks(c, id);
      SumRemove(a, id);
      SumRemove(b, id);
      SumRemove(c, id);
      SumPlus(a - {id}, b - {id}, c - {id});
    }
  }

  /** Together the workers have written at most the sum of their grants, per second, and what they carried. */
  lemma WrittenWithinGrants(transfers: map<string, Transfer>, grants: map<string, real>, elapsed: real)
    requires Enforced(transfers, grants, elapsed) && forall id :: id in grants ==> 0.0 <= grants[id]
    ensures AllValid(transfers)
    ensures Sum(Written(transfers)) <= Times(elapsed, Sum(grants)) + Sum(Carried(transfers, grants))
    ensures CarriedWithin(transfers, grants)
    ensures (forall id :: id in transfers ==> transfers[id].since == 0) ==> Sum(Carried(transfers, grants)) == 0.0
  {
    hide Within, Times, Sum, Int, TokenBucket.Run, Min, Capacity;
    EnforcedValid(transfers, grants, elapsed);
    forall id | id in transfers
      ensures transfers[id].Written() <= Times(elapsed, grants[id]) + transfers[id].Carried(Int(grants[id]))
      ensures 0.0 <= transfers[id].Carried(Int(grants[id])) <= Capacity(transfers[id].job.cfg, Int(grants[id]))
      ensures transfers[id].since == 0 ==> transfers[id].Carried(Int(grants[id])) == 0.0
    {
      WithinGrant(transfers[id], grants[id], elapsed);
    }
    var carried := Carried(transfers, grants);
    var allowed := map id | id in grants :: Times(elapsed, grants[id]);
    var most := map id | id in grants :: allowed[id] + carried[id];
    SumScale(grants, allowed, elapsed);
    SumPlus(allowed, carried, most);
    SumMono(Written(transfers), most);
    if forall id :: id in transfers ==> transfers[id].since == 0 {
      SumZeroIff(carried);
    }
  }

  lemma EnforcedValid(transfers: map<string, Transfer>, grants: map<string, real>, elapsed: real)
    requires Enforced(transfers, grants, elapsed)
    ensures AllValid(transfers) && transfers.Keys == grants.Keys
    ensures forall id :: id in transfers ==> Within(transfers[id], Int(grants[id]), elapsed)
  {
  }

  /**
   The ceiling. Once the grants have re-converged, the workers that share the bandwidth in
   the registry, one copy each, write, from the moment each has its new rate, at most bandwidth * elapsed bytes, plus
   for every copy that was already running the balance it carries, of at most one
   capacity. Rates they saw before do not matter.
   */
  lemma CeilingAfterReconvergence(p: Policy, messages: seq<Message>, i: nat, now: real,
                                 transfers: map<string, Transfer>, elapsed: real)
    requires p.Valid() && i <= |messages| && 0.0 <= p.bandwidth
    requires StableSince(p, messages, i, now) && AllBeatSince(p, messages, i, now)
    requires Enforced(transfers, SharedGrants(p, Orchestrator.Run(p, messages)), elapsed)
    ensures var grants := SharedGrants(p, Orchestrator.Run(p, messages));
      && AllValid(transfers) && transfers.Keys == grants.Keys && CarriedWithin(transfers, grants)
      && Sum(Written(transfers)) <= Times(elapsed, p.bandwidth) + Sum(Carried(transfers, grants))
      && ((forall id :: id in transfers ==> transfers[id].since == 0) ==>
            Sum(Written(transfers)) <= Times(elapsed, p.bandwidth))
  {
    hide Orchestrator.Run, StableSince, AllBeatSince, Times, Within, Sum, SharedGrants, CarriedWithin;
    var s := Orchestrator.Run(p, messages);
    Reconverged(p, messages, i, now);
    SharedNonnegative(p, messages);
    WrittenWithinGrants(transfers, SharedGrants(p, s), elapsed);
  }

  /**
   At any time under a fair-share policy, stale grants included, these workers write at
   most H(n) times as much, plus what the copies carry from before their present grant.
   */
  lemma CeilingWhileStale(p: Policy, messages: seq<Message>, transfers: map<string, Transfer>, elapsed: real)
    requires (p.UniformFairShare? || p.ActiveFairShare?) && 0.0 <= p.bandwidth && 0.0 <= elapsed
    requires Enforced(transfers, SharedGrants(p, Orchestrator.Run(p, messages)), elapsed)
    ensures var grants := SharedGrants(p, Orchestrator.Run(p, messages));
      var most := Times(elapsed, Times(p.bandwidth, Harmonic(|Sharers(p, Orchestrator.Run(p, messages).workers)|)));
      && AllValid(transfers) && transfers.Keys == grants.Keys && CarriedWithin(transfers, grants)
      && Sum(Written(transfers)) <= most + Sum(Carried(transfers, grants))
      && ((forall id :: id in transfers ==> transfers[id].since == 0) ==> Sum(Written(transfers)) <= most)
  {
    hide Orchestrator.Run, Times, Within, Sum, SharedGrants, Harmonic, CarriedWithin;
    var s := Orchestrator.Run(p, messages);
    SharedNonnegative(p, messages);
    FairShareOvershoot(p, messages);
    WrittenWithinGrants(transfers, SharedGrants(p, s), elapsed);
    TimesMono(elapsed, Sum(SharedGrants(p, s)), Times(p.bandwidth, Harmonic(|Sharers(p, s.workers)|)));
  }

  // ---- Workers outside the registry's count -------------------------------------

  /** The last rates granted to these workers, whether or not they still share the bandwidth. */
  ghost function RunningGrants(s: System, running: set<string>): map<string, real> {
    map id | id in running && id in s.granted :: s.granted[id]
  }

  /** The sharers are among these workers, and all of them have been granted a rate. */
  ghost predicate Covers(p: Policy, s: System, running: set<string>) {
    Sharers(p, s.workers) <= running <= s.granted.Keys
  }

  /** What the others were granted, those that have left or report nothing pending, comes on top. */
  lemma RunningSplit(p: Policy, s: System, running: set<string>)
    requires Covers(p, s, running)
    ensures Sum(RunningGrants(s, running))
            == Sum(SharedGrants(p, s)) + Sum(RunningGrants(s, running - Sharers(p, s.workers)))
  {
    hide Sum;
    SumSplit(RunningGrants(s, running), SharedGrants(p, s));
    assert RunningGrants(s, running) - SharedGrants(p, s).Keys == RunningGrants(s, running - Sharers(p, s.workers));
  }

  /**
   When the ceiling holds for more workers than the registry counts. After re-convergence
   the rates of any workers that include the sharers add up to at most the bandwidth if
   and only if all the others hold grant 0.
   */
  lemma CeilingCoversIff(p: Policy, messages: seq<Message>, i: nat, now: real, running: set<string>)
    requires p.Valid() && i <= |messages| && 0.0 <= p.bandwidth
    requires StableSince(p, messages, i, now) && AllBeatSince(p, messages, i, now)
    requires Covers(p, Orchestrator.Run(p, messages), running)
    ensures var s := Orchestrator.Run(p, messages);
      Sum(RunningGrants(s, running)) <= p.bandwidth <==>
      forall id :: id in running - Sharers(p, s.workers) ==> s.granted[id] == 0.0
  {
    hide Orchestrator.Run, StableSince, AllBeatSince, Sum, Sharers;
    var s := Orchestrator.Run(p, messages);
    Reconverged(p, messages, i, now);
    RunningSplit(p, s, running);
    GrantsNonnegative(p, messages);
    var others := RunningGrants(s, running - Sharers(p, s.workers));
    SumZeroIff(others);
    assert forall id :: id in running - Sharers(p, s.workers) ==> id in others && others[id] == s.granted[id];
  }

  lemma RunningTotal(p: Policy, messages: seq<Message>, i: nat, now: real, running: set<string>)
    requires p.Valid() && i <= |messages| && 0.0 <= p.bandwidth
    requires StableSince(p, messages, i, now) && AllBeatSince(p, messages, i, now)
    requires Covers(p, Orchestrator.Run(p, messages), running)
    ensures var s := Orchestrator.Run(p, messages);
      && Sum(RunningGrants(s, running)) == p.bandwidth + Sum(RunningGrants(s, running - Sharers(p, s.workers)))
      && NoneNegative(RunningGrants(s, running))
  {
    hide Orchestrator.Run, StableSince, AllBeatSince, Sum, Sharers, SharedGrants, Covers, Grants;
    Reconverged(p, messages, i, now);
    RunningSplit(p, Orchestrator.Run(p, messages), running);
    GrantsNonnegative(p, messages);
  }

  /** In bytes: copies of the other workers add at most their last grants to the ceiling. */
  lemma CeilingWithOthers(p: Policy, messages: seq<Message>, i: nat, now: real, running: set<string>,
                          transfers: map<string, Transfer>, elapsed: real)
    requires p.Valid() && i <= |messages| && 0.0 <= p.bandwidth
    requires StableSince(p, messages, i, now) && AllBeatSince(p, messages, i, now)
    requires Covers(p, Orchestrator.Run(p, messages), running)
    requires Enforced(transfers, RunningGrants(Orchestrator.Run(p, messages), running), elapsed)
    ensures var s := Orchestrator.Run(p, messages);
      var grants, others := RunningGrants(s, running), RunningGrants(s, running - Sharers(p, s.workers));
      && AllValid(transfers) && transfers.Keys == grants.Keys && CarriedWithin(transfers, grants)
      && Sum(Written(transfers)) <= Times(elapsed, p.bandwidth + Sum(others)) + Sum(Carried(transfers, grants))
  {
    hide Orchestrator.Run, StableSince, AllBeatSince, Times, Within, Sum, CarriedWithin, Sharers, Covers, RunningGrants;
    RunningTotal(p, messages, i, now, running);
    WrittenWithinGrants(transfers, RunningGrants(Orchestrator.Run(p, messages), running), elapsed);
  }

  /** The same while grants are stale, under a fair-share policy. */
  lemma StaleCeilingWithOthers(p: Policy, messages: seq<Message>, running: set<string>,
                               transfers: map<string, Transfer>, elapsed: real)
    requires (p.UniformFairShare? || p.ActiveFairShare?) && 0.0 <= p.bandwidth && 0.0 <= elapsed
    requires Covers(p, Orchestrator.Run(p, messages), running)
    requires Enforced(transfers, RunningGrants(Orchestrator.Run(p, messages), running), elapsed)
    ensures var s := Orchestrator.Run(p, messages);
      var grants, others := RunningGrants(s, running), RunningGrants(s, running - Sharers(p, s.workers));
      var most := Times(p.bandwidth, Harmonic(|Sharers(p, s.workers)|)) + Sum(others);
      && AllValid(transfers) && transfers.Keys == grants.Keys && CarriedWithin(transfers, grants)
      && Sum(Written(transfers)) <= Times(elapsed, most) + Sum(Carried(transfers, grants))
  {
    hide Orchestrator.Run, Times, Within, Sum, SharedGrants, CarriedWithin, Sharers, Harmonic;
    var s := Orchestrator.Run(p, messages);
    var others := RunningGrants(s, running - Sharers(p, s.workers));
    FairShareOvershoot(p, messages);
    RunningSplit(p, s, running);
    GrantsNonnegative(p, messages);
    WrittenWithinGrants(transfers, RunningGrants(s, running), elapsed);
    TimesMono(elapsed, Sum(RunningGrants(s, running)),
              Times(p.bandwidth, Harmonic(|Sharers(p, s.workers)|)) + Sum(others));
  }

  function Joins(id: string): Message { Message.Heartbeat(Beat(id, 1.0, false, 0, 0, 0.0), 0.0) }

  const DEPARTURE := [Joins("a")] + [Message.Disconnect("a")] + [Joins("b")]

  const TEN := ActiveFairShare(10.0)

  /** A worker whose stream ends keeps its grant, and the next one is granted the whole bandwidth again. */
  lemma DepartedKeepsGrant()
    ensures var s := Orchestrator.Run(TEN, DEPARTURE);
      && StableSince(TEN, DEPARTURE, 3, 0.0) && AllBeatSince(TEN, DEPARTURE, 3, 0.0)
      && Covers(TEN, s, {"a", "b"}) && Sharers(TEN, s.workers) == {"b"}
      && s.granted == map["a" := 10.0, "b" := 10.0]
      && Sum(RunningGrants(s, {"a", "b"})) == 20.0
  {
    hide Orchestrator.Run, WeightsAfter, Sum, Sharers;
    DepartureRun();
    var s := Orchestrator.Run(TEN, DEPARTURE);
    assert DEPARTURE[..3] == DEPARTURE;
    assert LatestBeat(DEPARTURE, "b", 2);
    assert BeatSince(TEN, DEPARTURE, 3, 0.0, "b");
    assert RunningGrants(s, {"a", "b"}) == s.granted;
    TwoTens();
  }

  lemma TwoTens()
    ensures Sum(map["a" := 10.0, "b" := 10.0]) == 20.0
  {
    var grants := map["a" := 10.0, "b" := 10.0];
    SumRemove(grants, "a");
    assert grants - {"a"} == map["b" := 10.0];
    SumRemove(grants - {"a"}, "b");
    assert grants - {"a"} - {"b"} == map[];
  }

  lemma RunMessage(messages: seq<Message>, m: Message)
    ensures Orchestrator.Run(TEN, messages + [m]) == Handle(TEN, Orchestrator.Run(TEN, messages), m)
  {
  }

  lemma DepartureRun()
    ensures var s := Orchestrator.Run(TEN, DEPARTURE);
      Sharers(TEN, s.workers) == {"b"} && s.granted == map["a" := 10.0, "b" := 10.0]
  {
    hide Orchestrator.Run, Decide, Sharers, Updated;
    var s0 := System(map[], map[]);
    StartEmpty();
    RunMessage([], Joins("a"));
    assert [] + [Joins("a")] == [Joins("a")];
    LoneGrant(s0, "a");
    RunMessage([Joins("a")], Message.Disconnect("a"));
    RunMessage([Joins("a")] + [Message.Disconnect("a")], Joins("b"));
    LoneGrant(Handle(TEN, Handle(TEN, s0, Joins("a")), Message.Disconnect("a")), "b");
  }

  lemma StartEmpty()
    ensures Orchestrator.Run(TEN, []) == System(map[], map[])
  {
  }

  /** The only registered worker is granted all. */
  lemma LoneGrant(s: System, id: string)
    requires s.workers == map[]
    ensures var s' := Handle(TEN, s, Joins(id));
      s'.workers.Keys == {id} && Sharers(TEN, s'.workers) == {id} && s'.granted == s.granted[id := 10.0]
  {
    assert ActiveIds(Handle(TEN, s, Joins(id)).workers) == {id};
  }

  lemma SharedNonnegative(p: Policy, messages: seq<Message>)
    requires p.Valid() && 0.0 <= p.bandwidth
    ensures var grants := SharedGrants(p, Orchestrator.Run(p, messages));
      NoneNegative(grants)
  {
    hide Orchestrator.Run;
    GrantsNonnegative(p, messages);
  }

  ghost predicate NoneNegative(granted: map<string, real>) { forall id :: id in granted ==> 0.0 <= granted[id] }

  /** No grant is ever negative. */
  lemma {:induction false} GrantsNonnegative(p: Policy, messages: seq<Message>)
    requires p.Valid() && 0.0 <= p.bandwidth
    ensures NoneNegative(Orchestrator.Run(p, messages).granted)
  {
    hide Handle;
    if messages != [] {
      var front, m := messages[..|messages| - 1], messages[|messages| - 1];
      GrantsNonnegative(p, front);
      KeyedRun(p, messages);
      HandledNonnegative(p, Orchestrator.Run(p, front), m);
    }
  }

  lemma HandledNonnegative(p: Policy, s: System, m: Message)
    requires p.Valid() && 0.0 <= p.bandwidth && NoneNegative(s.granted) && Keyed(Handle(p, s, m).workers)
    ensures NoneNegative(Handle(p, s, m).granted)
  {
    hide Decide, Updated, Keyed;
    if m.Heartbeat? {
      RateNonnegative(p, m.b.id, Handle(p, s, m).workers, m.decidedAt);
    }
  }

  lemma RateNonnegative(p: Policy, id: string, workers: Registry, now: real)
    requires p.Valid() && 0.0 <= p.bandwidth && Keyed(workers)
    ensures 0.0 <= Decide(p, id, workers, now).rate
  {
    if id in Sharers(p, workers) {
      hide Decide, Share, Weights;
      GrantIsShare(p, id, workers, now);
      var weights := Weights(p, workers, now);
      ShareNonnegative(p.bandwidth, weights[id], Sum(weights));
    } else if p.UniformFairShare? && workers != map[] {
      DivPos(p.bandwidth, |workers| as real);
    }
  }
}

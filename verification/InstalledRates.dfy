/** From the orchestrator's grants through the migraters' runs to the copies: what the ceiling takes for granted. */
module InstalledRates {
  import opened Arith
  import opened Sums
  import opened Policies
  import opened TokenBucketLaws
  import opened Migrater
  import opened ShutdownLaws
  import Orchestrator
  import opened ConvergenceLaws
  import opened BandwidthCeiling

  /**
   A worker's migrater and copy: the state in which the grant arrives, the events after it
   and the copy, of which the iterations from `transfer.since` on came after the grant.
   */
  datatype Worker = Worker(before: State, events: seq<Event>, transfer: Transfer) {
    function Granted(rate: real): State { Instructed(before, Instruction(StartFlush, rate)) }
  }

  /** Every rate that the copy has sampled since the grant was the migrater's current rate at some point since. */
  ghost predicate Samples(w: Worker, rate: real) {
    forall j :: w.transfer.since <= j < |w.transfer.ticks| ==>
      exists k: nat :: k <= |w.events| &&
        w.transfer.ticks[j].rate == RunFrom(w.Granted(rate), w.events[..k]).currentRate
  }

  /** The grant has arrived on an open stream and no later instruction has, and the copy has run for `elapsed` since. */
  ghost predicate Follows(w: Worker, rate: real, elapsed: real) {
    && w.before.streamOpen && NoPermission(w.events)
    && w.transfer.Valid() && Ordered(w.transfer.job, w.transfer.ticks) && Performed(w.transfer.job, w.transfer.ticks)
    && HeadTime(w.transfer.job, w.transfer.ticks)
       - HeadTime(w.transfer.job, w.transfer.ticks[..w.transfer.since]) <= elapsed
    && Samples(w, rate)
  }

  /** So the copy obeys the grant, however the migrater's run goes on, the end of its stream included. */
  lemma FollowsWithin(w: Worker, rate: real, elapsed: real)
    requires Follows(w, rate, elapsed) && 0.0 <= rate
    ensures Within(w.transfer, Int(rate), elapsed)
  {
    hide RunFrom, Instructed;
    var t := w.transfer;
    forall j | t.since <= j < |t.ticks|
      ensures t.ticks[j].rate <= Int(rate)
    {
      var k: nat :| k <= |w.events| && t.ticks[j].rate == RunFrom(w.Granted(rate), w.events[..k]).currentRate;
      GrantStaysInstalled(w.before, rate, w.events[..k]);
    }
  }

  function Transfers(workers: map<string, Worker>): map<string, Transfer> {
    map id | id in workers :: workers[id].transfer
  }

  /** The migraters of these workers follow their last grants. */
  ghost predicate AllFollow(workers: map<string, Worker>, grants: map<string, real>, elapsed: real) {
    workers.Keys == grants.Keys && forall id :: id in workers ==> Follows(workers[id], grants[id], elapsed)
  }

  lemma FollowersEnforce(workers: map<string, Worker>, grants: map<string, real>, elapsed: real)
    requires AllFollow(workers, grants, elapsed) && forall id :: id in grants ==> 0.0 <= grants[id]
    ensures Enforced(Transfers(workers), grants, elapsed)
  {
    hide Follows, Within, Int;
    forall id | id in workers
      ensures Within(workers[id].transfer, Int(grants[id]), elapsed)
    {
      FollowsWithin(workers[id], grants[id], elapsed);
    }
  }

  /**
   The ceiling end to end. After re-convergence let any workers that include the sharers
   have received their last grants, and let their migraters run on in any way without
   another instruction than HOLD. Then their copies, one each, have written since at most
   elapsed times the bandwidth and the grants of those that no longer share it, plus what
   the copies carried.
   */
  lemma CeilingOfMigraters(p: Policy, messages: seq<Orchestrator.Message>, i: nat, now: real, running: set<string>,
                           workers: map<string, Worker>, elapsed: real)
    requires p.Valid() && i <= |messages| && 0.0 <= p.bandwidth
    requires StableSince(p, messages, i, now) && AllBeatSince(p, messages, i, now)
    requires Covers(p, Orchestrator.Run(p, messages), running)
    requires AllFollow(workers, RunningGrants(Orchestrator.Run(p, messages), running), elapsed)
    ensures var s := Orchestrator.Run(p, messages);
      var grants, others := RunningGrants(s, running), RunningGrants(s, running - Sharers(p, s.workers));
      && AllValid(Transfers(workers)) && workers.Keys == grants.Keys && CarriedWithin(Transfers(workers), grants)
      && Sum(Written(Transfers(workers))) <=
         Times(elapsed, p.bandwidth + Sum(others)) + Sum(Carried(Transfers(workers), grants))
  {
    hide Orchestrator.Run, StableSince, AllBeatSince, Times, Sum, CarriedWithin, Sharers, Follows, Enforced, AllValid;
    GrantsNonnegative(p, messages);
    FollowersEnforce(workers, RunningGrants(Orchestrator.Run(p, messages), running), elapsed);
    CeilingWithOthers(p, messages, i, now, running, Transfers(workers), elapsed);
  }

  /**
   The two halves of a departure: the end of its stream leaves a worker's copies and their
   rate alone, while the orchestrator gives its share away again (DepartedKeepsGrant).
   */
  lemma DepartedKeepsCopying(s: State)
    ensures var s' := Next(s, StreamFails);
      && s'.copying == s.copying && s'.currentRate == s.currentRate && s'.transferActive == s.transferActive
      && forall i :: Next(s', Instruct(i)) == s'
  {
  }
}

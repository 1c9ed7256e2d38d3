/**
 The pending age end to end: what the copy reports, what survives the bounded buffer,
 what the heartbeats send and what the orchestrator makes of it.
 */
module PendingAge {
  import opened Common
  import TokenBucket
  import opened TokenBucketLaws
  import opened ProgressReports
  import opened Migrater
  import opened Progress
  import opened ShutdownLaws
  import Cluster

  // ---- Migrater: heartbeats report the latest progress -------------------------

  /** The run from s accepts no notification; it may reject some. */
  ghost predicate NoneAccepted(s: State, events: seq<Event>) {
    forall k: nat :: k < |events| ==> !Accepts(RunFrom(s, events[..k]), events[k])
  }

  lemma NoneAcceptedFront(s: State, events: seq<Event>)
    requires events != [] && NoneAccepted(s, events)
    ensures NoneAccepted(s, Front(events)) && !Accepts(RunFrom(s, Front(events)), Last(events))
  {
    hide RunFrom, Accepts;
    forall k: nat | k < |events| - 1
      ensures Front(events)[..k] == events[..k] && Front(events)[k] == events[k]
    {
    }
  }

  /** The reports that copies have added to the buffer, dropped or not. */
  function Emissions(s: State, events: seq<Event>): seq<TokenBucket.Report> {
    if events == [] then []
    else
      var e := Last(events);
      Emissions(s, Front(events)) + if e.Emit? && e.id in RunFrom(s, Front(events)).copying then [e.r] else []
  }

  /** The sizes that the heartbeats have sent. */
  function Sizes(s: State, events: seq<Event>): seq<int> {
    if events == [] then []
    else
      var before := RunFrom(s, Front(events));
      Sizes(s, Front(events)) +
      if Last(events).Beat? && Request(before).Some? then [Request(before).value.checkpointSize] else []
  }

  /** What is left of `size` bytes according to the latest report. */
  function Remaining(size: int, reports: seq<TokenBucket.Report>): int {
    if reports == [] then size else Last(reports).remainingBytes
  }

  /** The buffer, when it holds anything, ends with the latest report; otherwise the pending size reflects it. */
  ghost predicate Tracks(s: State, size: int, reports: seq<TokenBucket.Report>) {
    if s.progress == [] then s.pendingSize == Remaining(size, reports)
    else reports != [] && Last(s.progress) == Last(reports)
  }

  lemma TracksStep(s: State, e: Event, size: int, reports: seq<TokenBucket.Report>)
    requires Tracks(s, size, reports) && !Accepts(s, e)
    ensures Tracks(Next(s, e), size, reports + if e.Emit? && e.id in s.copying then [e.r] else [])
    ensures Next(s, e).epoch == s.epoch && Next(s, e).totalEpochs == s.totalEpochs
    ensures Request(s).Some? ==>
              var request := Request(s).value;
              && request.checkpointSize == Remaining(size, reports)
              && request.epoch == s.epoch && request.totalEpochs == s.totalEpochs
  {
    if e.Emit? && e.id in s.copying {
      NewestEndsWith(s.progress, e.r);
    } else {
      assert reports + [] == reports;
      if !e.Beat? { QuietStep(s, e); }
    }
  }

  /** Only heartbeats, reports and notifications touch what heartbeats send. */
  lemma QuietStep(s: State, e: Event)
    requires !e.Beat? && !Accepts(s, e) && (e.Emit? ==> e.id !in s.copying)
    ensures var s' := Next(s, e);
      && s'.progress == s.progress && s'.pendingSize == s.pendingSize
      && s'.epoch == s.epoch && s'.totalEpochs == s.totalEpochs
  {
  }

  lemma NewestEndsWith(progress: seq<TokenBucket.Report>, r: TokenBucket.Report)
    ensures var kept := Newest(progress + [r], BUFFER_LENGTH); kept != [] && Last(kept) == r
  {
  }

  /**
   From a drained buffer on and without a further notification, every heartbeat sends
   exactly what the latest report says remains, however many reports were dropped, and
   the epoch of the notification.
   */
  lemma {:induction false} HeartbeatSendsLatest(s: State, events: seq<Event>)
    requires s.progress == [] && NoneAccepted(s, events)
    ensures var s' := RunFrom(s, events);
      && Tracks(s', s.pendingSize, Emissions(s, events))
      && s'.epoch == s.epoch && s'.totalEpochs == s.totalEpochs
      && (Request(s').Some? ==>
            var request := Request(s').value;
            && request.checkpointSize == Remaining(s.pendingSize, Emissions(s, events))
            && request.epoch == s.epoch && request.totalEpochs == s.totalEpochs)
  {
    if events == [] {
      TracksStep(s, Beat, s.pendingSize, []);
    } else {
      hide Next, Request, Tracks, Accepts;
      var front := Front(events);
      NoneAcceptedFront(s, events);
      HeartbeatSendsLatest(s, front);
      TracksStep(RunFrom(s, front), Last(events), s.pendingSize, Emissions(s, front));
      TracksStep(RunFrom(s, events), Beat, s.pendingSize, Emissions(s, events));
    }
  }

  /**
   So the heartbeats after an accepted notification carry its epoch and total, and first its
   file's size, then what the reports leave of it.
   */
  lemma HeartbeatCarriesNotification(s: State, size: nat, epoch: int, total: int, events: seq<Event>)
    requires s.progress == [] && NotifyOutcome(s, Some(size)) == Accepted
    requires NoneAccepted(Notified(s, Some(size), epoch, total), events)
    requires Request(RunFrom(Notified(s, Some(size), epoch, total), events)).Some?
    ensures var request := Request(RunFrom(Notified(s, Some(size), epoch, total), events)).value;
      var reports := Emissions(Notified(s, Some(size), epoch, total), events);
      && request.epoch == epoch && request.totalEpochs == total
      && request.checkpointSize == if reports == [] then size else Last(reports).remainingBytes
  {
    hide RunFrom, Request, Emissions;
    HeartbeatSendsLatest(Notified(s, Some(size), epoch, total), events);
  }

  predicate Nonincreasing(sizes: seq<int>) {
    sizes == [] || (Nonincreasing(Front(sizes)) && (|sizes| == 1 || Last(sizes) <= Last(Front(sizes))))
  }

  lemma RemainingShrinks(size: nat, reports: seq<TokenBucket.Report>, r: int)
    requires SoundReports(reports, size, r) && reports != []
    ensures 0 <= Remaining(size, reports) <= Remaining(size, Front(reports)) <= size
  {
  }

  lemma NonincreasingSnoc(sizes: seq<int>, x: int)
    requires Nonincreasing(sizes) && (sizes == [] || x <= Last(sizes))
    ensures Nonincreasing(sizes + [x]) && Front(sizes + [x]) == sizes && Last(sizes + [x]) == x
  {
  }

  /** With sound reports the heartbeat sizes start at the file size at most and never increase. */
  lemma {:induction false} SizesNonincreasing(s: State, events: seq<Event>, r: int)
    requires s.progress == [] && NoneAccepted(s, events) && 0 <= s.pendingSize
    requires SoundReports(Emissions(s, events), s.pendingSize, r)
    ensures var sizes := Sizes(s, events);
      && Nonincreasing(sizes)
      && 0 <= Remaining(s.pendingSize, Emissions(s, events))
      && (sizes != [] ==> Remaining(s.pendingSize, Emissions(s, events)) <= Last(sizes) <= sizes[0] <= s.pendingSize)
  {
    if events != [] {
      hide Next, Request, Tracks, RunFrom, SoundReports, Remaining, Nonincreasing, Accepts;
      var front := Front(events);
      NoneAcceptedFront(s, events);
      EmissionsGrow(s, events, r);
      SizesNonincreasing(s, front, r);
      HeartbeatSendsLatest(s, front);
      FirstBounded(s.pendingSize, Emissions(s, front), r);
      var sizes, x := Sizes(s, front), Remaining(s.pendingSize, Emissions(s, front));
      NonincreasingSnoc(sizes, x);
      assert sizes + [] == sizes;
      assert Sizes(s, events) == sizes || Sizes(s, events) == sizes + [x];
    } else {
      FirstBounded(s.pendingSize, [], r);
    }
  }

  lemma EmissionsGrow(s: State, events: seq<Event>, r: int)
    requires events != [] && 0 <= s.pendingSize && SoundReports(Emissions(s, events), s.pendingSize, r)
    ensures var before, after := Emissions(s, Front(events)), Emissions(s, events);
      && SoundReports(before, s.pendingSize, r)
      && 0 <= Remaining(s.pendingSize, after) <= Remaining(s.pendingSize, before)
  {
    hide Next, RunFrom;
    var before, after := Emissions(s, Front(events)), Emissions(s, events);
    FirstBounded(s.pendingSize, after, r);
    if after != before {
      assert Front(after) == before;
      RemainingShrinks(s.pendingSize, after, r);
    }
  }

  lemma FirstBounded(size: nat, reports: seq<TokenBucket.Report>, r: int)
    requires SoundReports(reports, size, r)
    ensures 0 <= Remaining(size, reports) <= size
  {
  }

  /**
   The drained buffer matters: the first heartbeat after an accepted notification sends
   the new file's size exactly when no other size is left over in the buffer.
   */
  lemma FirstHeartbeat(s: State, size: nat, epoch: int, totalEpochs: int)
    requires NotifyOutcome(s, Some(size)) == Accepted
    requires Request(Notified(s, Some(size), epoch, totalEpochs)).Some?
    ensures Request(Notified(s, Some(size), epoch, totalEpochs)).value.checkpointSize == size <==>
            (s.progress == [] || Last(s.progress).remainingBytes == size)
  {
  }

  /**
   After the copy the worker stops being active exactly when its last report was complete:
   a heartbeat sends zero if and only if the file was empty, the clock had moved before
   the final report, or the report before it was already complete.
   */
  lemma PendingClears(accepted: State, events: seq<Event>, job: Job, ticks: seq<TokenBucket.Tick>, r: int)
    requires accepted.progress == [] && accepted.pendingSize == |job.src| && NoneAccepted(accepted, events)
    requires job.Valid() && Ordered(job, ticks) && Performed(job, ticks) && RatesAtMost(ticks, r) && 0 <= r
    requires job.cfg.hasCallback && job.After(ticks).phase.Finished?
    requires Emissions(accepted, events) == job.After(ticks).reporter.reports
    requires Request(RunFrom(accepted, events)).Some?
    ensures var before := job.After(Front(ticks)).reporter;
      Request(RunFrom(accepted, events)).value.checkpointSize == 0 <==>
      (job.src == [] || before.time < Last(ticks).reportNow || (before.reports != [] && before.bytes == |job.src|))
  {
    hide TokenBucket.Run, RunFrom, Request, Emissions;
    HeartbeatSendsLatest(accepted, events);
    FinalReport(job, ticks, r);
    ReportsSound(job, ticks, r);
    FirstBounded(|job.src|, job.After(ticks).reporter.reports, r);
  }

  // ---- Orchestrator: the age counts from the first of these heartbeats ----------

  /** The sizes that worker id reports in these registry events, in order. */
  function Reported(events: seq<Cluster.Event>, id: string): seq<int> {
    if events == [] then []
    else
      var e := Last(events);
      Reported(Front(events), id) + if e.Update? && e.b.id == id then [e.b.size.Floor] else []
  }

  /** Only whole sizes are sent, and the worker's stream stays up. */
  predicate FromHeartbeats(events: seq<Cluster.Event>, id: string) {
    forall k :: 0 <= k < |events| && events[k].Id() == id ==>
                  events[k].Update? && events[k].b.size == events[k].b.size.Floor as real
  }

  lemma {:induction false} EarlierAtLeastLast(events: seq<Cluster.Event>, id: string, k: nat)
    requires FromHeartbeats(events, id) && Nonincreasing(Reported(events, id))
    requires k < |events| && events[k].Id() == id
    ensures Reported(events, id) != [] && Last(Reported(events, id)) <= events[k].b.size.Floor
  {
    var front, e := Front(events), Last(events);
    if e.Id() == id {
      assert Reported(events, id) == Reported(front, id) + [e.b.size.Floor];
      assert Front(Reported(events, id)) == Reported(front, id);
    } else {
      assert Reported(events, id) == Reported(front, id);
    }
    if k < |front| {
      hide Nonincreasing;
      assert front[k] == events[k];
      EarlierAtLeastLast(front, id, k);
    }
  }

  lemma {:induction false} LastReported(events: seq<Cluster.Event>, id: string, k: nat)
    requires FromHeartbeats(events, id) && Cluster.IsLatest(events, id, k)
    ensures Reported(events, id) != [] && Last(Reported(events, id)) == events[k].b.size.Floor
  {
    if k < |events| - 1 {
      assert Front(events)[k] == events[k];
      assert Cluster.IsLatest(Front(events), id, k);
      LastReported(Front(events), id, k);
      assert Last(events).Id() != id;
    }
  }

  /** f is the first of the later events about id. */
  ghost predicate IsFirst(before: seq<Cluster.Event>, later: seq<Cluster.Event>, id: string, f: nat) {
    && |before| <= f < |before| + |later| && (before + later)[f].Id() == id
    && forall j :: |before| <= j < f ==> (before + later)[j].Id() != id
  }

  lemma IdleUntilFirst(before: seq<Cluster.Event>, later: seq<Cluster.Event>, id: string, f: nat)
    requires Cluster.Idle(before, id) && IsFirst(before, later, id, f)
    ensures Cluster.Idle((before + later)[..f], id)
  {
    var prefix := (before + later)[..f];
    forall k | Cluster.IsLatest(prefix, id, k)
      ensures prefix[k].Ends()
    {
      assert prefix[k] == (before + later)[k];
      assert k < |before| && before[k] == prefix[k];
      forall j | k < j < |before|
        ensures before[j].Id() != id
      {
        assert prefix[j] == before[j];
      }
      assert Cluster.IsLatest(before, id, k);
    }
  }

  /** While sizes that never increase are still positive, `pendingSince` is the time of the first of them. */
  lemma PendingSinceFirst(before: seq<Cluster.Event>, later: seq<Cluster.Event>, id: string, f: nat)
    requires Cluster.Idle(before, id) && IsFirst(before, later, id, f)
    requires FromHeartbeats(later, id) && Nonincreasing(Reported(later, id))
    requires id in Cluster.Replay(before + later) && Cluster.Replay(before + later)[id].checkpointSize > 0.0
    ensures Cluster.Replay(before + later)[id].pendingSince == Some((before + later)[f].b.now)
  {
    hide Cluster.Replay;
    var events := before + later;
    Cluster.ReplayIsLatest(events, id);
    var k :| Cluster.IsLatest(events, id, k) && events[k].Update?;
    assert f <= k;
    LatestInLater(before, later, id, k);
    LastReported(later, id, k - |before|);
    forall j | f <= j < |events| && events[j].Id() == id
      ensures events[j].Update? && !events[j].Ends()
    {
      assert later[j - |before|] == events[j];
      EarlierAtLeastLast(later, id, j - |before|);
    }
    IdleUntilFirst(before, later, id, f);
    assert Cluster.OpensRun(events, id, f);
    var start := Cluster.PendingSinceOpensRun(events, id);
    Cluster.OpensRunOnce(events, id, start, f);
  }

  lemma LatestInLater(before: seq<Cluster.Event>, later: seq<Cluster.Event>, id: string, k: int)
    requires Cluster.IsLatest(before + later, id, k) && |before| <= k
    ensures Cluster.IsLatest(later, id, k - |before|) && later[k - |before|] == (before + later)[k]
  {
    forall j | k - |before| < j < |later|
      ensures later[j].Id() != id
    {
      assert (before + later)[j + |before|] == later[j];
    }
  }

  /**
   End to end. A checkpoint is accepted on a drained buffer, no other is notified, its
   copy reports as the copy loop does, and its heartbeats reach the registry, which had
   nothing pending for this worker. Then, until a heartbeat reports zero, the worker's
   `pendingSince` is the time of that checkpoint's first heartbeat.
   */
  lemma PendingAgeEndToEnd(accepted: State, events: seq<Event>, job: Job, ticks: seq<TokenBucket.Tick>, r: int,
                           before: seq<Cluster.Event>, later: seq<Cluster.Event>, id: string, f: nat)
    requires accepted.progress == [] && accepted.pendingSize == |job.src| && NoneAccepted(accepted, events)
    requires job.Valid() && Ordered(job, ticks) && Performed(job, ticks) && RatesAtMost(ticks, r) && 0 <= r
    requires Emissions(accepted, events) == job.After(ticks).reporter.reports
    requires Cluster.Idle(before, id) && FromHeartbeats(later, id) && IsFirst(before, later, id, f)
    requires Reported(later, id) == Sizes(accepted, events)
    requires id in Cluster.Replay(before + later) && Cluster.Replay(before + later)[id].checkpointSize > 0.0
    ensures Cluster.Replay(before + later)[id].pendingSince == Some((before + later)[f].b.now)
  {
    hide Cluster.Replay, TokenBucket.Run, Sizes, Emissions;
    ReportsSound(job, ticks, r);
    SizesNonincreasing(accepted, events, r);
    PendingSinceFirst(before, later, id, f);
  }
}

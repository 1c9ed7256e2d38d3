/** How the orchestrator's answer to a heartbeat decides whether an accepted checkpoint is ever copied. */
module PermissionLaws {
  import opened Common
  import opened TokenBucketLaws
  import Cluster
  import opened Policies
  import opened Migrater
  import opened ShutdownLaws
  import opened PendingAge
  import opened CompletionLaws

  /** A heartbeat as the orchestrator registers it. */
  function BeatOf(id: string, request: HeartbeatRequest, now: real): Cluster.Beat {
    Cluster.Beat(id, request.checkpointSize as real, request.isMigrating, request.epoch, request.totalEpochs, now)
  }

  /** The orchestrator's answer before shutdown, on any registry and at any clock readings. */
  ghost function Answer(p: Policy, id: string, request: HeartbeatRequest,
                        workers: Cluster.Registry, now: real, decidedAt: real): Instruction
    requires p.Valid()
  {
    Decide(p, id, Cluster.Updated(workers, BeatOf(id, request, now)), decidedAt)
  }

  /** Under every policy but uniform-fair-share the answer permits a transfer exactly when bytes are pending. */
  lemma AnswerPermits(p: Policy, id: string, request: HeartbeatRequest,
                      workers: Cluster.Registry, now: real, decidedAt: real)
    requires p.Valid() && !p.UniformFairShare?
    ensures var answer := Answer(p, id, request, workers, now, decidedAt);
      if 0 < request.checkpointSize then answer.action == StartFlush else answer == HOLD
  {
  }

  /** What the first heartbeat after a notification reports as pending. */
  function FirstSize(s: State, size: nat): int { if s.progress == [] then size else Last(s.progress).remainingBytes }

  /**
   From the notification to the copy. Under every policy but uniform-fair-share, the
   answer to the first heartbeat after an accepted notification lets the copy start if
   and only if that heartbeat reports bytes: the leftover progress decides, or, with a
   drained buffer, the file's own size.
   */
  lemma FirstAnswerStarts(p: Policy, s: State, size: nat, epoch: int, total: int,
                          id: string, workers: Cluster.Registry, now: real, decidedAt: real)
    requires p.Valid() && !p.UniformFairShare? && NotifyOutcome(s, Some(size)) == Accepted
    requires Request(Notified(s, Some(size), epoch, total)).Some?
    ensures var accepted := Notified(s, Some(size), epoch, total);
      var answer := Answer(p, id, Request(accepted).value, workers, now, decidedAt);
      var released := Released(Instructed(Beaten(accepted), answer), s.accepted);
      if 0 < FirstSize(s, size) then
        Begun(released, s.accepted).transferActive && s.accepted in Begun(released, s.accepted).copying
      else released == Beaten(accepted)
  {
    hide Answer;
    AnswerPermits(p, id, Request(Notified(s, Some(size), epoch, total)).value, workers, now, decidedAt);
  }

  // ---- A closed loop ------------------------------------------------------------

  /** Instruction k answers a heartbeat that was sent before it in this run. */
  ghost predicate AnswersEarlier(p: Policy, id: string, s: State, events: seq<Event>, k: nat)
    requires p.Valid() && k < |events| && events[k].Instruct?
  {
    exists j: nat, workers: Cluster.Registry, now: real, decidedAt: real ::
      j < k && events[j] == Beat && Sends(s, events, j) &&
      events[k].i == Answer(p, id, Request(RunFrom(s, events[..j])).value, workers, now, decidedAt)
  }

  predicate Sends(s: State, events: seq<Event>, j: nat)
    requires j <= |events|
  {
    Request(RunFrom(s, events[..j])).Some?
  }

  /** All instructions of the run are the orchestrator's answers to its own heartbeats. */
  ghost predicate Answered(p: Policy, id: string, s: State, events: seq<Event>)
    requires p.Valid()
  {
    forall k: nat :: k < |events| && events[k].Instruct? ==> AnswersEarlier(p, id, s, events, k)
  }

  /** Nothing copies, no permission is given, and the next heartbeat, if any, reports nothing. */
  ghost predicate Starved(s: State) {
    && !s.transferAllowed && s.copying == {} && s.released == {}
    && if s.progress == [] then s.pendingSize <= 0 else Last(s.progress).remainingBytes <= 0
  }

  lemma StarvedStep(s: State, e: Event)
    requires Starved(s) && !Accepts(s, e) && !Permits(e)
    ensures Starved(Next(s, e)) && Next(s, e).waiting == s.waiting
  {
  }

  lemma StarvedSends(s: State)
    requires Starved(s) && Request(s).Some?
    ensures Request(s).value.checkpointSize <= 0
  {
  }

  lemma {:induction false} StaysStarved(p: Policy, id: string, s: State, events: seq<Event>, k: nat)
    requires p.Valid() && !p.UniformFairShare? && Starved(s)
    requires NoneAccepted(s, events) && Answered(p, id, s, events) && k <= |events|
    ensures forall j: nat :: j <= k ==> Starved(RunFrom(s, events[..j]))
    ensures RunFrom(s, events[..k]).waiting == s.waiting
  {
    hide Next, Starved, Answer, Request;
    if k != 0 {
      var n: nat := k - 1;
      StaysStarved(p, id, s, events, n);
      assert events[..k][..n] == events[..n];
      if events[n].Instruct? {
        assert AnswersEarlier(p, id, s, events, n);
        var j: nat, workers: Cluster.Registry, now: real, decidedAt: real :|
          j < n && events[j] == Beat && Sends(s, events, j) &&
          events[n].i == Answer(p, id, Request(RunFrom(s, events[..j])).value, workers, now, decidedAt);
        StarvedSends(RunFrom(s, events[..j]));
        AnswerPermits(p, id, Request(RunFrom(s, events[..j])).value, workers, now, decidedAt);
      }
      StarvedStep(RunFrom(s, events[..n]), events[n]);
    }
  }

  /**
   What leftover progress costs. A checkpoint is accepted while nothing copies and the
   first heartbeat will report nothing pending. Then under every policy but
   uniform-fair-share, whatever the orchestrator's registry holds, the answers to its
   heartbeats never let it start, until another notification or EXIT.
   */
  lemma LeftoverStarves(p: Policy, id: string, s: State, size: nat, epoch: int, total: int, events: seq<Event>)
    requires p.Valid() && !p.UniformFairShare? && NotifyOutcome(s, Some(size)) == Accepted
    requires s.copying == {} && s.released == {} && FirstSize(s, size) <= 0
    requires NoneAccepted(Notified(s, Some(size), epoch, total), events)
    requires Answered(p, id, Notified(s, Some(size), epoch, total), events)
    ensures var s' := RunFrom(Notified(s, Some(size), epoch, total), events);
      !s'.transferAllowed && s'.copying == {} && s'.released == {} && s'.waiting == s.waiting + {s.accepted}
  {
    hide Next, Answered, RunFrom;
    StaysStarved(p, id, Notified(s, Some(size), epoch, total), events, |events|);
    assert events[..|events|] == events;
  }

  /** The input: after this run an accepted sixteen-byte checkpoint waits, and its heartbeat reports nothing pending. */
  lemma LeftoverSendsZero()
    ensures var s := RunFrom(INITIAL, LEFTOVER_RUN);
      && s.waiting == {1} && s.pendingSize == 16
      && Request(s).Some? && Request(s).value.checkpointSize == 0 && Starved(s)
  {
    hide RunFrom;
    LeftoverReached();
  }
}

/** Safety of the migrater's transfers and shutdown over all runs. */
module ShutdownLaws {
  import opened Common
  import opened Arith
  import opened TokenBucket
  import opened Policies
  import opened Migrater

  datatype Event =
    | Notify(file: Option<nat>, epoch: int, totalEpochs: int)
    | Release(id: nat)
    | Begin(id: nat)
    | Emit(id: nat, r: Report)
    | End(id: nat)
    | Beat
    | Instruct(i: Instruction)
    | StreamFails
    | Interrupt

  function Next(s: State, e: Event): State {
    match e
    case Notify(file, epoch, totalEpochs) => Notified(s, file, epoch, totalEpochs)
    case Release(id) => Released(s, id)
    case Begin(id) => Begun(s, id)
    case Emit(id, r) => Emitted(s, id, r)
    case End(id) => Ended(s, id)
    case Beat => Beaten(s)
    case Instruct(i) => Instructed(s, i)
    case StreamFails => StreamEnded(s)
    case Interrupt => Interrupted(s)
  }

  function RunFrom(s: State, events: seq<Event>): State {
    if events == [] then s else Next(RunFrom(s, events[..|events| - 1]), events[|events| - 1])
  }

  /** A notification that the state accepts. */
  predicate Accepts(s: State, e: Event) { e.Notify? && NotifyOutcome(s, e.file) == Accepted }

  // ---- The two flags ----------------------------------------------------------

  /** Completion implies a request, whatever happened. */
  lemma {:induction false} CompleteImpliesRequested(events: seq<Event>)
    ensures var s := RunFrom(INITIAL, events); s.shutdownComplete ==> s.shutdownRequested
  {
    if events != [] {
      CompleteImpliesRequested(events[..|events| - 1]);
    }
  }

  lemma FlagsKept(s: State, e: Event)
    ensures var s' := Next(s, e);
      && (s.shutdownComplete ==> s'.shutdownComplete)
      && (s.shutdownRequested ==> s'.shutdownRequested && Unfinished(s') <= Unfinished(s))
  {
  }

  /** Neither flag is ever cleared, and once shutdown is requested no notification is accepted. */
  lemma {:induction false} FlagsStay(s: State, events: seq<Event>)
    ensures var s' := RunFrom(s, events);
      && (s.shutdownComplete ==> s'.shutdownComplete)
      && (s.shutdownRequested ==>
            && s'.shutdownRequested
            && Unfinished(s') <= Unfinished(s)
            && forall e :: !Accepts(s', e))
  {
    if events != [] {
      hide Next;
      var front := events[..|events| - 1];
      FlagsStay(s, front);
      FlagsKept(RunFrom(s, front), events[|events| - 1]);
    }
  }

  // ---- Permission and rate ----------------------------------------------------

  /** An instruction other than HOLD: it gives permission and sets a rate. */
  predicate Permits(e: Event) { e.Instruct? && e.i.action != Hold }

  predicate NoPermission(events: seq<Event>) { forall k :: 0 <= k < |events| ==> !Permits(events[k]) }

  /** No waiting transfer gets past its wait; those past it may start, and no others. */
  ghost predicate Held(s: State, s': State) {
    && !s'.transferAllowed && s.waiting <= s'.waiting
    && s'.released <= s.released && s'.released + s'.copying <= s.released + s.copying
    && (!s.streamOpen ==> !s'.streamOpen)
    && (s.currentRate == 0 ==> s'.currentRate == 0)
  }

  lemma HeldStep(s: State, e: Event)
    requires !s.transferAllowed && (!Permits(e) || !s.streamOpen)
    ensures Held(s, Next(s, e))
  {
  }

  lemma {:induction false} StaysHeld(s: State, events: seq<Event>)
    requires !s.transferAllowed && (NoPermission(events) || !s.streamOpen)
    ensures Held(s, RunFrom(s, events))
  {
    hide Next;
    if events != [] {
      var front := events[..|events| - 1];
      StaysHeld(s, front);
      HeldStep(RunFrom(s, front), events[|events| - 1]);
    }
  }

  /** Transfers have different numbers, and the next one's is new. */
  ghost predicate Distinct(s: State) {
    && (forall id :: id in s.waiting ==> id < s.accepted && id !in s.released && id !in s.copying)
    && (forall id :: id in s.released ==> id < s.accepted && id !in s.copying)
    && (forall id :: id in s.copying ==> id < s.accepted)
  }

  lemma DistinctStep(s: State, e: Event)
    requires Distinct(s)
    ensures Distinct(Next(s, e))
  {
  }

  lemma {:induction false} TransfersDistinct(events: seq<Event>)
    ensures Distinct(RunFrom(INITIAL, events))
  {
    hide Next;
    if events != [] {
      var front := events[..|events| - 1];
      TransfersDistinct(front);
      DistinctStep(RunFrom(INITIAL, front), events[|events| - 1]);
    }
  }

  /**
   A transfer needs a fresh permission: after its notification is accepted it waits, and a
   rate of zero stays zero, until an instruction other than HOLD arrives. Transfers that
   an earlier permission has let past their wait may still start.
   */
  lemma {:induction false} CopyNeedsPermission(s: State, file: Option<nat>, epoch: int, total: int, events: seq<Event>)
    requires NotifyOutcome(s, file) == Accepted && NoPermission(events) && Distinct(s)
    ensures var s' := RunFrom(Notified(s, file, epoch, total), events);
      && s.accepted in s'.waiting && s.accepted !in s'.released + s'.copying
      && s'.copying <= s.released + s.copying
      && (s.currentRate == 0 ==> s'.currentRate == 0)
  {
    StaysHeld(Notified(s, file, epoch, total), events);
  }

  /** Such a transfer does start, although a later notification has withdrawn the permission. */
  lemma ReleasedStillStarts() returns (events: seq<Event>)
    ensures var s := RunFrom(INITIAL, events); s.copying == {0} && s.waiting == {1} && !s.transferAllowed
    ensures events == [Notify(Some(8), 1, 2), START4, Release(0)] + [Notify(Some(8), 2, 2), Begin(0)]
  {
    hide Next;
    events := [Notify(Some(8), 1, 2), START4, Release(0)] + [Notify(Some(8), 2, 2), Begin(0)];
    RunAppend(INITIAL, [Notify(Some(8), 1, 2), START4, Release(0)], [Notify(Some(8), 2, 2), Begin(0)]);
    OneReleased();
    RunTwo(ONE_RELEASED, Notify(Some(8), 2, 2), Begin(0));
    Overtaken();
  }

  lemma Overtaken()
    ensures var s := Next(Next(ONE_RELEASED, Notify(Some(8), 2, 2)), Begin(0));
      s.copying == {0} && s.waiting == {1} && !s.transferAllowed
  {
  }

  /** Once the heartbeat stream has ended, an accepted checkpoint never starts copying, whatever happens. */
  lemma {:induction false} EndedStreamStrands(s: State, file: Option<nat>, epoch: int, total: int, events: seq<Event>)
    requires !s.streamOpen && NotifyOutcome(s, file) == Accepted && Distinct(s)
    ensures var s' := RunFrom(Notified(s, file, epoch, total), events);
      s.accepted in s'.waiting && s.accepted !in s'.released + s'.copying && !s'.transferAllowed && !s'.streamOpen
  {
    StaysHeld(Notified(s, file, epoch, total), events);
  }

  /** A copying transfer reaches its finally block. */
  predicate Finishes(s: State, e: Event) { e.End? && e.id in s.copying }

  /** How many transfers have reached their finally block. */
  function Endings(s: State, events: seq<Event>): nat {
    if events == [] then 0
    else
      var n := |events| - 1;
      Endings(s, events[..n]) + if Finishes(RunFrom(s, events[..n]), events[n]) then 1 else 0
  }

  /** Without a further instruction a rate stays what it is until a transfer ends, and is 0 from then on. */
  lemma {:induction false} RateStays(s: State, events: seq<Event>)
    requires NoPermission(events) || !s.streamOpen
    ensures var s' := RunFrom(s, events);
      && s'.currentRate == (if Endings(s, events) == 0 then s.currentRate else 0)
      && (!s.streamOpen ==> !s'.streamOpen)
  {
    if events != [] {
      hide Next;
      var n := |events| - 1;
      RateStays(s, events[..n]);
      RateStep(RunFrom(s, events[..n]), events[n]);
    }
  }

  lemma RateStep(s: State, e: Event)
    requires !Permits(e) || !s.streamOpen
    ensures Next(s, e).currentRate == if Finishes(s, e) then 0 else s.currentRate
    ensures !s.streamOpen ==> !Next(s, e).streamOpen
  {
  }

  /** A grant is installed truncated and stays the rate until a transfer ends, unless an instruction replaces it. */
  lemma {:induction false} GrantStaysInstalled(s: State, rate: real, events: seq<Event>)
    requires s.streamOpen && NoPermission(events)
    ensures var granted := Instructed(s, Instruction(StartFlush, rate));
      RunFrom(granted, events).currentRate == if Endings(granted, events) == 0 then Int(rate) else 0
  {
    RateStays(Instructed(s, Instruction(StartFlush, rate)), events);
  }

  // ---- Shutdown ---------------------------------------------------------------

  /** Transfer id copies, it is the only unfinished one, and the service has not completed. */
  predicate SoleTransfer(s: State, id: nat) {
    s.transferActive && s.copying == {id} && s.waiting == {} && s.released == {} && !s.shutdownComplete
  }

  lemma WaitStep(s: State, e: Event, id: nat)
    requires s.shutdownRequested
    ensures SoleTransfer(s, id) && e != End(id) ==> SoleTransfer(Next(s, e), id)
    ensures SoleTransfer(s, id) && e == End(id) ==> Next(s, e).shutdownComplete
    ensures s.shutdownComplete ==> Next(s, e).shutdownComplete
    ensures Next(s, e).shutdownRequested
  {
  }

  /**
   Shutdown waits for the copy. Once shutdown is requested while a sole transfer copies,
   by EXIT or by an interrupt, completion is signalled exactly when that transfer has
   reached its finally block.
   */
  lemma {:induction false} ShutdownWaitsForSoleTransfer(s: State, id: nat, events: seq<Event>)
    requires s.shutdownRequested && SoleTransfer(s, id)
    ensures var s' := RunFrom(s, events);
      && s'.shutdownRequested
      && (s'.shutdownComplete <==> End(id) in events)
      && (End(id) !in events ==> SoleTransfer(s', id))
  {
    if events != [] {
      hide Next;
      var n := |events| - 1;
      ShutdownWaitsForSoleTransfer(s, id, events[..n]);
      assert events == events[..n] + [events[n]];
      WaitStep(RunFrom(s, events[..n]), events[n], id);
    }
  }

  /** EXIT and the interrupt are such requests: neither completes while a transfer is active. */
  lemma RequestsDuringTransfer(s: State, id: nat, limit: real)
    requires SoleTransfer(s, id) && s.streamOpen
    ensures var exit, interrupt := Instructed(s, Instruction(Exit, limit)), Interrupted(s);
      && exit.shutdownRequested && SoleTransfer(exit, id)
      && interrupt.shutdownRequested && SoleTransfer(interrupt, id)
  {
  }

  /** After EXIT only the end of a transfer completes a shutdown that EXIT itself has not completed. */
  lemma ExitedStep(s: State, e: Event)
    requires s.shutdownRequested && !s.streamOpen && (s.shutdownComplete || s.transferActive)
    ensures var s' := Next(s, e);
      && s'.shutdownRequested && !s'.streamOpen && (s'.shutdownComplete || s'.transferActive)
      && (s'.shutdownComplete <==> s.shutdownComplete || Finishes(s, e))
  {
  }

  /**
   When EXIT leads to completion: at once if no transfer is marked active, even if one
   waits to start, and otherwise exactly when a transfer reaches its finally block.
   */
  lemma {:induction false} ExitCompletes(s: State, limit: real, events: seq<Event>)
    requires s.streamOpen
    ensures var exited := Instructed(s, Instruction(Exit, limit));
      var s' := RunFrom(exited, events);
      && (s'.shutdownComplete <==> s.shutdownComplete || !s.transferActive || Endings(exited, events) != 0)
      && s'.shutdownRequested && !s'.streamOpen && (s'.shutdownComplete || s'.transferActive)
  {
    hide Next, Finishes;
    if events != [] {
      var n := |events| - 1;
      ExitCompletes(s, limit, events[..n]);
      ExitedStep(RunFrom(Instructed(s, Instruction(Exit, limit)), events[..n]), events[n]);
    }
  }

  /** EXIT leaves a positive rate exactly when it was before, or bytes are pending and EXIT brings no negative rate. */
  lemma ExitRatePositive(s: State, limit: real)
    ensures 0 < ExitRate(s, limit) <==> (0 < s.currentRate || (0 < s.pendingSize && 0 <= Int(limit)))
  {
  }

  /**
   After EXIT no instruction is handled any more: the rate that EXIT left stays until a
   transfer ends. So it is positive up to then exactly under the condition above.
   */
  lemma RateAfterExit(s: State, limit: real, events: seq<Event>)
    requires s.streamOpen
    ensures var exited := Instructed(s, Instruction(Exit, limit));
      var s', ended := RunFrom(exited, events), Endings(exited, events) != 0;
      && s'.currentRate == (if ended then 0 else ExitRate(s, limit))
      && (0 < s'.currentRate <==> !ended && (0 < s.currentRate || (0 < s.pendingSize && 0 <= Int(limit))))
  {
    RateStays(Instructed(s, Instruction(Exit, limit)), events);
    ExitRatePositive(s, limit);
  }

  /** A copy that only ever sees rate zero neither writes nor ends, however long it runs. */
  lemma {:induction false} ZeroRateNeverEnds(cfg: Config, src: Bytes, c: Copy, ticks: seq<Tick>)
    requires 0 < cfg.chunkSize && c.phase.Running?
    requires forall k :: 0 <= k < |ticks| ==> ticks[k].rate == 0
    ensures var c' := Run(cfg, src, c, ticks); c'.phase.Running? && c'.dst == c.dst
  {
    if ticks != [] {
      hide MaybeReport;
      ZeroRateNeverEnds(cfg, src, c, ticks[..|ticks| - 1]);
    }
  }

  /**
   EXIT can leave a transfer without a rate: after a grant below one byte per second
   and a report that nothing remains to be written, the sole transfer is left at rate 0,
   while the read that would find the end of its file still needs tokens.
   */
  lemma ExitCanStall() returns (events: seq<Event>)
    ensures var s := RunFrom(INITIAL, events); SoleTransfer(s, 0) && s.streamOpen && ExitRate(s, 500000000.0) == 0
  {
    hide Next;
    var slow := Instruct(Instruction(StartFlush, 0.5));
    var done := Emit(0, Report(2.0, 8, 8, 0, 2.0, 4.0, 4.0, 0, 4));
    var rest := [slow, done, Beat];
    RunAppend(INITIAL, COPYING_RUN, rest);
    CopyingReached();
    RunThree(COPYING, slow, done, Beat);
    SlowsToZero();
    NothingPending(done);
    events := COPYING_RUN + rest;
  }

  /** One transfer of an eight-byte file is active, at rate zero. */
  const AT_ZERO := State(8, true, 0, true, [], 1, 2, false, false, true, 1, {}, {}, {0})

  lemma SlowsToZero()
    ensures Next(COPYING, Instruct(Instruction(StartFlush, 0.5))) == AT_ZERO
  {
  }

  lemma NothingPending(done: Event)
    requires done.Emit? && done.id == 0 && done.r.remainingBytes == 0 && done.r.totalBytes != 0
    ensures Next(Next(AT_ZERO, done), Beat) == AT_ZERO.(pendingSize := 0)
  {
  }

  // ---- Running concrete events ------------------------------------------------

  lemma RunMore(s: State, events: seq<Event>, e: Event)
    ensures RunFrom(s, events + [e]) == Next(RunFrom(s, events), e)
  {
  }

  lemma RunTwo(s: State, a: Event, b: Event)
    ensures RunFrom(s, [a, b]) == Next(Next(s, a), b)
  {
    hide Next;
    RunMore(s, [], a);
    assert [] + [a] == [a];
    RunMore(s, [a], b);
    assert [a] + [b] == [a, b];
  }

  lemma RunThree(s: State, a: Event, b: Event, c: Event)
    ensures RunFrom(s, [a, b, c]) == Next(Next(Next(s, a), b), c)
  {
    hide Next;
    RunTwo(s, a, b);
    RunMore(s, [a, b], c);
    assert [a, b] + [c] == [a, b, c];
  }

  lemma {:induction false} RunAppend(s: State, first: seq<Event>, second: seq<Event>)
    ensures RunFrom(s, first + second) == RunFrom(RunFrom(s, first), second)
    decreases |second|
  {
    hide Next;
    if second == [] {
      assert first + second == first;
    } else {
      var n := |second| - 1;
      RunAppend(s, first, second[..n]);
      RunMore(s, first + second[..n], second[n]);
      assert first + second == first + second[..n] + [second[n]];
    }
  }

  const START4 := Instruct(Instruction(StartFlush, 4.0))

  /** A transfer of eight bytes is past its wait. */
  const ONE_RELEASED := State(8, false, 4, true, [], 1, 2, false, false, true, 1, {}, {0}, {})

  /** A transfer of eight bytes copies. */
  const COPYING := State(8, true, 4, true, [], 1, 2, false, false, true, 1, {}, {}, {0})

  const COPYING_RUN := [Notify(Some(8), 1, 2), START4, Release(0)] + [Begin(0)]

  lemma OneReleased()
    ensures RunFrom(INITIAL, [Notify(Some(8), 1, 2), START4, Release(0)]) == ONE_RELEASED
  {
    RunThree(INITIAL, Notify(Some(8), 1, 2), START4, Release(0));
  }

  lemma CopyingReached()
    ensures RunFrom(INITIAL, COPYING_RUN) == COPYING
  {
    OneReleased();
    RunMore(INITIAL, [Notify(Some(8), 1, 2), START4, Release(0)], Begin(0));
  }

  /** EXIT can abandon a checkpoint that was accepted but had no permission yet. */
  lemma ExitAbandonsWaiting() returns (events: seq<Event>)
    ensures var s := RunFrom(INITIAL, events);
      s.shutdownComplete && s.waiting == {0} && s.copying == {} && s.pendingSize == 8
  {
    events := [Notify(Some(8), 1, 2), Instruct(Instruction(Exit, 500000000.0))];
    RunTwo(INITIAL, events[0], events[1]);
  }

  // ---- One transfer at a time -------------------------------------------------

  /** No notification is accepted while an earlier one's transfer has not begun to copy. */
  ghost predicate Sequential(events: seq<Event>) {
    forall k: nat :: k < |events| ==> InOrder(RunFrom(INITIAL, events[..k]), events[k])
  }

  predicate InOrder(s: State, e: Event) { Accepts(s, e) ==> s.waiting == {} && s.released == {} }

  /** A set of at most one number. */
  ghost predicate Single(ids: set<nat>) { forall a, b :: a in ids && b in ids ==> a == b }

  /** At no point of the run are two accepted transfers unfinished. */
  ghost predicate OneAtATime(events: seq<Event>) {
    forall k: nat :: k <= |events| ==> Single(Unfinished(RunFrom(INITIAL, events[..k])))
  }

  ghost predicate AtMostOne(s: State) { Single(Unfinished(s)) && (s.transferActive <==> s.copying != {}) }

  lemma {:induction false} SequentialInvariant(events: seq<Event>)
    requires Sequential(events)
    ensures AtMostOne(RunFrom(INITIAL, events))
  {
    hide Next, InOrder, AtMostOne;
    if events == [] {
      StartsIdle();
    } else {
      var n := |events| - 1;
      SequentialFront(events, n);
      SequentialInvariant(events[..n]);
      SequentialStep(RunFrom(INITIAL, events[..n]), events[n]);
    }
  }

  lemma StartsIdle()
    ensures AtMostOne(INITIAL)
  {
  }

  lemma SequentialStep(s: State, e: Event)
    requires AtMostOne(s) && InOrder(s, e)
    ensures AtMostOne(Next(s, e))
  {
  }

  lemma SequentialFront(events: seq<Event>, k: nat)
    requires Sequential(events) && k <= |events|
    ensures Sequential(events[..k])
  {
    hide RunFrom, Next, InOrder;
    forall j: nat | j < k
      ensures InOrder(RunFrom(INITIAL, events[..k][..j]), events[..k][j])
    {
      assert events[..k][..j] == events[..j];
    }
  }

  lemma PrefixRun(events: seq<Event>, k: nat)
    requires k < |events|
    ensures RunFrom(INITIAL, events[..k + 1]) == Next(RunFrom(INITIAL, events[..k]), events[k])
  {
    assert events[..k + 1][..k] == events[..k];
  }

  /** A second transfer makes two, because its number is new. */
  lemma SecondMakesTwo(s: State, e: Event)
    requires Distinct(s) && Single(Unfinished(Next(s, e)))
    ensures InOrder(s, e)
  {
  }

  /**
   At most one transfer at a time, exactly when no notification is accepted while an
   earlier one's transfer has not begun to copy: `transfer_active` alone does not guard
   against that.
   */
  lemma OneTransferIffSequential(events: seq<Event>)
    ensures OneAtATime(events) <==> Sequential(events)
  {
    hide RunFrom, Next, InOrder, Single;
    if Sequential(events) {
      forall k: nat | k <= |events|
        ensures Single(Unfinished(RunFrom(INITIAL, events[..k])))
      {
        SequentialFront(events, k);
        SequentialInvariant(events[..k]);
      }
    }
    if OneAtATime(events) {
      forall k: nat | k < |events|
        ensures InOrder(RunFrom(INITIAL, events[..k]), events[k])
      {
        PrefixRun(events, k);
        TransfersDistinct(events[..k]);
        SecondMakesTwo(RunFrom(INITIAL, events[..k]), events[k]);
      }
    }
  }

  /** Two notifications before any permission are both accepted, and both copy. */
  const TWO_RUN :=
    [Notify(Some(8), 1, 2), Notify(Some(8), 1, 2), START4] + [Release(0), Begin(0)] + [Release(1), Begin(1)]

  lemma TwoTransfers()
    ensures RunFrom(INITIAL, TWO_RUN).copying == {0, 1}
  {
    hide Next;
    var first := [Notify(Some(8), 1, 2), Notify(Some(8), 1, 2), START4];
    RunThree(INITIAL, Notify(Some(8), 1, 2), Notify(Some(8), 1, 2), START4);
    BothWait();
    RunAppend(INITIAL, first, [Release(0), Begin(0)]);
    RunTwo(BOTH_WAIT, Release(0), Begin(0));
    RunAppend(INITIAL, first + [Release(0), Begin(0)], [Release(1), Begin(1)]);
    RunTwo(Next(Next(BOTH_WAIT, Release(0)), Begin(0)), Release(1), Begin(1));
    BothCopy();
  }

  const BOTH_WAIT := State(8, false, 4, true, [], 1, 2, false, false, true, 2, {0, 1}, {}, {})

  lemma BothWait()
    ensures Next(Next(Next(INITIAL, Notify(Some(8), 1, 2)), Notify(Some(8), 1, 2)), START4) == BOTH_WAIT
  {
  }

  lemma BothCopy()
    ensures Next(Next(Next(Next(BOTH_WAIT, Release(0)), Begin(0)), Release(1)), Begin(1)).copying == {0, 1}
  {
  }
}

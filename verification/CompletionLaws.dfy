/** When the migrater signals completion although an accepted transfer is unfinished. */
module CompletionLaws {
  import opened Common
  import opened TokenBucket
  import opened Policies
  import opened Migrater
  import opened ShutdownLaws
  import opened AnswerLaws

  /** The steps that signal completion, by their guards. */
  predicate Completes(s: State, e: Event) {
    match e
    case Instruct(i) => i.action == Exit && s.streamOpen && !s.transferActive
    case Interrupt => !s.transferActive && s.pendingSize == 0
    case StreamFails => s.streamOpen && s.shutdownRequested && !s.transferActive && s.pendingSize == 0
    case Beat =>
      Passes(s) && PassRaises(s) && s.shutdownRequested && !s.transferActive && Drained(s).pendingSize == 0
    case End(id) => s.shutdownRequested && id in s.copying
    case _ => false
  }

  lemma CompletionStep(s: State, e: Event)
    ensures Next(s, e).shutdownComplete <==> Completes(s, e) || s.shutdownComplete
  {
  }

  /** In every run the shutdown is complete exactly when one of these steps has been taken. */
  lemma {:induction false} CompleteIff(events: seq<Event>)
    ensures RunFrom(INITIAL, events).shutdownComplete <==> SetSince(events, Completes, Never)
  {
    hide Next, SetSince, Completes;
    if events == [] {
      NothingSet(Completes, Never);
    } else {
      var n := |events| - 1;
      CompleteIff(events[..n]);
      CompletionStep(RunFrom(INITIAL, events[..n]), events[n]);
      SetSinceMore(events, Completes, Never);
    }
  }

  /**
   The steps that abandon a transfer: the first to signal completion, while another
   transfer than the one that ends is unfinished.
   */
  predicate Abandons(s: State, e: Event) {
    && !s.shutdownComplete && Completes(s, e)
    && (if e.End? then s.waiting + s.released + (s.copying - {e.id}) else Unfinished(s)) != {}
  }

  /** These and no others complete the shutdown over an unfinished transfer. */
  lemma AbandonStep(s: State, e: Event)
    ensures Abandons(s, e) <==> !s.shutdownComplete && Next(s, e).shutdownComplete && Unfinished(Next(s, e)) != {}
  {
  }

  /** At every point of the run, completion means that every accepted transfer has ended. */
  ghost predicate CompletesDrained(events: seq<Event>) {
    forall k: nat :: k <= |events| ==>
      var s := RunFrom(INITIAL, events[..k]); s.shutdownComplete ==> Unfinished(s) == {}
  }

  /** No event of the run abandons a transfer. */
  ghost predicate NoneAbandoned(events: seq<Event>) {
    forall k: nat :: k < |events| ==> !Abandons(RunFrom(INITIAL, events[..k]), events[k])
  }

  /** A completed shutdown stays drained: nothing is accepted any more. */
  lemma DrainedStep(s: State, e: Event)
    requires s.shutdownComplete ==> s.shutdownRequested && Unfinished(s) == {}
    requires !Abandons(s, e)
    ensures Next(s, e).shutdownComplete ==> Unfinished(Next(s, e)) == {}
  {
    hide Next, Abandons;
    AbandonStep(s, e);
    FlagsKept(s, e);
  }

  lemma {:induction false} DrainedUpTo(events: seq<Event>, k: nat)
    requires NoneAbandoned(events) && k <= |events|
    ensures var s := RunFrom(INITIAL, events[..k]); s.shutdownComplete ==> Unfinished(s) == {}
  {
    hide Next, Abandons;
    if k != 0 {
      DrainedUpTo(events, k - 1);
      PrefixRun(events, k - 1);
      CompleteImpliesRequested(events[..k - 1]);
      DrainedStep(RunFrom(INITIAL, events[..k - 1]), events[k - 1]);
    }
  }

  /** Graceful shutdown, exactly: completion never precedes the end of a transfer iff no event abandons one. */
  lemma DrainedIffNoneAbandoned(events: seq<Event>)
    ensures CompletesDrained(events) <==> NoneAbandoned(events)
  {
    hide RunFrom, Next, Abandons;
    if NoneAbandoned(events) {
      forall k: nat | k <= |events|
        ensures var s := RunFrom(INITIAL, events[..k]); s.shutdownComplete ==> Unfinished(s) == {}
      {
        DrainedUpTo(events, k);
      }
    }
    if CompletesDrained(events) {
      forall k: nat | k < |events|
        ensures !Abandons(RunFrom(INITIAL, events[..k]), events[k])
      {
        PrefixRun(events, k);
        AbandonStep(RunFrom(INITIAL, events[..k]), events[k]);
      }
    }
  }

  /** With one transfer at a time only one that has not begun can be abandoned, and never by the end of a transfer. */
  lemma SequentialAbandons(events: seq<Event>, k: nat)
    requires Sequential(events) && k < |events| && Abandons(RunFrom(INITIAL, events[..k]), events[k])
    ensures var s := RunFrom(INITIAL, events[..k]);
      s.waiting + s.released != {} && s.copying == {} && !s.transferActive && !events[k].End?
  {
    hide RunFrom, Next, Sequential;
    SequentialFront(events, k);
    SequentialInvariant(events[..k]);
    TransfersDistinct(events[..k]);
    NoneBegun(RunFrom(INITIAL, events[..k]), events[k]);
  }

  lemma NoneBegun(s: State, e: Event)
    requires AtMostOne(s) && Distinct(s) && Abandons(s, e)
    ensures s.waiting + s.released != {} && s.copying == {} && !s.transferActive && !e.End?
  {
  }

  // ---- Runs that abandon a transfer -------------------------------------------

  const COPIED := Report(2.0, 8, 8, 0, 2.0, 4.0, 4.0, 4, 4)

  /** A first checkpoint is copied; a second is accepted before a heartbeat has taken the first one's progress. */
  const LEFTOVER_RUN := COPYING_RUN + [Emit(0, COPIED), End(0), Notify(Some(16), 2, 2)]

  const LEFTOVER := State(16, false, 0, false, [COPIED], 2, 2, false, false, true, 2, {1}, {}, {})

  lemma LeftoverReached()
    ensures RunFrom(INITIAL, LEFTOVER_RUN) == LEFTOVER
  {
    CopyingReached();
    RunAppend(INITIAL, COPYING_RUN, [Emit(0, COPIED), End(0), Notify(Some(16), 2, 2)]);
    SecondAccepted();
  }

  lemma SecondAccepted()
    ensures RunFrom(COPYING, [Emit(0, COPIED), End(0), Notify(Some(16), 2, 2)]) == LEFTOVER
  {
    RunThree(COPYING, Emit(0, COPIED), End(0), Notify(Some(16), 2, 2));
    assert [] + [COPIED] == [COPIED];
  }

  /** An interrupt abandons the second checkpoint: the leftover progress makes it look copied. */
  lemma InterruptAbandonsWaiting() returns (events: seq<Event>)
    ensures events == LEFTOVER_RUN + [Beat, Interrupt]
    ensures var s := RunFrom(INITIAL, events); s.shutdownComplete && s.waiting == {1} && s.copying == {}
  {
    hide Next;
    events := LEFTOVER_RUN + [Beat, Interrupt];
    LeftoverReached();
    RunAppend(INITIAL, LEFTOVER_RUN, [Beat, Interrupt]);
    RunTwo(LEFTOVER, Beat, Interrupt);
    BeatThenInterrupt();
  }

  lemma BeatThenInterrupt()
    ensures var s := Next(Next(LEFTOVER, Beat), Interrupt); s.shutdownComplete && s.waiting == {1} && s.copying == {}
  {
  }

  /** So does the end of the stream, when it comes after the interrupt and the heartbeat. */
  lemma StreamAbandonsWaiting() returns (events: seq<Event>)
    ensures events == LEFTOVER_RUN + [Interrupt, Beat, StreamFails]
    ensures var s := RunFrom(INITIAL, events); s.shutdownComplete && s.waiting == {1} && s.copying == {}
  {
    hide Next;
    events := LEFTOVER_RUN + [Interrupt, Beat, StreamFails];
    LeftoverReached();
    RunAppend(INITIAL, LEFTOVER_RUN, [Interrupt, Beat, StreamFails]);
    RunThree(LEFTOVER, Interrupt, Beat, StreamFails);
    StreamFailsLast();
  }

  lemma StreamFailsLast()
    ensures var s := Next(Next(Next(LEFTOVER, Interrupt), Beat), StreamFails);
      s.shutdownComplete && s.waiting == {1} && s.copying == {}
  {
  }

  /** Of two copies, the first to end signals completion for both. */
  lemma EndAbandonsOther() returns (events: seq<Event>)
    ensures events == TWO_RUN + [Interrupt, End(0)]
    ensures var s := RunFrom(INITIAL, events); s.shutdownComplete && s.copying == {1}
  {
    hide Next;
    TwoTransfers();
    events := TWO_RUN + [Interrupt, End(0)];
    RunAppend(INITIAL, TWO_RUN, [Interrupt, End(0)]);
    RunTwo(RunFrom(INITIAL, TWO_RUN), Interrupt, End(0));
    InterruptThenEnd(RunFrom(INITIAL, TWO_RUN));
  }

  lemma InterruptThenEnd(s: State)
    requires s.copying == {0, 1}
    ensures var s' := Next(Next(s, Interrupt), End(0)); s'.shutdownComplete && s'.copying == {1}
  {
  }
}

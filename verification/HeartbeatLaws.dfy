/** Which passes of the heartbeat generator send a heartbeat, over all runs of the migrater. */
module HeartbeatLaws {
  import opened Common
  import opened TokenBucket
  import opened TokenBucketLaws
  import opened Policies
  import opened Progress
  import opened Migrater
  import opened ShutdownLaws

  /** The reports of copies since the latest pass, dropped or not. */
  function Unsent(events: seq<Event>): seq<Report> {
    if events == [] then []
    else
      var before, e := RunFrom(INITIAL, Front(events)), Last(events);
      if e.Beat? && Passes(before) then []
      else if e.Emit? && e.id in before.copying then Unsent(Front(events)) + [e.r]
      else Unsent(Front(events))
  }

  /** What one step does to a buffer that holds the newest of these reports. */
  lemma BufferStep(s: State, e: Event, reports: seq<Report>)
    requires s.progress == Newest(reports, BUFFER_LENGTH)
    ensures Next(s, e).progress ==
            if e.Beat? && Passes(s) then []
            else Newest(if e.Emit? && e.id in s.copying then reports + [e.r] else reports, BUFFER_LENGTH)
  {
    if e.Emit? {
      NewestAgain(reports, e.r, BUFFER_LENGTH);
    }
  }

  /** In every run the buffer holds exactly the newest 128 reports since the latest pass. */
  lemma {:induction false} BufferHoldsNewest(events: seq<Event>)
    ensures RunFrom(INITIAL, events).progress == Newest(Unsent(events), 128)
  {
    hide Next;
    if events != [] {
      BufferHoldsNewest(Front(events));
      BufferStep(RunFrom(INITIAL, Front(events)), Last(events), Unsent(Front(events)));
    }
  }

  /**
   In every run a pass sends a heartbeat exactly when no report has come since the
   latest pass or the last that came is of a nonempty file; it sends the newest of these
   reports. Otherwise it raises and the stream is over.
   */
  lemma PassSendsIff(events: seq<Event>)
    requires Passes(RunFrom(INITIAL, events))
    ensures var s, unsent := RunFrom(INITIAL, events), Unsent(events);
      && (Request(s).Some? <==> unsent == [] || 0 < Last(unsent).totalBytes)
      && (Request(s).Some? ==> Request(s).value.progress == Newest(unsent, 128))
      && (Next(s, Beat).streamOpen <==> Request(s).Some?)
  {
    hide RunFrom, Unsent;
    BufferHoldsNewest(events);
  }

  // ---- When the stream ends -----------------------------------------------------

  /** The steps that end an open stream. */
  predicate EndsStream(s: State, e: Event) {
    match e
    case StreamFails => true
    case Instruct(i) => i.action == Exit
    case Beat => Passes(s) && PassRaises(s)
    case _ => false
  }

  ghost predicate NoneEndsStream(events: seq<Event>) {
    forall k: nat :: k < |events| ==> !EndsStream(RunFrom(INITIAL, events[..k]), events[k])
  }

  lemma StreamStep(s: State, e: Event)
    ensures Next(s, e).streamOpen <==> s.streamOpen && !EndsStream(s, e)
  {
  }

  /** The stream is open exactly as long as no failure, no EXIT and no raising pass has ended it. */
  lemma {:induction false} StreamOpenIff(events: seq<Event>)
    ensures RunFrom(INITIAL, events).streamOpen <==> NoneEndsStream(events)
  {
    hide Next, EndsStream;
    if events != [] {
      var n: nat := |events| - 1;
      StreamOpenIff(events[..n]);
      StreamStep(RunFrom(INITIAL, events[..n]), events[n]);
      forall k: nat | k < n
        ensures events[..n][..k] == events[..k]
      {
      }
      if NoneEndsStream(events) {
        assert !EndsStream(RunFrom(INITIAL, events[..n]), events[n]);
      }
    }
  }

  // ---- What the callers can do --------------------------------------------------

  /** Every accepted checkpoint file is nonempty. */
  ghost predicate NonemptyFiles(events: seq<Event>) {
    forall k: nat :: k < |events| && Accepts(RunFrom(INITIAL, events[..k]), events[k]) ==> 0 < events[k].file.value
  }

  /** Every report carries the size of a file that was accepted before. */
  ghost predicate SizedReports(events: seq<Event>) {
    forall k: nat :: k < |events| && events[k].Emit? && events[k].id in RunFrom(INITIAL, events[..k]).copying ==>
      exists j: nat :: j < k && Accepts(RunFrom(INITIAL, events[..j]), events[j]) &&
                       events[j].file.value == events[k].r.totalBytes
  }

  /** Every pass of the run sends a heartbeat. */
  ghost predicate AllPassesSend(events: seq<Event>) {
    forall k: nat :: k < |events| && events[k] == Beat && Passes(RunFrom(INITIAL, events[..k])) ==>
                       Request(RunFrom(INITIAL, events[..k])).Some?
  }

  /** An unsent report was emitted by a copy. */
  lemma {:induction false} UnsentEmitted(events: seq<Event>) returns (k: nat)
    requires Unsent(events) != []
    ensures k < |events| && events[k].Emit? && events[k].r == Last(Unsent(events))
    ensures events[k].id in RunFrom(INITIAL, events[..k]).copying
  {
    hide RunFrom, Passes;
    var front, e := Front(events), Last(events);
    if e.Emit? && e.id in RunFrom(INITIAL, front).copying {
      k := |front|;
    } else {
      k := UnsentEmitted(front);
      assert front[..k] == events[..k];
    }
  }

  /** With nonempty files every pass of every run sends its heartbeat, so that only failures and EXIT end the stream. */
  lemma NonemptyFilesAlwaysSend(events: seq<Event>)
    requires NonemptyFiles(events) && SizedReports(events)
    ensures AllPassesSend(events)
    ensures !RunFrom(INITIAL, events).streamOpen ==>
              exists k: nat :: k < |events| &&
                (events[k] == StreamFails || (events[k].Instruct? && events[k].i.action == Exit))
  {
    hide RunFrom, Next, Request, Passes, PassRaises, Accepts;
    forall k: nat | k < |events| && events[k] == Beat && Passes(RunFrom(INITIAL, events[..k]))
      ensures Request(RunFrom(INITIAL, events[..k])).Some? && !PassRaises(RunFrom(INITIAL, events[..k]))
    {
      PrefixSends(events, k);
      SentIsSound(RunFrom(INITIAL, events[..k]));
    }
    StreamOpenIff(events);
  }

  lemma PrefixSends(events: seq<Event>, k: nat)
    requires NonemptyFiles(events) && SizedReports(events) && k <= |events|
    requires Passes(RunFrom(INITIAL, events[..k]))
    ensures Request(RunFrom(INITIAL, events[..k])).Some?
  {
    hide RunFrom, Next, Request, Passes, Unsent;
    PassSendsIff(events[..k]);
    if Unsent(events[..k]) != [] {
      var m := UnsentEmitted(events[..k]);
      assert events[..k][..m] == events[..m];
      var j: nat :| j < m && Accepts(RunFrom(INITIAL, events[..j]), events[j]) &&
                    events[j].file.value == events[m].r.totalBytes;
    }
  }

  lemma SentIsSound(s: State)
    requires Request(s).Some?
    ensures !PassRaises(s)
  {
  }

  // ---- An empty file ------------------------------------------------------------

  const EMPTY := Report(2.0, 0, 0, 0, 2.0, 0.0, 0.0, 4, 4)

  const EMPTY_RUN := [Notify(Some(0), 1, 2), START4, Release(0)] + [Begin(0), Emit(0, EMPTY), Beat]

  const EMPTY_RELEASED := State(0, false, 4, true, [], 1, 2, false, false, true, 1, {}, {0}, {})

  /** The progress of an empty file ends the heartbeat stream, with no EXIT and no failure outside. */
  lemma EmptyFileEndsStream()
    ensures var s := RunFrom(INITIAL, EMPTY_RUN); !s.streamOpen && !s.shutdownRequested
  {
    hide Next;
    RunAppend(INITIAL, [Notify(Some(0), 1, 2), START4, Release(0)], [Begin(0), Emit(0, EMPTY), Beat]);
    RunThree(INITIAL, Notify(Some(0), 1, 2), START4, Release(0));
    EmptyReleased();
    RunThree(EMPTY_RELEASED, Begin(0), Emit(0, EMPTY), Beat);
    EmptyRaises();
  }

  lemma EmptyReleased()
    ensures Next(Next(Next(INITIAL, Notify(Some(0), 1, 2)), START4), Release(0)) == EMPTY_RELEASED
  {
  }

  lemma EmptyRaises()
    ensures var s := Next(Next(Next(EMPTY_RELEASED, Begin(0)), Emit(0, EMPTY)), Beat);
      !s.streamOpen && !s.shutdownRequested
  {
  }

  /** After it every checkpoint that is accepted waits forever. */
  lemma EmptyFileStrandsLater(middle: seq<Event>, file: Option<nat>, epoch: int, total: int, later: seq<Event>)
    requires NotifyOutcome(RunFrom(INITIAL, EMPTY_RUN + middle), file) == Accepted
    ensures var id := RunFrom(INITIAL, EMPTY_RUN + middle).accepted;
      var s' := RunFrom(INITIAL, EMPTY_RUN + middle + [Notify(file, epoch, total)] + later);
      id in s'.waiting && id !in s'.released + s'.copying
  {
    hide Next;
    var s := RunFrom(INITIAL, EMPTY_RUN + middle);
    EmptyFileEndsStream();
    RunAppend(INITIAL, EMPTY_RUN, middle);
    StaysEnded(RunFrom(INITIAL, EMPTY_RUN), middle);
    TransfersDistinct(EMPTY_RUN + middle);
    RunMore(INITIAL, EMPTY_RUN + middle, Notify(file, epoch, total));
    RunAppend(INITIAL, EMPTY_RUN + middle + [Notify(file, epoch, total)], later);
    EndedStreamStrands(s, file, epoch, total, later);
    NextNotify(s, file, epoch, total);
  }

  lemma NextNotify(s: State, file: Option<nat>, epoch: int, total: int)
    ensures Next(s, Notify(file, epoch, total)) == Notified(s, file, epoch, total)
  {
  }

  lemma {:induction false} StaysEnded(s: State, events: seq<Event>)
    requires !s.streamOpen
    ensures !RunFrom(s, events).streamOpen
  {
    hide Next;
    if events != [] {
      StaysEnded(s, Front(events));
      StreamStep(RunFrom(s, Front(events)), Last(events));
    }
  }
}

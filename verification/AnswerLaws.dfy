/**
 What the migrater's flags, answers and rates are after any run, in terms of the events
 that decide them.
 */
module AnswerLaws {
  import opened Common
  import opened Arith
  import opened Policies
  import Orchestrator
  import opened Migrater
  import opened ShutdownLaws

  // ---- Flags --------------------------------------------------------------------

  /** Some event of the run sets a flag and no later one clears it. */
  ghost predicate SetSince(events: seq<Event>, sets: (State, Event) -> bool, clears: (State, Event) -> bool) {
    exists k: nat :: k < |events| && sets(RunFrom(INITIAL, events[..k]), events[k]) && Uncleared(events, k, clears)
  }

  /** No event after event k clears the flag. */
  ghost predicate Uncleared(events: seq<Event>, k: int, clears: (State, Event) -> bool) {
    forall j: nat :: k < j < |events| ==> !clears(RunFrom(INITIAL, events[..j]), events[j])
  }

  lemma SamePrefixes(events: seq<Event>, n: nat)
    requires n <= |events|
    ensures forall k: nat :: k <= n ==> events[..n][..k] == events[..k]
  {
  }

  lemma UnclearedMore(events: seq<Event>, k: nat, clears: (State, Event) -> bool)
    requires k < |events| - 1
    ensures var n := |events| - 1;
      Uncleared(events, k, clears) <==>
      Uncleared(events[..n], k, clears) && !clears(RunFrom(INITIAL, events[..n]), events[n])
  {
    hide RunFrom;
    var n: nat := |events| - 1;
    SamePrefixes(events, n);
    if Uncleared(events, k, clears) {
      forall j: nat | k < j < n
        ensures !clears(RunFrom(INITIAL, events[..n][..j]), events[..n][j])
      {
        assert !clears(RunFrom(INITIAL, events[..j]), events[j]);
      }
    }
  }

  lemma SetSinceMore(events: seq<Event>, sets: (State, Event) -> bool, clears: (State, Event) -> bool)
    requires events != []
    ensures var n := |events| - 1;
      var s, e := RunFrom(INITIAL, events[..n]), events[n];
      SetSince(events, sets, clears) <==> sets(s, e) || (!clears(s, e) && SetSince(events[..n], sets, clears))
  {
    hide RunFrom;
    var n: nat := |events| - 1;
    SamePrefixes(events, n);
    forall k: nat | k < n
      ensures Uncleared(events, k, clears) <==>
              Uncleared(events[..n], k, clears) && !clears(RunFrom(INITIAL, events[..n]), events[n])
    {
      UnclearedMore(events, k, clears);
    }
    hide Uncleared;
    LastUncleared(events, clears);
  }

  lemma LastUncleared(events: seq<Event>, clears: (State, Event) -> bool)
    ensures Uncleared(events, |events| - 1, clears)
  {
  }

  /** An interrupt, or EXIT while the stream is open. */
  predicate Requests(s: State, e: Event) { e.Interrupt? || (e.Instruct? && e.i.action == Exit && s.streamOpen) }

  predicate Never(s: State, e: Event) { false }

  /** An instruction other than HOLD while the stream is open. */
  predicate Permitted(s: State, e: Event) { Permits(e) && s.streamOpen }

  /** A transfer past its wait begins to copy. */
  predicate Begins(s: State, e: Event) { e.Begin? && e.id in s.released }

  ghost predicate ShutdownAsked(events: seq<Event>) { SetSince(events, Requests, Never) }

  ghost predicate MarkedActive(events: seq<Event>) { SetSince(events, Begins, Finishes) }

  ghost predicate PermissionStands(events: seq<Event>) { SetSince(events, Permitted, Accepts) }

  lemma FlagStep(s: State, e: Event)
    ensures Next(s, e).shutdownRequested <==> Requests(s, e) || s.shutdownRequested
    ensures Next(s, e).transferActive <==> Begins(s, e) || (!Finishes(s, e) && s.transferActive)
    ensures Next(s, e).transferAllowed <==> Permitted(s, e) || (!Accepts(s, e) && s.transferAllowed)
  {
    hide Int, ExitRate;
  }

  /**
   The three flags in every run: shutdown is requested iff EXIT or an interrupt has come;
   a transfer is marked active iff one has begun since the last one ended; permission
   stands iff an instruction other than HOLD has come since the last accepted notification.
   */
  lemma {:induction false} FlagsAre(events: seq<Event>)
    ensures var s := RunFrom(INITIAL, events);
      && (s.shutdownRequested <==> ShutdownAsked(events))
      && (s.transferActive <==> MarkedActive(events))
      && (s.transferAllowed <==> PermissionStands(events))
  {
    hide Next, SetSince, Begins, Finishes, Requests, Permitted, Accepts;
    if events == [] {
      NothingSet(Requests, Never);
      NothingSet(Begins, Finishes);
      NothingSet(Permitted, Accepts);
    } else {
      var n := |events| - 1;
      FlagsAre(events[..n]);
      FlagStep(RunFrom(INITIAL, events[..n]), events[n]);
      SetSinceMore(events, Requests, Never);
      SetSinceMore(events, Begins, Finishes);
      SetSinceMore(events, Permitted, Accepts);
    }
  }

  lemma NothingSet(sets: (State, Event) -> bool, clears: (State, Event) -> bool)
    ensures !SetSince([], sets, clears)
  {
  }

  // ---- The life of a transfer ---------------------------------------------------

  function AcceptedAs(id: nat): (State, Event) -> bool {
    (s: State, e: Event) => Accepts(s, e) && s.accepted == id
  }

  /** Transfer id gets past its wait. */
  function ReleasedAs(id: nat): (State, Event) -> bool {
    (s: State, e: Event) => e == Release(id) && id in s.waiting && s.transferAllowed
  }

  function BegunAs(id: nat): (State, Event) -> bool {
    (s: State, e: Event) => e == Begin(id) && id in s.released
  }

  function EndedAs(id: nat): (State, Event) -> bool {
    (s: State, e: Event) => e == End(id) && id in s.copying
  }

  lemma WaitingStep(s: State, e: Event, id: nat)
    ensures id in Next(s, e).waiting <==> AcceptedAs(id)(s, e) || (!ReleasedAs(id)(s, e) && id in s.waiting)
  {
    hide Int, ExitRate;
  }

  lemma ReleasedStep(s: State, e: Event, id: nat)
    ensures id in Next(s, e).released <==> ReleasedAs(id)(s, e) || (!BegunAs(id)(s, e) && id in s.released)
  {
    hide Int, ExitRate;
  }

  lemma CopyingStep(s: State, e: Event, id: nat)
    ensures id in Next(s, e).copying <==> BegunAs(id)(s, e) || (!EndedAs(id)(s, e) && id in s.copying)
  {
    hide Int, ExitRate;
  }

  /**
   The stage of every transfer in every run: it waits from its notification until it gets
   past its wait, which takes permission, is released until it begins, and copies until it ends.
   */
  lemma {:induction false} StagesAre(events: seq<Event>, id: nat)
    ensures var s := RunFrom(INITIAL, events);
      && (id in s.waiting <==> SetSince(events, AcceptedAs(id), ReleasedAs(id)))
      && (id in s.released <==> SetSince(events, ReleasedAs(id), BegunAs(id)))
      && (id in s.copying <==> SetSince(events, BegunAs(id), EndedAs(id)))
  {
    hide Next, SetSince, AcceptedAs, ReleasedAs, BegunAs, EndedAs;
    if events == [] {
      NothingSet(AcceptedAs(id), ReleasedAs(id));
      NothingSet(ReleasedAs(id), BegunAs(id));
      NothingSet(BegunAs(id), EndedAs(id));
    } else {
      var n := |events| - 1;
      StagesAre(events[..n], id);
      WaitingStep(RunFrom(INITIAL, events[..n]), events[n], id);
      ReleasedStep(RunFrom(INITIAL, events[..n]), events[n], id);
      CopyingStep(RunFrom(INITIAL, events[..n]), events[n], id);
      SetSinceMore(events, AcceptedAs(id), ReleasedAs(id));
      SetSinceMore(events, ReleasedAs(id), BegunAs(id));
      SetSinceMore(events, BegunAs(id), EndedAs(id));
    }
  }

  // ---- The answer to a notification ---------------------------------------------

  /**
   The three answers, in every run. A notification raises, so that the trainer saves
   directly, iff its file is missing and no shutdown was asked for; it is rejected, so
   that the trainer takes it for handed off, iff shutdown was asked for or its file exists
   and a transfer is marked active.
   */
  lemma NotifyAnswers(events: seq<Event>, file: Option<nat>)
    ensures var outcome := NotifyOutcome(RunFrom(INITIAL, events), file);
      && (outcome == Raised <==> file == None && !ShutdownAsked(events))
      && (outcome == Rejected <==> ShutdownAsked(events) || (file.Some? && MarkedActive(events)))
      && (outcome == Accepted <==> file.Some? && !ShutdownAsked(events) && !MarkedActive(events))
  {
    hide RunFrom, SetSince;
    FlagsAre(events);
  }

  /** With one transfer at a time, marked active means copying. */
  lemma ActiveMeansCopying(events: seq<Event>)
    requires Sequential(events)
    ensures MarkedActive(events) <==> RunFrom(INITIAL, events).copying != {}
  {
    hide RunFrom, Sequential, SetSince;
    FlagsAre(events);
    SequentialInvariant(events);
  }

  /** Every notified file exists. */
  predicate FilesExist(events: seq<Event>) {
    forall k :: 0 <= k < |events| && events[k].Notify? ==> events[k].file.Some?
  }

  /** When all files exist no notification of the run raises. */
  lemma NoneRaises(events: seq<Event>, k: nat)
    requires FilesExist(events) && k < |events| && events[k].Notify?
    ensures NotifyOutcome(RunFrom(INITIAL, events[..k]), events[k].file) != Raised
  {
    hide RunFrom, SetSince;
    NotifyAnswers(events[..k], events[k].file);
  }

  // ---- What a heartbeat says ----------------------------------------------------

  /** A heartbeat says that its worker is migrating iff a transfer is marked active. */
  lemma HeartbeatSaysMigrating(events: seq<Event>)
    requires Request(RunFrom(INITIAL, events)).Some?
    ensures Request(RunFrom(INITIAL, events)).value.isMigrating <==> MarkedActive(events)
  {
    hide RunFrom, SetSince;
    FlagsAre(events);
  }

  // ---- The rate that an instruction leaves ----------------------------------------

  /** CHANGE_RATE installs its truncated rate, or 0 for a negative one, until a transfer ends. */
  lemma {:induction false} ChangeRateInstalls(s: State, rate: real, events: seq<Event>)
    requires s.streamOpen && NoPermission(events)
    ensures var changed := Instructed(s, Instruction(ChangeRate, rate));
      && changed.transferAllowed
      && RunFrom(changed, events).currentRate ==
         if Endings(changed, events) != 0 || Int(rate) < 0 then 0 else Int(rate)
  {
    RateStays(Instructed(s, Instruction(ChangeRate, rate)), events);
  }

  /**
   EXIT keeps the rate, except that a rate of at most 0 with bytes pending is replaced by
   the truncated limit, or by 500000000 when that is 0, until a transfer ends.
   */
  lemma {:induction false} ExitInstalls(s: State, limit: real, events: seq<Event>)
    requires s.streamOpen
    ensures var exited := Instructed(s, Instruction(Exit, limit));
      var left := if 0 < s.currentRate || s.pendingSize <= 0 then s.currentRate
                  else if Int(limit) == 0 then 500000000
                  else Int(limit);
      RunFrom(exited, events).currentRate == if Endings(exited, events) == 0 then left else 0
  {
    RateStays(Instructed(s, Instruction(Exit, limit)), events);
  }

  /**
   The orchestrator's own EXIT, end to end: a migrater with bytes pending keeps its
   positive rate or gets 500000000 bytes per second, until a transfer ends.
   */
  lemma {:induction false} OrchestratorExit(s: State, events: seq<Event>)
    requires s.streamOpen && 0 < s.pendingSize
    ensures var exited := Instructed(s, Instruction(Exit, Orchestrator.EXIT_RATE));
      RunFrom(exited, events).currentRate ==
      if Endings(exited, events) != 0 then 0 else if 0 < s.currentRate then s.currentRate else 500000000
  {
    ExitInstalls(s, 500000000.0, events);
  }
}

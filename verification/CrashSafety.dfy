/**
 Crash safety of the two checkpoint slots, over all runs of saves, of the migrater's
 copies and of the ways in which either can fail. Any number of transfers may be under
 way at once.
 */
module CrashSafety {
  import opened Checkpoint

  datatype Slot = Primary | Alternate

  /** A slot holds nothing, an unfinished or mixed-up copy, or a complete copy of checkpoint n. */
  datatype File = Absent | Partial(n: nat) | Complete(n: nat)

  /**
   A transfer waits for permission or writes its slot. Its file is linked until a
   fallback replaces it, and clean as long as no other transfer has written to it.
   */
  datatype Flight = Waiting(slot: Slot) | Writing(slot: Slot, linked: bool, clean: bool)

  /** flights are the unfinished transfers by checkpoint; newest is the newest completed checkpoint, 0 for none. */
  datatype World = World(manager: Manager, files: map<Slot, File>, flights: map<nat, Flight>, newest: nat)

  const START := World(Manager(0, false), map[Primary := Absent, Alternate := Absent], map[], 0)

  datatype Event =
    | Handoff            // the notification is accepted
    | HandoffLost        // the notification is rejected, which the client does not notice
    | Fallback           // the notification raises and the direct copy replaces the target
    | SaveFails          // the notification raises and so does the direct copy
    | CopyStarts(n: nat) // the transfer of checkpoint n truncates its slot
    | CopyEnds(n: nat)
    | CopyFails(n: nat)

  function Target(w: World): Slot { if w.manager.useAlt then Alternate else Primary }

  function Advanced(w: World): World { w.(manager := Advance(w.manager)) }

  function Newer(a: nat, b: nat): nat { if a >= b then a else b }

  /** The transfer writes the file that the slot names now. */
  predicate WritesTo(f: Flight, slot: Slot) { f.Writing? && f.linked && f.slot == slot }

  /** Another transfer than n writes the slot's file. */
  predicate Shared(flights: map<nat, Flight>, n: nat, slot: Slot) {
    exists m :: m in flights && m != n && WritesTo(flights[m], slot)
  }

  /** Replacing a slot's file leaves its writers with an unlinked one. */
  function Unlinked(flights: map<nat, Flight>, slot: Slot): map<nat, Flight> {
    map n | n in flights :: if WritesTo(flights[n], slot) then flights[n].(linked := false) else flights[n]
  }

  /** Opening a slot's file again spoils the copies of all who write it. */
  function Opened(flights: map<nat, Flight>, n: nat, slot: Slot): map<nat, Flight> {
    map m | m in flights ::
      if m == n then Writing(slot, true, !Shared(flights, n, slot))
      else if WritesTo(flights[m], slot) then flights[m].(clean := false)
      else flights[m]
  }

  function Started(w: World, n: nat): World {
    if n !in w.flights || !w.flights[n].Waiting? then w
    else
      var slot := w.flights[n].slot;
      w.(files := w.files[slot := Partial(n)], flights := Opened(w.flights, n, slot))
  }

  function Ended(w: World, n: nat): World {
    if n !in w.flights || !w.flights[n].Writing? then w
    else
      var f, rest := w.flights[n], w.(flights := w.flights - {n});
      if !f.linked then rest
      else if !f.clean then rest.(files := w.files[f.slot := Partial(n)])
      else rest.(files := w.files[f.slot := Complete(n)], newest := Newer(n, w.newest))
  }

  function Next(w: World, e: Event): World {
    match e
    case Handoff => Advanced(w).(flights := w.flights[w.manager.epoch + 1 := Waiting(Target(w))])
    case HandoffLost => Advanced(w)
    case Fallback =>
      Advanced(w).(
        files := w.files[Target(w) := Complete(w.manager.epoch + 1)],
        newest := w.manager.epoch + 1,
        flights := Unlinked(w.flights, Target(w)))
    case SaveFails => w
    case CopyStarts(n) => Started(w, n)
    case CopyEnds(n) => Ended(w, n)
    case CopyFails(n) => w.(flights := w.flights - {n})
  }

  function Run(events: seq<Event>): World {
    if events == [] then START else Next(Run(events[..|events| - 1]), events[|events| - 1])
  }

  /** The slot of checkpoint n. */
  function SlotOf(n: nat): Slot { if n % 2 == 1 then Primary else Alternate }

  /** The newest completed checkpoint is whole in its slot, and no copy is rewriting that slot. */
  predicate Safe(w: World) {
    w.newest != 0 ==>
      && SlotOf(w.newest) in w.files && w.files[SlotOf(w.newest)] == Complete(w.newest)
      && forall n :: n in w.flights ==> !WritesTo(w.flights[n], SlotOf(w.newest))
  }

  /** Safe at every instant of the run. */
  ghost predicate AlwaysSafe(events: seq<Event>) { forall k: nat :: k <= |events| ==> Safe(Run(events[..k])) }

  /** The number of saves from the earlier to the later of two checkpoints. */
  function SavesApart(a: nat, b: nat): nat { if a >= b then a - b else b - a }

  /** The step starts a copy an even number of saves away from the newest completed checkpoint. */
  predicate EvenStart(w: World, e: Event) {
    && e.CopyStarts? && e.n in w.flights && w.flights[e.n].Waiting?
    && w.newest != 0 && SavesApart(e.n, w.newest) % 2 == 0
  }

  /** Every copy starts an odd number of saves away from the newest completed checkpoint. */
  ghost predicate OddStarts(events: seq<Event>) {
    forall k: nat :: k < |events| ==> !EvenStart(Run(events[..k]), events[k])
  }

  // ---- Numbers and slots --------------------------------------------------------

  /** A save that the trainer takes for successful. */
  predicate Saves(e: Event) { e == Handoff || e == HandoffLost || e == Fallback }

  function SaveCount(events: seq<Event>): nat {
    if events == [] then 0 else SaveCount(events[..|events| - 1]) + if Saves(events[|events| - 1]) then 1 else 0
  }

  /** Event k is the n-th save of the run. */
  ghost predicate IsSave(events: seq<Event>, n: nat, k: nat) {
    k < |events| && Saves(events[k]) && SaveCount(events[..k + 1]) == n
  }

  /** The n-th save of the run was handed off. */
  ghost predicate HandedOff(events: seq<Event>, n: nat) {
    exists k: nat :: IsSave(events, n, k) && events[k] == Handoff
  }

  /** The n-th save of the run was handed off or copied by the fallback. */
  ghost predicate Delivered(events: seq<Event>, n: nat) {
    exists k: nat :: IsSave(events, n, k) && events[k] != HandoffLost
  }

  lemma SaveOfPrefix(events: seq<Event>, i: nat, n: nat)
    requires i <= |events|
    ensures HandedOff(events[..i], n) ==> HandedOff(events, n)
    ensures Delivered(events[..i], n) ==> Delivered(events, n)
  {
    forall k: nat | k < i
      ensures events[..i][..k + 1] == events[..k + 1] && events[..i][k] == events[k]
    {
    }
    if HandedOff(events[..i], n) {
      var k: nat :| IsSave(events[..i], n, k) && events[..i][k] == Handoff;
      assert IsSave(events, n, k);
    }
    if Delivered(events[..i], n) {
      var k: nat :| IsSave(events[..i], n, k) && events[..i][k] != HandoffLost;
      assert IsSave(events, n, k);
    }
  }

  /** What one step does to the numbers in use. */
  lemma NumberStep(w: World, e: Event)
    ensures var w' := Next(w, e);
      && w'.manager.epoch == w.manager.epoch + (if Saves(e) then 1 else 0)
      && (forall n :: n in w'.flights ==> n in w.flights || (e == Handoff && n == w'.manager.epoch))
      && (w'.newest == w.newest || w'.newest in w.flights || (e == Fallback && w'.newest == w'.manager.epoch))
  {
  }

  /** The numbers of checkpoints count saves: n names the n-th save of the run. */
  lemma {:induction false} NumbersAreSaves(events: seq<Event>)
    ensures var w := Run(events);
      && w.manager.epoch == SaveCount(events)
      && (forall n :: n in w.flights ==> HandedOff(events, n))
      && (w.newest != 0 ==> Delivered(events, w.newest))
  {
    hide Next, IsSave, HandedOff, Delivered;
    if events != [] {
      var i: nat := |events| - 1;
      NumbersAreSaves(events[..i]);
      NumberStep(Run(events[..i]), events[i]);
      LastSave(events, i);
      var w, w' := Run(events[..i]), Run(events);
      forall n | n in w'.flights
        ensures HandedOff(events, n)
      {
        SaveOfPrefix(events, i, n);
      }
      SaveOfPrefix(events, i, w'.newest);
      if w'.newest in w.flights {
        HandedOffDelivered(events, w'.newest);
      }
    }
  }

  lemma LastSave(events: seq<Event>, i: nat)
    requires |events| == i + 1
    ensures SaveCount(events) == SaveCount(events[..i]) + if Saves(events[i]) then 1 else 0
    ensures events[i] == Handoff ==> HandedOff(events, SaveCount(events))
    ensures events[i] == Fallback ==> Delivered(events, SaveCount(events))
  {
    assert events[..i + 1] == events;
    if Saves(events[i]) {
      assert IsSave(events, SaveCount(events), i);
    }
  }

  lemma HandedOffDelivered(events: seq<Event>, n: nat)
    requires HandedOff(events, n)
    ensures Delivered(events, n)
  {
  }

  /** Slots follow the parity of the checkpoint. */
  ghost predicate Numbered(w: World) {
    && (w.manager.useAlt <==> w.manager.epoch % 2 == 1)
    && w.files.Keys == {Primary, Alternate}
    && w.newest <= w.manager.epoch
    && forall n :: n in w.flights ==> 0 < n <= w.manager.epoch && w.flights[n].slot == SlotOf(n)
  }

  /** A clean copy has its file to itself. */
  ghost predicate Undisturbed(flights: map<nat, Flight>) {
    forall n :: n in flights && flights[n].Writing? && flights[n].linked && flights[n].clean ==>
                  !Shared(flights, n, flights[n].slot)
  }

  /** What holds in every run. */
  ghost predicate Aligned(w: World) { Numbered(w) && Undisturbed(w.flights) }

  /** The next checkpoint's slot is the target. */
  lemma NextSlot(w: World)
    requires Numbered(w)
    ensures SlotOf(w.manager.epoch + 1) == Target(w)
  {
  }

  lemma NumberedStep(w: World, e: Event)
    requires Numbered(w)
    ensures Numbered(Next(w, e))
  {
    hide Shared, SlotOf;
    NextSlot(w);
  }

  lemma UndisturbedStep(w: World, e: Event)
    requires Undisturbed(w.flights)
    ensures Undisturbed(Next(w, e).flights)
  {
    if e.CopyStarts? && e.n in w.flights && w.flights[e.n].Waiting? {
      OpenedUndisturbed(w.flights, e.n, w.flights[e.n].slot);
    } else {
      WritersRemain(w.flights, Next(w, e).flights);
    }
  }

  /** When every writer was one before, no file gains one. */
  lemma WritersRemain(flights: map<nat, Flight>, later: map<nat, Flight>)
    requires Undisturbed(flights)
    requires forall n :: n in later && later[n].Writing? && later[n].linked ==> n in flights && flights[n] == later[n]
    ensures Undisturbed(later)
  {
  }

  /** A copy that opens a file is its only clean writer, if it has it to itself. */
  lemma OpenedUndisturbed(flights: map<nat, Flight>, n: nat, slot: Slot)
    requires Undisturbed(flights) && n in flights && flights[n].Waiting?
    ensures Undisturbed(Opened(flights, n, slot))
  {
  }

  lemma AlignedStep(w: World, e: Event)
    requires Aligned(w)
    ensures Aligned(Next(w, e))
  {
    hide Next, Numbered, Undisturbed;
    NumberedStep(w, e);
    UndisturbedStep(w, e);
  }

  lemma {:induction false} AlwaysAligned(events: seq<Event>)
    ensures Aligned(Run(events))
  {
    hide Next, Aligned;
    if events == [] {
      StartAligned();
    } else {
      AlwaysAligned(events[..|events| - 1]);
      AlignedStep(Run(events[..|events| - 1]), events[|events| - 1]);
    }
  }

  lemma StartAligned()
    ensures Aligned(START)
  {
  }

  /** An even number of saves apart means the same slot. */
  lemma SameSlot(a: nat, b: nat)
    ensures SlotOf(a) == SlotOf(b) <==> SavesApart(a, b) % 2 == 0
  {
  }

  /** One step keeps a safe state safe, unless it starts a copy into the newest checkpoint's slot. */
  lemma SafeStep(w: World, e: Event)
    requires Aligned(w) && Safe(w)
    ensures Safe(Next(w, e)) <==> !EvenStart(w, e)
  {
    hide SlotOf, SavesApart;
    NextSlot(w);
    if e.CopyStarts? {
      SameSlot(e.n, w.newest);
    }
  }

  lemma Prefixes(events: seq<Event>, k: nat)
    requires k < |events|
    ensures Run(events[..k + 1]) == Next(Run(events[..k]), events[k])
  {
    assert events[..k + 1][..k] == events[..k];
  }

  /**
   Crash safety, exactly. Over any run of handoffs, lost handoffs, fallbacks, failed saves
   and copies that end or fail, with any number of transfers at once, the newest completed
   checkpoint is intact at every instant if and only if every copy starts an odd number
   of saves away from it.
   */
  lemma SafeIffOddStarts(events: seq<Event>)
    ensures AlwaysSafe(events) <==> OddStarts(events)
  {
    hide Next, Safe, Aligned, EvenStart;
    if OddStarts(events) {
      forall k: nat | k <= |events|
        ensures Safe(Run(events[..k]))
      {
        SafeUpTo(events, k);
      }
    }
    if AlwaysSafe(events) {
      forall k: nat | k < |events|
        ensures !EvenStart(Run(events[..k]), events[k])
      {
        AlwaysAligned(events[..k]);
        Prefixes(events, k);
        SafeStep(Run(events[..k]), events[k]);
      }
    }
  }

  lemma {:induction false} SafeUpTo(events: seq<Event>, k: nat)
    requires OddStarts(events) && k <= |events|
    ensures Safe(Run(events[..k]))
  {
    hide Next, Aligned, EvenStart, Safe;
    if k == 0 {
      StartSafe();
    } else {
      SafeUpTo(events, k - 1);
      AlwaysAligned(events[..k - 1]);
      Prefixes(events, k - 1);
      SafeStep(Run(events[..k - 1]), events[k - 1]);
    }
  }

  lemma StartSafe()
    ensures Safe(START)
  {
  }

  /** In every run the file of a slot that a transfer is writing is never a complete checkpoint. */
  lemma {:induction false} WrittenSlotTorn(events: seq<Event>)
    ensures Torn(Run(events))
  {
    hide Next, Torn, Aligned;
    if events == [] {
      StartTorn();
    } else {
      WrittenSlotTorn(events[..|events| - 1]);
      AlwaysAligned(events[..|events| - 1]);
      TornStep(Run(events[..|events| - 1]), events[|events| - 1]);
    }
  }

  ghost predicate Torn(w: World) {
    forall n :: n in w.flights && w.flights[n].Writing? && w.flights[n].linked ==>
                  w.flights[n].slot in w.files && w.files[w.flights[n].slot].Partial?
  }

  lemma StartTorn()
    ensures Torn(START)
  {
  }

  lemma TornStep(w: World, e: Event)
    requires Torn(w) && Aligned(w)
    ensures Torn(Next(w, e))
  {
    hide SlotOf;
  }

  // ---- The intended discipline ------------------------------------------------

  /**
   No handoff is lost, no copy fails, every handoff finds the previous copy finished, and
   so does every fallback unless it is the first save since that copy was handed off.
   */
  predicate Allowed(w: World, e: Event) {
    match e
    case HandoffLost => false
    case CopyFails(_) => false
    case Handoff => w.flights == map[]
    case Fallback => w.flights.Keys <= {w.manager.epoch}
    case _ => true
  }

  ghost predicate Disciplined(events: seq<Event>) {
    forall k: nat :: k < |events| ==> Allowed(Run(events[..k]), events[k])
  }

  /** The newest completed checkpoint is the last one saved, or the one before while that is copied. */
  ghost predicate AtMostOneBehind(w: World) {
    var epoch := w.manager.epoch;
    && (if w.newest == epoch then w.flights.Keys <= {epoch - 1}
        else w.newest == epoch - 1 && w.flights.Keys == {epoch})
    && forall n :: n in w.flights && w.flights[n].Writing? ==> w.flights[n].linked && w.flights[n].clean
  }

  lemma DisciplinedStep(w: World, e: Event)
    requires Aligned(w) && AtMostOneBehind(w) && Allowed(w, e)
    ensures AtMostOneBehind(Next(w, e)) && !EvenStart(w, e)
  {
  }

  lemma {:induction false} DisciplinedKeepsUp(events: seq<Event>, k: nat)
    requires Disciplined(events) && k <= |events|
    ensures AtMostOneBehind(Run(events[..k]))
  {
    hide Next, Aligned, AtMostOneBehind, Allowed;
    if k == 0 {
      StartKeepsUp();
    } else {
      DisciplinedKeepsUp(events, k - 1);
      AlwaysAligned(events[..k - 1]);
      Prefixes(events, k - 1);
      DisciplinedStep(Run(events[..k - 1]), events[k - 1]);
    }
  }

  lemma StartKeepsUp()
    ensures AtMostOneBehind(START)
  {
  }

  /**
   Two-slot crash safety. If every accepted handoff finishes copying before the next
   handoff, and at most one fallback comes between, then at every instant the newest
   completed checkpoint is intact in its slot, not being rewritten, and at most one save old.
   */
  lemma TwoSlotSafety(events: seq<Event>)
    requires Disciplined(events)
    ensures AlwaysSafe(events) && AtMostOneBehind(Run(events))
  {
    hide Next, Safe, Aligned, Allowed, EvenStart, AtMostOneBehind, AlwaysSafe;
    forall k: nat | k < |events|
      ensures !EvenStart(Run(events[..k]), events[k])
    {
      DisciplinedKeepsUp(events, k);
      AlwaysAligned(events[..k]);
      DisciplinedStep(Run(events[..k]), events[k]);
    }
    SafeIffOddStarts(events);
    DisciplinedKeepsUp(events, |events|);
    assert events[..|events|] == events;
  }

  // ---- Runs that lose the newest checkpoint -----------------------------------

  /** A run that ends by starting a copy an even number of saves away is unsafe. */
  lemma UnsafeStart(front: seq<Event>, n: nat)
    requires EvenStart(Run(front), CopyStarts(n))
    ensures !AlwaysSafe(front + [CopyStarts(n)])
  {
    hide EvenStart, Run, AlwaysSafe;
    var events := front + [CopyStarts(n)];
    assert events[..|front|] == front && events[|front|] == CopyStarts(n);
    SafeIffOddStarts(events);
  }

  lemma RunTwo(front: seq<Event>, a: Event, b: Event)
    ensures Run(front + [a, b]) == Next(Next(Run(front), a), b)
  {
    hide Next;
    var events := front + [a, b];
    assert events[..|front| + 1][..|front|] == front;
    assert events[..|front| + 1] == front + [a];
    assert Run(front + [a]) == Next(Run(front), a);
  }

  /** A transfer that is the only one past its wait copies its checkpoint. */
  lemma CopyThrough(w: World, n: nat)
    requires n in w.flights && forall m :: m in w.flights ==> w.flights[m].Waiting?
    ensures Next(Next(w, CopyStarts(n)), CopyEnds(n))
            == World(w.manager, w.files[w.flights[n].slot := Complete(n)], w.flights - {n}, Newer(n, w.newest))
  {
    var slot := w.flights[n].slot;
    assert !Shared(w.flights, n, slot);
    assert Opened(w.flights, n, slot) == w.flights[n := Writing(slot, true, true)];
    assert w.flights[n := Writing(slot, true, true)] - {n} == w.flights - {n};
  }

  /** The first checkpoint is copied, and nothing else is under way. */
  const FIRST_COPIED := World(Manager(1, true), map[Primary := Complete(1), Alternate := Absent], map[], 1)

  const FIRST_RUN := [Handoff] + [CopyStarts(1), CopyEnds(1)]

  lemma FirstHandoff()
    ensures Run([Handoff]) == START.(manager := Manager(1, true), flights := map[1 := Waiting(Primary)])
  {
  }

  lemma FirstCopied()
    ensures Run(FIRST_RUN) == FIRST_COPIED
  {
    hide Run, Next;
    FirstHandoff();
    RunTwo([Handoff], CopyStarts(1), CopyEnds(1));
    CopyThrough(Run([Handoff]), 1);
    assert map[1 := Waiting(Primary)] - {1} == map[];
  }

  /** One lost handoff is enough: the next copy overwrites the only complete checkpoint. */
  lemma LostHandoffUnsafe()
    ensures !AlwaysSafe(FIRST_RUN + [HandoffLost, Handoff] + [CopyStarts(3)])
  {
    hide AlwaysSafe, Run;
    FirstCopied();
    RunTwo(FIRST_RUN, HandoffLost, Handoff);
    UnsafeStart(FIRST_RUN + [HandoffLost, Handoff], 3);
  }

  /** So is a copy that fails: the next save goes to the slot of the only complete checkpoint. */
  lemma FailedCopyUnsafe()
    ensures !AlwaysSafe(FIRST_RUN + [Handoff, CopyStarts(2)] + [CopyFails(2), Handoff] + [CopyStarts(3)])
  {
    hide AlwaysSafe, Run, Opened, Next;
    FirstCopied();
    RunTwo(FIRST_RUN, Handoff, CopyStarts(2));
    RunTwo(FIRST_RUN + [Handoff, CopyStarts(2)], CopyFails(2), Handoff);
    SecondFails();
    UnsafeStart(FIRST_RUN + [Handoff, CopyStarts(2)] + [CopyFails(2), Handoff], 3);
  }

  lemma SecondFails()
    ensures var w := Next(Next(Next(Next(FIRST_COPIED, Handoff), CopyStarts(2)), CopyFails(2)), Handoff);
      EvenStart(w, CopyStarts(3))
  {
    hide Shared;
    var w := Next(Next(FIRST_COPIED, Handoff), CopyStarts(2));
    assert w.manager == Manager(2, false) && w.newest == 1;
  }

  /** And a transfer that still waits when two fallbacks have overtaken it. */
  lemma OvertakenCopyUnsafe()
    ensures !AlwaysSafe([Handoff] + [Fallback, Fallback] + [CopyStarts(1)])
  {
    hide AlwaysSafe, Run;
    FirstHandoff();
    RunTwo([Handoff], Fallback, Fallback);
    UnsafeStart([Handoff] + [Fallback, Fallback], 1);
  }

  const THREE_WAITING := map[1 := Waiting(Primary), 2 := Waiting(Alternate), 3 := Waiting(Primary)]

  /** And three transfers accepted before the first one's permission: the third rewrites the first one's slot. */
  lemma SeveralTransfersUnsafe()
    ensures !AlwaysSafe([Handoff] + [Handoff, Handoff] + [CopyStarts(1), CopyEnds(1)] + [CopyStarts(3)])
  {
    hide AlwaysSafe, Run, Next;
    FirstHandoff();
    RunTwo([Handoff], Handoff, Handoff);
    TwoMore();
    RunTwo([Handoff] + [Handoff, Handoff], CopyStarts(1), CopyEnds(1));
    CopyThrough(Run([Handoff] + [Handoff, Handoff]), 1);
    UnsafeStart([Handoff] + [Handoff, Handoff] + [CopyStarts(1), CopyEnds(1)], 3);
  }

  lemma TwoMore()
    ensures Next(Next(START.(manager := Manager(1, true), flights := map[1 := Waiting(Primary)]), Handoff), Handoff)
            == START.(manager := Manager(3, true), flights := THREE_WAITING)
  {
  }
}

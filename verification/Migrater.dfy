/**
 The migrater's service (src/migrater/server.py). Each method is one atomic step: a
 section under the service's lock together with the flag operations beside it.
 */
module Migrater {
  import opened Common
  import opened Arith
  import opened TokenBucket
  import opened Policies
  import opened Progress

  const BUFFER_LENGTH: nat := 128

  const DEFAULT_EXIT_RATE := 500000000

  datatype Outcome = Accepted | Rejected | Raised

  datatype HeartbeatRequest = HeartbeatRequest(
    checkpointSize: int,
    isMigrating: bool,
    progress: seq<Report>,
    epoch: int,
    totalEpochs: int)

  /**
   The service's fields, and its transfer threads, numbered as their notifications were
   accepted: those waiting for permission, those past the wait and those copying.
   */
  datatype State = State(
    pendingSize: int,
    transferActive: bool,
    currentRate: int,
    transferAllowed: bool,
    progress: seq<Report>,
    epoch: int,
    totalEpochs: int,
    shutdownRequested: bool,
    shutdownComplete: bool,
    streamOpen: bool,
    accepted: nat,
    waiting: set<nat>,
    released: set<nat>,
    copying: set<nat>)

  const INITIAL := State(0, false, 0, false, [], 0, 0, false, false, true, 0, {}, {}, {})

  /** The transfers that were accepted and have not ended. */
  function Unfinished(s: State): set<nat> { s.waiting + s.released + s.copying }

  // ---- What each step does ----------------------------------------------------

  /** file is the size of the local checkpoint, None when it cannot be found. */
  function NotifyOutcome(s: State, file: Option<nat>): Outcome {
    if s.shutdownRequested then Rejected
    else if file == None then Raised
    else if s.transferActive then Rejected
    else Accepted
  }

  function Notified(s: State, file: Option<nat>, epoch: int, totalEpochs: int): State {
    if NotifyOutcome(s, file) != Accepted then s
    else s.(transferAllowed := false, pendingSize := file.value, epoch := epoch, totalEpochs := totalEpochs,
            accepted := s.accepted + 1, waiting := s.waiting + {s.accepted})
  }

  /** A transfer gets past its wait; what happens to the permission afterwards no longer matters to it. */
  function Released(s: State, id: nat): State {
    if id !in s.waiting || !s.transferAllowed then s
    else s.(waiting := s.waiting - {id}, released := s.released + {id})
  }

  function Begun(s: State, id: nat): State {
    if id !in s.released then s
    else s.(transferActive := true, released := s.released - {id}, copying := s.copying + {id})
  }

  function Emitted(s: State, id: nat, r: Report): State {
    if id !in s.copying then s else s.(progress := Newest(s.progress + [r], BUFFER_LENGTH))
  }

  function Ended(s: State, id: nat): State {
    if id !in s.copying then s
    else s.(transferActive := false, currentRate := 0, copying := s.copying - {id},
            shutdownComplete := s.shutdownComplete || s.shutdownRequested)
  }

  /** The heartbeat generator makes another pass. */
  predicate Passes(s: State) { s.streamOpen && !s.shutdownComplete }

  /** The log line of a pass divides by the total size of the latest progress. */
  predicate PassRaises(s: State) { s.progress != [] && s.progress[|s.progress| - 1].totalBytes == 0 }

  /** The latest progress overrides the pending size. */
  function Drained(s: State): State {
    if s.progress == [] then s
    else s.(progress := [], pendingSize := s.progress[|s.progress| - 1].remainingBytes)
  }

  /** A pass that raises ends the stream, after it has taken the progress out. */
  function Beaten(s: State): State {
    if !Passes(s) then s else if PassRaises(s) then StreamEnded(Drained(s)) else Drained(s)
  }

  function Request(s: State): Option<HeartbeatRequest> {
    if !Passes(s) || PassRaises(s) then None
    else Some(HeartbeatRequest(Drained(s).pendingSize, s.transferActive, s.progress, s.epoch, s.totalEpochs))
  }

  /** The rate after EXIT: one that would block a pending transfer is replaced. */
  function ExitRate(s: State, limit: real): int {
    if s.pendingSize > 0 && s.currentRate <= 0 then
      if Int(limit) != 0 then Int(limit) else DEFAULT_EXIT_RATE
    else s.currentRate
  }

  /** The stream ends once. */
  function StreamEnded(s: State): State {
    if !s.streamOpen then s
    else s.(streamOpen := false,
            shutdownComplete := s.shutdownComplete || (s.shutdownRequested && !s.transferActive && s.pendingSize == 0))
  }

  /** One instruction handled; EXIT also leaves the heartbeat loop. */
  function Instructed(s: State, i: Instruction): State {
    if !s.streamOpen then s
    else
      match i.action
      case StartFlush => s.(currentRate := Int(i.rate), transferAllowed := true)
      case ChangeRate => s.(currentRate := MaxInt(0, Int(i.rate)), transferAllowed := true)
      case Hold => s
      case Exit =>
        StreamEnded(s.(shutdownRequested := true,
                       shutdownComplete := s.shutdownComplete || !s.transferActive,
                       currentRate := ExitRate(s, i.rate),
                       transferAllowed := true))
  }

  function Interrupted(s: State): State {
    s.(shutdownRequested := true,
       shutdownComplete := s.shutdownComplete || (!s.transferActive && s.pendingSize == 0))
  }

  // ---- The service ------------------------------------------------------------

  class MigraterService {
    const progress: ProgressBuffer<Report>
    var pendingSize: int
    var transferActive: bool
    var currentRate: int
    var transferAllowed: bool
    var epoch: int
    var totalEpochs: int
    var shutdownRequested: bool
    var shutdownComplete: bool
    var streamOpen: bool
    var accepted: nat
    var waiting: set<nat>
    var released: set<nat>
    var copying: set<nat>

    ghost predicate Valid()
      reads this
    {
      progress.maxlen == BUFFER_LENGTH
    }

    ghost function View(): State
      reads this, progress
    {
      State(pendingSize, transferActive, currentRate, transferAllowed, progress.items, epoch, totalEpochs,
            shutdownRequested, shutdownComplete, streamOpen, accepted, waiting, released, copying)
    }

    constructor ()
      ensures Valid() && fresh(progress) && View() == INITIAL
    {
      progress := new ProgressBuffer<Report>(BUFFER_LENGTH);
      pendingSize, transferActive, currentRate, transferAllowed := 0, false, 0, false;
      epoch, totalEpochs := 0, 0;
      shutdownRequested, shutdownComplete, streamOpen := false, false, true;
      accepted, waiting, released, copying := 0, {}, {}, {};
    }

    method NotifyCheckpointSaved(file: Option<nat>, epoch: int, totalEpochs: int) returns (outcome: Outcome)
      requires Valid()
      modifies this
      ensures Valid() && View() == Notified(old(View()), file, epoch, totalEpochs)
      ensures outcome == NotifyOutcome(old(View()), file)
      ensures outcome == (if old(shutdownRequested) then Rejected
                          else if file == None then Raised
                          else if old(transferActive) then Rejected
                          else Accepted)
    {
      if shutdownRequested {
        return Rejected;
      }
      if file == None {
        return Raised;
      }
      if transferActive {
        return Rejected;
      }
      transferAllowed := false;
      pendingSize := file.value;
      this.epoch := epoch;
      this.totalEpochs := totalEpochs;
      waiting := waiting + {accepted};
      accepted := accepted + 1;
      outcome := Accepted;
    }

    /** A transfer thread gets past its wait for permission. */
    method PassWait(id: nat)
      requires Valid()
      modifies this
      ensures Valid() && View() == Released(old(View()), id)
    {
      if id in waiting && transferAllowed {
        waiting := waiting - {id};
        released := released + {id};
      }
    }

    /** A thread past its wait marks the transfer active, under the lock, and copies. */
    method BeginTransfer(id: nat)
      requires Valid()
      modifies this
      ensures Valid() && View() == Begun(old(View()), id)
    {
      if id in released {
        released := released - {id};
        copying := copying + {id};
        transferActive := true;
      }
    }

    /** A copy reports progress. */
    method EmitProgress(id: nat, r: Report)
      requires Valid()
      modifies progress
      ensures Valid() && View() == Emitted(old(View()), id, r)
    {
      if id in copying {
        progress.Add(r);
      }
    }

    /** The finally block of a transfer, whether its copy finished or raised. */
    method EndTransfer(id: nat)
      requires Valid()
      modifies this
      ensures Valid() && View() == Ended(old(View()), id)
    {
      if id in copying {
        copying := copying - {id};
        transferActive := false;
        currentRate := 0;
        if shutdownRequested {
          shutdownComplete := true;
        }
      }
    }

    /** One pass of the heartbeat generator. */
    method Heartbeat() returns (request: Option<HeartbeatRequest>)
      requires Valid()
      modifies this, progress
      ensures Valid() && View() == Beaten(old(View()))
      ensures request == Request(old(View()))
    {
      if !streamOpen || shutdownComplete {
        return None;
      }
      var items := progress.Pop();
      var pending := pendingSize;
      var migrating := transferActive;
      if items != [] {
        var latest := items[|items| - 1];
        pendingSize := latest.remainingBytes;
        pending := pendingSize;
        if latest.totalBytes == 0 {
          StreamEnd();
          return None;
        }
      }
      request := Some(HeartbeatRequest(pending, migrating, items, epoch, totalEpochs));
    }

    method HandleInstruction(i: Instruction)
      requires Valid()
      modifies this
      ensures Valid() && View() == Instructed(old(View()), i)
    {
      if !streamOpen {
        return;
      }
      match i.action {
        case StartFlush =>
          currentRate := Int(i.rate);
          transferAllowed := true;
        case ChangeRate =>
          currentRate := MaxInt(0, Int(i.rate));
          transferAllowed := true;
        case Hold =>
        case Exit =>
          shutdownRequested := true;
          if !transferActive {
            shutdownComplete := true;
          }
          if pendingSize > 0 && currentRate <= 0 {
            currentRate := if Int(i.rate) != 0 then Int(i.rate) else DEFAULT_EXIT_RATE;
          }
          transferAllowed := true;
          StreamEnd();
      }
    }

    /** The finally block of the heartbeat loop. */
    method StreamEnd()
      requires Valid()
      modifies this
      ensures Valid() && View() == StreamEnded(old(View()))
    {
      if !streamOpen {
        return;
      }
      streamOpen := false;
      if shutdownRequested && !transferActive && pendingSize == 0 {
        shutdownComplete := true;
      }
    }

    /** The interrupt path of serve, up to its wait for completion. */
    method Interrupt()
      requires Valid()
      modifies this
      ensures Valid() && View() == Interrupted(old(View()))
    {
      shutdownRequested := true;
      if !transferActive && pendingSize == 0 {
        shutdownComplete := true;
      }
    }
  }
}

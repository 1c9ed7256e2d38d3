/** The orchestrator's registry of workers (ClusterState in src/orchestrator/scheduler.py). */
module Cluster {
  import opened Common

  datatype WorkerState = WorkerState(
    workerId: string,
    checkpointSize: real,
    isMigrating: bool,
    lastSeen: real,
    pendingSince: Option<real>,
    epoch: int,
    totalEpochs: int)

  type Registry = map<string, WorkerState>

  /** What one heartbeat reports about its sender, and the clock reading of its update. */
  datatype Beat = Beat(id: string, size: real, isMigrating: bool, epoch: int, totalEpochs: int, now: real)

  function Updated(workers: Registry, b: Beat): Registry
  {
    var pendingSince :=
      if b.size > 0.0 then
        if b.id in workers && workers[b.id].pendingSince.Some? then workers[b.id].pendingSince else Some(b.now)
      else None;
    workers[b.id := WorkerState(b.id, b.size, b.isMigrating, b.now, pendingSince, b.epoch, b.totalEpochs)]
  }

  class ClusterState {
    var workers: Registry

    constructor ()
      ensures workers == map[]
    {
      workers := map[];
    }

    method Update(b: Beat)
      modifies this
      ensures workers == Updated(old(workers), b)
    {
      var pendingSince := None;
      if b.size > 0.0 {
        if b.id in workers && workers[b.id].pendingSince != None {
          pendingSince := workers[b.id].pendingSince;
        } else {
          pendingSince := Some(b.now);
        }
      }
      workers := workers[b.id := WorkerState(b.id, b.size, b.isMigrating, b.now, pendingSince, b.epoch, b.totalEpochs)];
    }

    method Remove(id: string)
      modifies this
      ensures workers == old(workers) - {id}
    {
      workers := workers - {id};
    }

    method Snapshot() returns (snapshot: Registry)
      ensures snapshot == workers
    {
      snapshot := workers;
    }
  }

  // ---- Histories --------------------------------------------------------------

  datatype Event = Update(b: Beat) | Remove(id: string) {
    function Id(): string { if Update? then b.id else id }

    /** A pending checkpoint is gone: its worker left or reported nothing pending. */
    predicate Ends() { Remove? || b.size <= 0.0 }
  }

  function Apply(workers: Registry, e: Event): Registry {
    match e
    case Update(b) => Updated(workers, b)
    case Remove(id) => workers - {id}
  }

  function Replay(events: seq<Event>): Registry {
    if events == [] then map[] else Apply(Replay(events[..|events| - 1]), events[|events| - 1])
  }

  /** Event k is the latest one about id. */
  ghost predicate IsLatest(events: seq<Event>, id: string, k: int) {
    && 0 <= k < |events| && events[k].Id() == id
    && forall j :: k < j < |events| ==> events[j].Id() != id
  }

  /** Nothing is pending for id after these events: the latest of them about id, if any, ended it. */
  ghost predicate Idle(events: seq<Event>, id: string) {
    forall k :: IsLatest(events, id, k) ==> events[k].Ends()
  }

  /** Event k opened the run of positive sizes of id that is still unbroken at the end. */
  ghost predicate OpensRun(events: seq<Event>, id: string, k: int) {
    && 0 <= k < |events| && events[k].Update? && events[k].b.id == id && events[k].b.size > 0.0
    && Idle(events[..k], id)
    && forall j :: k < j < |events| && events[j].Id() == id ==> !events[j].Ends()
  }

  lemma LatestSnoc(events: seq<Event>, id: string, k: int)
    requires events != []
    ensures var n := |events| - 1;
      IsLatest(events, id, k) <==>
      (k == n && events[n].Id() == id) || (events[n].Id() != id && IsLatest(events[..n], id, k))
  {
  }

  /** A worker is registered exactly when the latest event about it is an update, which it reflects. */
  lemma {:induction false} ReplayIsLatest(events: seq<Event>, id: string)
    ensures id in Replay(events) <==> exists k :: IsLatest(events, id, k) && events[k].Update?
    ensures forall k :: IsLatest(events, id, k) && events[k].Update? ==>
              var w, b := Replay(events)[id], events[k].b;
              w == WorkerState(id, b.size, b.isMigrating, b.now, w.pendingSince, b.epoch, b.totalEpochs)
    ensures id in Replay(events) ==>
              (Replay(events)[id].pendingSince.Some? <==> Replay(events)[id].checkpointSize > 0.0)
  {
    if events != [] {
      var n := |events| - 1;
      ReplayIsLatest(events[..n], id);
      forall k { LatestSnoc(events, id, k); }
      if events[n].Id() == id {
        assert IsLatest(events, id, n);
      } else {
        assert forall k :: IsLatest(events, id, k) <==> IsLatest(events[..n], id, k);
      }
    }
  }

  /**
   The registry refines its history: a pending worker's `pendingSince` is the clock
   reading of the update that opened its current unbroken run of positive sizes.
   */
  lemma {:induction false} PendingSinceOpensRun(events: seq<Event>, id: string) returns (k: int)
    requires id in Replay(events) && Replay(events)[id].checkpointSize > 0.0
    ensures OpensRun(events, id, k)
    ensures Replay(events)[id].pendingSince == Some(events[k].b.now)
  {
    var n := |events| - 1;
    var front := events[..n];
    ReplayIsLatest(front, id);
    if events[n].Id() != id {
      k := PendingSinceOpensRun(front, id);
      assert events[..k] == front[..k];
    } else if id in Replay(front) && Replay(front)[id].checkpointSize > 0.0 {
      k := PendingSinceOpensRun(front, id);
      assert events[..k] == front[..k];
    } else {
      k := n;
      assert Idle(front, id);
    }
  }

  /** At most one event opens the current run. */
  lemma OpensRunOnce(events: seq<Event>, id: string, j: int, k: int)
    requires OpensRun(events, id, j) && OpensRun(events, id, k)
    ensures j == k
  {
    if j < k {
      OpenedIsPending(events[..k], id, j);
    } else if k < j {
      OpenedIsPending(events[..j], id, k);
    }
  }

  /** Once opened and not ended, a run is pending. */
  lemma {:induction false} OpenedIsPending(events: seq<Event>, id: string, k: int)
    requires 0 <= k < |events| && events[k].Id() == id
    requires forall j :: k <= j < |events| && events[j].Id() == id ==> !events[j].Ends()
    ensures !Idle(events, id)
  {
    var n := |events| - 1;
    if events[n].Id() == id {
      assert IsLatest(events, id, n);
    } else {
      OpenedIsPending(events[..n], id, k);
      var j :| IsLatest(events[..n], id, j) && !events[..n][j].Ends();
      assert IsLatest(events, id, j);
    }
  }

  /** The clock readings of the updates never go backwards and reach `now` at most. */
  ghost predicate ClockBy(events: seq<Event>, now: real) {
    events == [] ||
    (var e := events[|events| - 1];
     match e
     case Update(b) => b.now <= now && ClockBy(events[..|events| - 1], b.now)
     case Remove(_) => ClockBy(events[..|events| - 1], now))
  }

  /** With such a clock no pending age is negative. */
  lemma {:induction false} AgesNonnegative(events: seq<Event>, now: real, id: string)
    requires ClockBy(events, now) && id in Replay(events)
    ensures Replay(events)[id].lastSeen <= now
    ensures Replay(events)[id].pendingSince.Some? ==>
              Replay(events)[id].pendingSince.value <= Replay(events)[id].lastSeen
  {
    var n := |events| - 1;
    match events[n] {
      case Update(b) =>
        if id in Replay(events[..n]) { AgesNonnegative(events[..n], b.now, id); }
      case Remove(_) =>
        AgesNonnegative(events[..n], now, id);
    }
  }
}

/** The capture-process registry of the capture service: a map from
    diagnostic id to capture process and a map from diagnostic id to that
    process's stop event. A process is reduced to its pid and whether it is
    alive; an event to whether it is set. Processes die on their own (the
    capture loop ends or fails), which `Manager.ProcessExited` models. */
module ProcessManager {
  import opened Wrappers

  type DiagnosticId = int

  datatype Process = Process(pid: int, alive: bool)

  /** What `process.start()` did: a process with this pid, or an exception. */
  datatype Launch = Launched(pid: int) | StartRaised

  /** One entry of `get_running_processes`; `started_at` is never set on a
      process, so it is always `None`. */
  datatype RunningInfo = RunningInfo(pid: int, startedAt: Option<string>)

  /** The two dictionaries. `stopEvents[id]` is whether the event is set. */
  datatype Registry = Registry(processes: map<DiagnosticId, Process>, stopEvents: map<DiagnosticId, bool>)

  /** Every registered process has a stop event. The converse fails after
      a start whose `process.start()` raised. */
  predicate Consistent(r: Registry)
  {
    r.processes.Keys <= r.stopEvents.Keys
  }

  predicate IsAlive(r: Registry, id: DiagnosticId)
  {
    id in r.processes && r.processes[id].alive
  }

  /** `_cleanup_process`: the id leaves both maps. */
  function Cleanup(r: Registry, id: DiagnosticId): (t: Registry)
    ensures id !in t.processes && id !in t.stopEvents
    ensures forall k :: k != id ==> (k in t.processes <==> k in r.processes) && (k in t.stopEvents <==> k in r.stopEvents)
    ensures forall k :: k in t.processes ==> t.processes[k] == r.processes[k]
    ensures forall k :: k in t.stopEvents ==> t.stopEvents[k] == r.stopEvents[k]
  {
    Registry(r.processes - {id}, r.stopEvents - {id})
  }

  /** `start_capture`: refused while an alive process is registered; a
      dead entry is cleaned up; then a fresh unset event is stored, and the
      process only if it started. */
  function Start(r: Registry, id: DiagnosticId, launch: Launch): (res: (Registry, bool))
    ensures IsAlive(r, id) ==> res == (r, false)
    ensures !IsAlive(r, id) ==> res.1 == launch.Launched?
    ensures !IsAlive(r, id) ==> res.0.stopEvents == r.stopEvents[id := false]
    ensures !IsAlive(r, id) && launch.Launched? ==> res.0.processes == r.processes[id := Process(launch.pid, true)]
    ensures !IsAlive(r, id) && launch.StartRaised? ==> res.0.processes == r.processes - {id}
  {
    if IsAlive(r, id) then (r, false)
    else
      var c := if id in r.processes then Cleanup(r, id) else r;
      var withEvent := c.(stopEvents := c.stopEvents[id := false]);
      match launch
      case Launched(pid) => (withEvent.(processes := withEvent.processes[id := Process(pid, true)]), true)
      case StartRaised => (withEvent, false)
  }

  /** `stop_capture`: unknown ids are refused; a dead process is cleaned
      up; an alive one is signalled, then ended and cleaned up. The third
      component says whether the stop event was set. */
  function Stop(r: Registry, id: DiagnosticId): (res: (Registry, bool, bool))
    ensures id !in r.processes ==> res == (r, false, false)
    ensures id in r.processes ==> res.0 == Cleanup(r, id) && res.1
    ensures res.2 <==> IsAlive(r, id) && id in r.stopEvents
  {
    if id !in r.processes then (r, false, false)
    else if !r.processes[id].alive then (Cleanup(r, id), true, false)
    else (Cleanup(r, id), true, id in r.stopEvents)
  }

  /** `is_running`: alive entries are kept, dead ones cleaned up. */
  function Running(r: Registry, id: DiagnosticId): (res: (Registry, bool))
    ensures res.1 <==> IsAlive(r, id)
    ensures res.0 == if id in r.processes && !r.processes[id].alive then Cleanup(r, id) else r
  {
    if id !in r.processes then (r, false)
    else if r.processes[id].alive then (r, true)
    else (Cleanup(r, id), false)
  }

  /** The registered processes that are alive. */
  function AliveProcesses(ps: map<DiagnosticId, Process>): map<DiagnosticId, Process>
  {
    map id | id in ps && ps[id].alive :: ps[id]
  }

  function DeadIds(ps: map<DiagnosticId, Process>): set<DiagnosticId>
  {
    set id | id in ps && !ps[id].alive
  }

  /** `get_running_processes`: every alive entry, and every dead one cleaned up. */
  function RunningProcesses(r: Registry): (res: (Registry, map<DiagnosticId, RunningInfo>))
    ensures forall id :: id in res.1 <==> IsAlive(r, id)
    ensures forall id :: id in res.1 ==> id in r.processes && res.1[id] == RunningInfo(r.processes[id].pid, None)
    ensures forall id :: id in res.0.processes <==> IsAlive(r, id)
    ensures forall id :: id in res.0.processes ==> id in r.processes && res.0.processes[id] == r.processes[id]
    ensures forall id :: id in res.0.stopEvents <==> id in r.stopEvents && !(id in r.processes && !r.processes[id].alive)
  {
    (Registry(AliveProcesses(r.processes), r.stopEvents - DeadIds(r.processes)),
     map id | id in r.processes && r.processes[id].alive :: RunningInfo(r.processes[id].pid, None))
  }

  /** Where the pass of `get_running_processes` over `r` stands when the
      ids in `pending` are still to be visited. */
  function Pass(r: Registry, pending: set<DiagnosticId>): (Registry, map<DiagnosticId, RunningInfo>)
  {
    var visitedDead := set id | id in r.processes && id !in pending && !r.processes[id].alive;
    (Registry(r.processes - visitedDead, r.stopEvents - visitedDead),
     map id | id in r.processes && id !in pending && r.processes[id].alive :: RunningInfo(r.processes[id].pid, None))
  }

  lemma PassStart(r: Registry)
    ensures Pass(r, r.processes.Keys) == (r, map[])
  {
    var (s, listing) := Pass(r, r.processes.Keys);
    assert s.processes == r.processes;
    assert s.stopEvents == r.stopEvents;
    assert listing == map[];
  }

  lemma PassStep(r: Registry, pending: set<DiagnosticId>, id: DiagnosticId)
    requires pending <= r.processes.Keys && id in pending
    ensures var (s, listing) := Pass(r, pending);
      && id in s.processes && s.processes[id] == r.processes[id]
      && (r.processes[id].alive ==>
            Pass(r, pending - {id}) == (s, listing[id := RunningInfo(r.processes[id].pid, None)]))
      && (!r.processes[id].alive ==>
            Pass(r, pending - {id}) == (Cleanup(s, id), listing))
  {
    var (s, listing) := Pass(r, pending);
    var (s', listing') := Pass(r, pending - {id});
    if r.processes[id].alive {
      assert listing' == listing[id := RunningInfo(r.processes[id].pid, None)];
      assert s'.processes == s.processes;
      assert s'.stopEvents == s.stopEvents;
    } else {
      assert listing' == listing;
      assert s'.processes == s.processes - {id};
      assert s'.stopEvents == s.stopEvents - {id};
    }
  }

  lemma PassEnd(r: Registry)
    ensures Pass(r, {}) == RunningProcesses(r)
  {
    var (s, listing) := Pass(r, {});
    var (t, listing') := RunningProcesses(r);
    var visitedDead := set id | id in r.processes && id !in {} && !r.processes[id].alive;
    assert visitedDead == DeadIds(r.processes);
    assert s.processes == t.processes;
    assert s.stopEvents == t.stopEvents;
    assert listing == listing';
  }

  /** A set is empty or has a member. */
  lemma HasElement(s: set<DiagnosticId>)
    ensures s == {} || exists x :: x in s
  {
    if forall x :: x !in s {
      assert s == {};
    }
  }

  /** Every operation keeps every registered process paired with an event. */
  lemma OperationsKeepConsistent(r: Registry, id: DiagnosticId, launch: Launch)
    requires Consistent(r)
    ensures Consistent(Start(r, id, launch).0)
    ensures Consistent(Stop(r, id).0)
    ensures Consistent(Running(r, id).0)
    ensures Consistent(RunningProcesses(r).0)
  {
  }

  /** A start whose `process.start()` raised leaves an event without a
      process: the key sets of the two maps differ. */
  lemma FailedStartDiverges(id: DiagnosticId)
    ensures var t := Start(Registry(map[], map[]), id, StartRaised).0;
      id in t.stopEvents && id !in t.processes && t.processes.Keys != t.stopEvents.Keys
  {
  }

  /** A successful start is seen as running, and a stop then signals the
      new process and leaves the registry as a cleanup of the original. */
  lemma StartThenStop(r: Registry, id: DiagnosticId, pid: int)
    requires !IsAlive(r, id)
    ensures var (s, ok) := Start(r, id, Launched(pid));
      && ok
      && Running(s, id) == (s, true)
      && Stop(s, id) == (Cleanup(r, id), true, true)
  {
    var (s, ok) := Start(r, id, Launched(pid));
    assert s.processes == r.processes[id := Process(pid, true)];
    assert s.stopEvents == r.stopEvents[id := false];
    assert s.processes - {id} == r.processes - {id};
    assert s.stopEvents - {id} == r.stopEvents - {id};
  }

  /** After `get_running_processes`, `is_running` agrees with the listing
      and cleans up nothing more. */
  lemma ListingAgreesWithIsRunning(r: Registry, id: DiagnosticId)
    ensures var (s, listing) := RunningProcesses(r);
      Running(s, id) == (s, id in listing)
  {
  }

  /** A second start while the first is alive is refused, whatever the launch. */
  lemma SecondStartRefused(r: Registry, id: DiagnosticId, pid: int, launch: Launch)
    requires !IsAlive(r, id)
    ensures var s := Start(r, id, Launched(pid)).0;
      Start(s, id, launch) == (s, false)
  {
  }

  class Manager {
    var processes: map<DiagnosticId, Process>
    var stopEvents: map<DiagnosticId, bool>

    function Reg(): Registry
      reads this
    {
      Registry(processes, stopEvents)
    }

    ghost predicate Valid()
      reads this
    {
      Consistent(Reg())
    }

    constructor ()
      ensures Valid() && processes == map[] && stopEvents == map[]
    {
      processes := map[];
      stopEvents := map[];
    }

    /** `_cleanup_process`. */
    method CleanupProcess(id: DiagnosticId)
      modifies this
      ensures Reg() == Cleanup(old(Reg()), id)
    {
      if id in processes {
        processes := processes - {id};
      }
      if id in stopEvents {
        stopEvents := stopEvents - {id};
      }
    }

    /** `start_capture`, given what `process.start()` does. */
    method StartCapture(id: DiagnosticId, launch: Launch) returns (ok: bool)
      requires Valid()
      modifies this
      ensures Valid()
      ensures (Reg(), ok) == Start(old(Reg()), id, launch)
    {
      if id in processes {
        if processes[id].alive {
          return false;
        }
        CleanupProcess(id);
      }
      stopEvents := stopEvents[id := false];
      match launch {
        case Launched(pid) =>
          processes := processes[id := Process(pid, true)];
          ok := true;
        case StartRaised =>
          ok := false;
      }
      OperationsKeepConsistent(old(Reg()), id, launch);
    }

    /** `stop_capture`. An alive process has its event set and is then
        joined, terminated or killed, after which it is no longer alive;
        `signalled` reports whether the event was set. */
    method StopCapture(id: DiagnosticId) returns (ok: bool, signalled: bool)
      requires Valid()
      modifies this
      ensures Valid()
      ensures (Reg(), ok, signalled) == Stop(old(Reg()), id)
    {
      signalled := false;
      if id !in processes {
        return false, signalled;
      }
      if !processes[id].alive {
        CleanupProcess(id);
        return true, signalled;
      }
      if id in stopEvents {
        stopEvents := stopEvents[id := true];
        signalled := true;
      }
      processes := processes[id := processes[id].(alive := false)];
      CleanupProcess(id);
      ok := true;
      assert Reg() == Cleanup(old(Reg()), id);
      OperationsKeepConsistent(old(Reg()), id, StartRaised);
    }

    /** `is_running`. */
    method IsRunning(id: DiagnosticId) returns (running: bool)
      requires Valid()
      modifies this
      ensures Valid()
      ensures (Reg(), running) == Running(old(Reg()), id)
    {
      if id !in processes {
        return false;
      }
      running := processes[id].alive;
      if !running {
        CleanupProcess(id);
      }
      OperationsKeepConsistent(old(Reg()), id, StartRaised);
    }

    /** `get_running_processes`: one pass over a snapshot of the entries. */
    method GetRunningProcesses() returns (running: map<DiagnosticId, RunningInfo>)
      requires Valid()
      modifies this
      ensures Valid()
      ensures (Reg(), running) == RunningProcesses(old(Reg()))
    {
      ghost var r0 := Reg();
      var pending := processes.Keys;
      running := map[];
      PassStart(r0);
      while pending != {}
        invariant pending <= r0.processes.Keys
        invariant (Reg(), running) == Pass(r0, pending)
        decreases pending
      {
        HasElement(pending);
        var id :| id in pending;
        PassStep(r0, pending, id);
        if processes[id].alive {
          running := running[id := RunningInfo(processes[id].pid, None)];
        } else {
          CleanupProcess(id);
        }
        pending := pending - {id};
      }
      PassEnd(r0);
      OperationsKeepConsistent(r0, 0, StartRaised);
    }

    /** A registered process ends by itself. */
    method ProcessExited(id: DiagnosticId)
      requires Valid() && id in processes
      modifies this
      ensures Valid()
      ensures Reg() == old(Reg()).(processes := old(processes)[id := old(processes)[id].(alive := false)])
    {
      processes := processes[id := processes[id].(alive := false)];
    }
  }
}

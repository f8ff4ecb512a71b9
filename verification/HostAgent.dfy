/**
 The resources of one host: overlay mounts and their writable layers, cgroups, Firecracker processes and
 the table of running sandboxes (cmd/host-agent/server.go, internal/overlay/overlay.go).

 What each operation does to the resources is a function on values. `Agent` is the server itself, one
 call at a time, proved to compute these functions. `Sys` interleaves any number of placements,
 terminations and watchVM goroutines, one acquisition, release or table access per step, with the same
 functions as its steps; any process may exit at any moment. Sandbox IDs are placed at most once, which
 PlacementSafety.PlacedAtMostOnce proves of the control plane.
 */
module HostAgent {

  /** The fallible operations of PlaceSandbox, in order. */
  datatype Stage =
    | LowerDir
    | OverlaySetup
    | CgroupSetup
    | MakeDir
    | CopyRootfs
    | CreateLog
    | StartProcess
    | WaitSocket
    | MachineConfig
    | BootSource
    | PutDrive
    | PutVsock
    | AddPid
    | Boot

  function Rank(stage: Stage): nat {
    match stage
    case LowerDir => 0
    case OverlaySetup => 1
    case CgroupSetup => 2
    case MakeDir => 3
    case CopyRootfs => 4
    case CreateLog => 5
    case StartProcess => 6
    case WaitSocket => 7
    case MachineConfig => 8
    case BootSource => 9
    case PutDrive => 10
    case PutVsock => 11
    case AddPid => 12
    case Boot => 13
  }

  function Next(stage: Stage): (next: Stage)
    requires stage != Boot
    ensures Rank(next) == Rank(stage) + 1
  {
    match stage
    case LowerDir => OverlaySetup
    case OverlaySetup => CgroupSetup
    case CgroupSetup => MakeDir
    case MakeDir => CopyRootfs
    case CopyRootfs => CreateLog
    case CreateLog => StartProcess
    case StartProcess => WaitSocket
    case WaitSocket => MachineConfig
    case MachineConfig => BootSource
    case BootSource => PutDrive
    case PutDrive => PutVsock
    case PutVsock => AddPid
    case AddPid => Boot
  }

  /**
   How an operation ends. Halfway: a mount can fail after its directories were made, a cgroup setup
   after the cgroup was made, and an overlay teardown after the unmount, with the upper layer not wiped.
   */
  datatype Fault = Succeeds | Fails | FailsHalfway

  /** How the teardowns of one placement end. */
  datatype Undo = Undo(overlay: Fault, cgroup: bool)

  // ---------- What each operation does to the host ----------

  /**
   The resources in use, by sandbox ID. `layers`: upper layers that may hold a tenant's files; `dirs`:
   sandbox directories on disk; `zombies`: exited processes that nobody has waited for.
   */
  datatype Host = Host(
    dirs: set<string>,
    overlays: set<string>,
    layers: set<string>,
    cgroups: set<string>,
    running: set<string>,
    zombies: set<string>,
    table: set<string>)

  function Attempted(h: Host, id: string, stage: Stage, fault: Fault): Host {
    match stage
    case OverlaySetup =>
      if fault.Fails? then h
      else if fault.FailsHalfway? then h.(dirs := h.dirs + {id})
      else h.(dirs := h.dirs + {id}, overlays := h.overlays + {id}, layers := h.layers + {id})
    case CgroupSetup => if fault.Fails? then h else h.(cgroups := h.cgroups + {id})
    case StartProcess => if fault.Succeeds? then h.(running := h.running + {id}) else h
    case _ => h
  }

  /** Kills the process, which stays unreaped until someone waits for it. */
  function Exited(h: Host, id: string): Host {
    if id in h.running then h.(running := h.running - {id}, zombies := h.zombies + {id}) else h
  }

  function OverlayReleased(h: Host, id: string, fault: Fault): Host {
    match fault
    case Succeeds => h.(overlays := h.overlays - {id}, layers := h.layers - {id})
    case Fails => h
    case FailsHalfway => h.(overlays := h.overlays - {id})
  }

  function CgroupReleased(h: Host, id: string, ok: bool): Host {
    if ok then h.(cgroups := h.cgroups - {id}) else h
  }

  function Listed(h: Host, id: string): Host {
    h.(table := h.table + {id})
  }

  function Unlisted(h: Host, id: string): Host {
    h.(table := h.table - {id})
  }

  function Reaped(h: Host, id: string): Host {
    h.(zombies := h.zombies - {id})
  }

  // ---------- What each call does when it runs alone ----------

  /** The error return of a stage undoes, in this order: process, overlay, cgroup. */
  function Compensated(h: Host, id: string, stage: Stage, undo: Undo): Host {
    var h1 := if Rank(stage) > Rank(StartProcess) then Exited(h, id) else h;
    var h2 := if Rank(stage) > Rank(OverlaySetup) then OverlayReleased(h1, id, undo.overlay) else h1;
    if Rank(stage) > Rank(CgroupSetup) then CgroupReleased(h2, id, undo.cgroup) else h2
  }

  /** PlaceSandbox from some stage on. */
  function PlaceFrom(h: Host, id: string, stage: Stage, faults: Stage -> Fault, undo: Undo): (Host, bool)
    decreases Rank(Boot) - Rank(stage)
  {
    var h' := Attempted(h, id, stage, faults(stage));
    if !faults(stage).Succeeds? then (Compensated(h', id, stage, undo), false)
    else if stage == Boot then (Listed(h', id), true)
    else PlaceFrom(h', id, Next(stage), faults, undo)
  }

  function Terminate(h: Host, id: string): (Host, bool) {
    if id in h.table then (Exited(Unlisted(h, id), id), true) else (h, false)
  }

  function Watch(h: Host, id: string, undo: Undo): Host {
    OverlayReleased(CgroupReleased(Unlisted(Reaped(h, id), id), id, undo.cgroup), id, undo.overlay)
  }

  /** The first stage from the given one on that fails. */
  function FirstFailure(stage: Stage, faults: Stage -> Fault): (f: Stage)
    ensures Rank(f) >= Rank(stage)
    decreases Rank(Boot) - Rank(stage)
  {
    if !faults(stage).Succeeds? || stage == Boot then stage else FirstFailure(Next(stage), faults)
  }

  ghost predicate SameFor(h: Host, h': Host, x: string) {
    && (x in h'.dirs <==> x in h.dirs) && (x in h'.overlays <==> x in h.overlays)
    && (x in h'.layers <==> x in h.layers) && (x in h'.cgroups <==> x in h.cgroups)
    && (x in h'.running <==> x in h.running) && (x in h'.zombies <==> x in h.zombies)
    && (x in h'.table <==> x in h.table)
  }

  /** What a placement that has reached a stage holds, and nothing else. */
  ghost predicate HoldsAt(h: Host, id: string, stage: Stage) {
    && (id in h.overlays <==> Rank(stage) > Rank(OverlaySetup))
    && (id in h.layers <==> Rank(stage) > Rank(OverlaySetup))
    && (id in h.cgroups <==> Rank(stage) > Rank(CgroupSetup))
    && (id in h.running <==> Rank(stage) > Rank(StartProcess))
    && (Rank(stage) > Rank(OverlaySetup) ==> id in h.dirs)
    && id !in h.zombies && id !in h.table
  }

  /**
   A placement run alone, for every way its operations can end. It succeeds exactly when no stage
   fails. If the first stage to fail is f, the sandbox is not listed and runs no process; it leaves a
   mount exactly when the unmount failed, an upper layer exactly when the teardown did not succeed, a
   cgroup exactly when its setup failed halfway or its teardown failed, and a process unreaped exactly
   when one had been started.
   */
  lemma {:induction false} PlacementEffect(h: Host, id: string, stage: Stage, faults: Stage -> Fault, undo: Undo)
    requires HoldsAt(h, id, stage)
    ensures
      var (h', placed) := PlaceFrom(h, id, stage, faults, undo);
      var f := FirstFailure(stage, faults);
      && (placed <==> faults(f).Succeeds?)
      && (placed ==> id in h'.dirs && id in h'.overlays && id in h'.layers && id in h'.cgroups
                     && id in h'.running && id !in h'.zombies && id in h'.table)
      && (!placed ==>
            && id !in h'.table && id !in h'.running
            && (id in h'.overlays <==> Rank(f) > Rank(OverlaySetup) && undo.overlay.Fails?)
            && (id in h'.layers <==> Rank(f) > Rank(OverlaySetup) && !undo.overlay.Succeeds?)
            && (id in h'.cgroups <==> (f == CgroupSetup && faults(f).FailsHalfway?)
                                      || (Rank(f) > Rank(CgroupSetup) && !undo.cgroup))
            && (id in h'.zombies <==> Rank(f) > Rank(StartProcess))
            && (id in h'.dirs <==> id in h.dirs || Rank(f) > Rank(OverlaySetup)
                                   || (f == OverlaySetup && faults(f).FailsHalfway?)))
    decreases Rank(Boot) - Rank(stage)
  {
    var h' := Attempted(h, id, stage, faults(stage));
    AttemptEffect(h, id, stage, faults(stage));
    if !faults(stage).Succeeds? {
      CompensationEffect(h', id, stage, undo);
    } else if stage != Boot {
      PlacementEffect(h', id, Next(stage), faults, undo);
    }
  }

  /** A placement touches no other sandbox. */
  lemma {:induction false} PlacementIsLocal(h: Host, id: string, stage: Stage, faults: Stage -> Fault, undo: Undo,
                                            x: string)
    requires x != id
    ensures SameFor(h, PlaceFrom(h, id, stage, faults, undo).0, x)
    decreases Rank(Boot) - Rank(stage)
  {
    var h' := Attempted(h, id, stage, faults(stage));
    if faults(stage).Succeeds? && stage != Boot {
      PlacementIsLocal(h', id, Next(stage), faults, undo, x);
    }
  }

  lemma RetirementIsLocal(h: Host, id: string, undo: Undo, x: string)
    requires x != id
    ensures SameFor(h, Watch(Terminate(h, id).0, id, undo), x)
  {
  }

  lemma AttemptEffect(h: Host, id: string, stage: Stage, fault: Fault)
    requires HoldsAt(h, id, stage)
    ensures
      var h' := Attempted(h, id, stage, fault);
      && (fault.Succeeds? && stage != Boot ==> HoldsAt(h', id, Next(stage)))
      && (!fault.Succeeds? ==>
            && h' == h.(dirs := h'.dirs, cgroups := h'.cgroups)
            && (id in h'.dirs <==> id in h.dirs || (stage == OverlaySetup && fault.FailsHalfway?))
            && (id in h'.cgroups <==> id in h.cgroups || (stage == CgroupSetup && fault.FailsHalfway?)))
      && (stage == Boot ==> h' == h)
  {
  }

  lemma CompensationEffect(h: Host, id: string, stage: Stage, undo: Undo)
    ensures
      var h' := Compensated(h, id, stage, undo);
      && h'.dirs == h.dirs && h'.table == h.table
      && (id in h'.overlays <==> id in h.overlays && (Rank(stage) > Rank(OverlaySetup) ==> undo.overlay.Fails?))
      && (id in h'.layers <==> id in h.layers && (Rank(stage) > Rank(OverlaySetup) ==> !undo.overlay.Succeeds?))
      && (id in h'.cgroups <==> id in h.cgroups && (Rank(stage) > Rank(CgroupSetup) ==> !undo.cgroup))
      && (id in h'.running <==> id in h.running && Rank(stage) <= Rank(StartProcess))
      && (id in h'.zombies <==> id in h.zombies || (id in h.running && Rank(stage) > Rank(StartProcess)))
  {
  }

  // ---------- The server, one call at a time ----------

  datatype Entry = Entry(tenantID: string, vsockCID: nat)

  class Agent {
    var dirs: set<string>
    var overlays: set<string>
    var layers: set<string>
    var cgroups: set<string>
    var running: set<string>
    var zombies: set<string>
    var sandboxes: map<string, Entry>

    constructor ()
      ensures View() == Host({}, {}, {}, {}, {}, {}, {})
    {
      dirs, overlays, layers, cgroups, running, zombies, sandboxes := {}, {}, {}, {}, {}, {}, map[];
    }

    function View(): Host
      reads this
    {
      Host(dirs, overlays, layers, cgroups, running, zombies, sandboxes.Keys)
    }

    /** `faults` decides how each fallible operation ends, `undo` how the teardowns do. */
    method PlaceSandbox(id: string, entry: Entry, faults: Stage -> Fault, undo: Undo) returns (placed: bool)
      modifies this
      ensures (View(), placed) == PlaceFrom(old(View()), id, LowerDir, faults, undo)
      ensures sandboxes == if placed then old(sandboxes)[id := entry] else old(sandboxes)
    {
      if !faults(LowerDir).Succeeds? {
        return false;
      }
      SetUpOverlay(id, faults(OverlaySetup));
      if !faults(OverlaySetup).Succeeds? {
        return false;
      }
      if !faults(CgroupSetup).Fails? {
        cgroups := cgroups + {id};
      }
      if !faults(CgroupSetup).Succeeds? {
        TearDownOverlay(id, undo.overlay);
        return false;
      }
      placed := PrepareFiles(id, entry, faults, undo);
    }

    /** Directory, root file system and log file of the sandbox. */
    method PrepareFiles(id: string, entry: Entry, faults: Stage -> Fault, undo: Undo) returns (placed: bool)
      modifies this
      ensures (View(), placed) == PlaceFrom(old(View()), id, MakeDir, faults, undo)
      ensures sandboxes == if placed then old(sandboxes)[id := entry] else old(sandboxes)
    {
      if !faults(MakeDir).Succeeds? || !faults(CopyRootfs).Succeeds? || !faults(CreateLog).Succeeds? {
        TearDown(id, undo);
        FailsInFiles(old(View()), id, faults, undo);
        return false;
      }
      PassesFiles(old(View()), id, faults, undo);
      placed := StartVM(id, entry, faults, undo);
    }

    /** From the start of the Firecracker process on. */
    method StartVM(id: string, entry: Entry, faults: Stage -> Fault, undo: Undo) returns (placed: bool)
      modifies this
      ensures (View(), placed) == PlaceFrom(old(View()), id, StartProcess, faults, undo)
      ensures sandboxes == if placed then old(sandboxes)[id := entry] else old(sandboxes)
    {
      if !faults(StartProcess).Succeeds? {
        TearDown(id, undo);
        return false;
      }
      running := running + {id};
      ghost var started := View();
      if !faults(WaitSocket).Succeeds? || !faults(MachineConfig).Succeeds? || !faults(BootSource).Succeeds?
         || !faults(PutDrive).Succeeds? || !faults(PutVsock).Succeeds? || !faults(AddPid).Succeeds?
         || !faults(Boot).Succeeds?
      {
        Signal(id);
        TearDown(id, undo);
        FailsToBoot(started, id, faults, undo);
        return false;
      }
      Boots(started, id, faults, undo);
      sandboxes := sandboxes[id := entry];
      assert View() == Listed(started, id);
      return true;
    }

    method SetUpOverlay(id: string, fault: Fault)
      modifies this`dirs, this`overlays, this`layers
      ensures View() == Attempted(old(View()), id, OverlaySetup, fault)
    {
      if fault.Fails? {
        return;
      }
      dirs := dirs + {id};
      if fault.Succeeds? {
        overlays := overlays + {id};
        layers := layers + {id};
      }
    }

    /** Unmounts, then wipes the upper layer. */
    method TearDownOverlay(id: string, fault: Fault)
      modifies this`overlays, this`layers
      ensures View() == OverlayReleased(old(View()), id, fault)
    {
      if fault.Fails? {
        return;
      }
      overlays := overlays - {id};
      if fault.Succeeds? {
        layers := layers - {id};
      }
    }

    method TearDown(id: string, undo: Undo)
      modifies this`overlays, this`layers, this`cgroups
      ensures View() == CgroupReleased(OverlayReleased(old(View()), id, undo.overlay), id, undo.cgroup)
    {
      TearDownOverlay(id, undo.overlay);
      if undo.cgroup {
        cgroups := cgroups - {id};
      }
    }

    method Signal(id: string)
      modifies this`running, this`zombies
      ensures View() == Exited(old(View()), id)
    {
      if id in running {
        running, zombies := running - {id}, zombies + {id};
      }
    }

    method TerminateSandbox(id: string) returns (found: bool)
      modifies this`sandboxes, this`running, this`zombies
      ensures (View(), found) == Terminate(old(View()), id)
      ensures sandboxes == old(sandboxes) - {id}
    {
      if id !in sandboxes {
        return false;
      }
      sandboxes := sandboxes - {id};
      Signal(id);
      return true;
    }

    /** Runs once the process has exited; the table entry may already be gone. */
    method WatchVM(id: string, undo: Undo)
      modifies this
      ensures View() == Watch(old(View()), id, undo)
      ensures sandboxes == old(sandboxes) - {id}
    {
      zombies := zombies - {id};
      sandboxes := sandboxes - {id};
      if undo.cgroup {
        cgroups := cgroups - {id};
      }
      TearDownOverlay(id, undo.overlay);
    }
  }

  lemma FailsInFiles(h: Host, id: string, faults: Stage -> Fault, undo: Undo)
    requires !faults(MakeDir).Succeeds? || !faults(CopyRootfs).Succeeds? || !faults(CreateLog).Succeeds?
    ensures PlaceFrom(h, id, MakeDir, faults, undo)
         == (CgroupReleased(OverlayReleased(h, id, undo.overlay), id, undo.cgroup), false)
  {
    if faults(MakeDir).Succeeds? {
      assert PlaceFrom(h, id, MakeDir, faults, undo) == PlaceFrom(h, id, CopyRootfs, faults, undo);
      if faults(CopyRootfs).Succeeds? {
        assert PlaceFrom(h, id, CopyRootfs, faults, undo) == PlaceFrom(h, id, CreateLog, faults, undo);
      }
    }
  }

  lemma PassesFiles(h: Host, id: string, faults: Stage -> Fault, undo: Undo)
    requires faults(MakeDir).Succeeds? && faults(CopyRootfs).Succeeds? && faults(CreateLog).Succeeds?
    ensures PlaceFrom(h, id, MakeDir, faults, undo) == PlaceFrom(h, id, StartProcess, faults, undo)
  {
    assert PlaceFrom(h, id, MakeDir, faults, undo) == PlaceFrom(h, id, CopyRootfs, faults, undo);
    assert PlaceFrom(h, id, CopyRootfs, faults, undo) == PlaceFrom(h, id, CreateLog, faults, undo);
  }

  /** Every stage after the start of the process acquires nothing, and undoes the same things. */
  lemma {:induction false} ConfigurationStep(h: Host, id: string, stage: Stage, faults: Stage -> Fault, undo: Undo)
    requires Rank(stage) > Rank(StartProcess)
    ensures PlaceFrom(h, id, stage, faults, undo) ==
            if faults(FirstFailure(stage, faults)).Succeeds? then (Listed(h, id), true)
            else (CgroupReleased(OverlayReleased(Exited(h, id), id, undo.overlay), id, undo.cgroup), false)
    decreases Rank(Boot) - Rank(stage)
  {
    if faults(stage).Succeeds? && stage != Boot {
      ConfigurationStep(h, id, Next(stage), faults, undo);
    }
  }

  lemma FailsToBoot(h: Host, id: string, faults: Stage -> Fault, undo: Undo)
    requires !faults(WaitSocket).Succeeds? || !faults(MachineConfig).Succeeds? || !faults(BootSource).Succeeds?
             || !faults(PutDrive).Succeeds? || !faults(PutVsock).Succeeds? || !faults(AddPid).Succeeds?
             || !faults(Boot).Succeeds?
    ensures PlaceFrom(h, id, WaitSocket, faults, undo)
         == (CgroupReleased(OverlayReleased(Exited(h, id), id, undo.overlay), id, undo.cgroup), false)
  {
    ConfigurationStep(h, id, WaitSocket, faults, undo);
    FirstFailureOfMany(faults);
  }

  lemma Boots(h: Host, id: string, faults: Stage -> Fault, undo: Undo)
    requires faults(WaitSocket).Succeeds? && faults(MachineConfig).Succeeds? && faults(BootSource).Succeeds?
             && faults(PutDrive).Succeeds? && faults(PutVsock).Succeeds? && faults(AddPid).Succeeds?
             && faults(Boot).Succeeds?
    ensures PlaceFrom(h, id, WaitSocket, faults, undo) == (Listed(h, id), true)
  {
    ConfigurationStep(h, id, WaitSocket, faults, undo);
    FirstFailureOfMany(faults);
  }

  lemma FirstFailureOfMany(faults: Stage -> Fault)
    ensures faults(FirstFailure(WaitSocket, faults)).Succeeds? <==>
            faults(WaitSocket).Succeeds? && faults(MachineConfig).Succeeds? && faults(BootSource).Succeeds?
            && faults(PutDrive).Succeeds? && faults(PutVsock).Succeeds? && faults(AddPid).Succeeds?
            && faults(Boot).Succeeds?
  {
    FirstFailurePasses(WaitSocket, faults);
    FirstFailurePasses(MachineConfig, faults);
    FirstFailurePasses(BootSource, faults);
    FirstFailurePasses(PutDrive, faults);
    FirstFailurePasses(PutVsock, faults);
    FirstFailurePasses(AddPid, faults);
  }

  lemma FirstFailurePasses(stage: Stage, faults: Stage -> Fault)
    requires stage != Boot
    ensures FirstFailure(stage, faults) == if faults(stage).Succeeds? then FirstFailure(Next(stage), faults) else stage
  {
  }

  /**
   A placement of a new ID and, if it succeeded, its termination and its watch, run in turn: in the end
   the sandbox runs nothing and is not listed, and it holds exactly what the teardowns left behind.
   */
  method PlaceThenKill(agent: Agent, id: string, entry: Entry, faults: Stage -> Fault, undo: Undo, retire: Undo)
    returns (placed: bool)
    requires HoldsAt(agent.View(), id, LowerDir)
    modifies agent
    ensures placed <==> faults(FirstFailure(LowerDir, faults)).Succeeds?
    ensures id !in agent.running && id !in agent.sandboxes
    ensures placed ==>
              && id !in agent.zombies
              && (id in agent.overlays <==> retire.overlay.Fails?)
              && (id in agent.layers <==> !retire.overlay.Succeeds?)
              && (id in agent.cgroups <==> !retire.cgroup)
    ensures forall x :: x != id ==> SameFor(old(agent.View()), agent.View(), x)
  {
    ghost var before := agent.View();
    PlacementEffect(before, id, LowerDir, faults, undo);
    placed := agent.PlaceSandbox(id, entry, faults, undo);
    ghost var after := agent.View();
    if placed {
      var found := agent.TerminateSandbox(id);
      agent.WatchVM(id, retire);
    }
    forall x | x != id ensures SameFor(before, agent.View(), x) {
      PlacementIsLocal(before, id, LowerDir, faults, undo, x);
      RetirementIsLocal(after, id, retire, x);
    }
  }

  // ---------- Interleaved calls ----------

  /**
   Where the one placement of a sandbox ID stands. The flags of Undoing and Retiring say what is still
   to be released; `started` says whether a process was started.
   */
  datatype Phase =
    | Placing(stage: Stage)
    | Publishing
    | Undoing(kill: bool, overlay: bool, cgroup: bool, started: bool)
    | FailedPlacement(started: bool)
    | Published
    | Watching
    | Retiring(entry: bool, group: bool, mount: bool)
    | Retired

  /** TerminateSandbox: the table access, then the cancellation. */
  datatype Kill =
    | LookUp(id: string)
    | Cancel(id: string)
    | KillDone(id: string, found: bool)

  /**
   History. stuckOverlays: the unmount failed; unwiped: the upper layer was not wiped; stuckCgroups: the
   cgroup teardown failed, or the setup failed halfway; overlayTeardowns, cgroupTeardowns, reaped: how
   often each was done for a sandbox.
   */
  datatype History = History(
    stuckOverlays: set<string>,
    unwiped: set<string>,
    stuckCgroups: set<string>,
    overlayTeardowns: multiset<string>,
    cgroupTeardowns: multiset<string>,
    reaped: multiset<string>)

  datatype Sys = Sys(host: Host, phases: map<string, Phase>, kills: map<nat, Kill>, hist: History)

  ghost predicate Init(s: Sys) {
    && s.host == Host({}, {}, {}, {}, {}, {}, {}) && s.phases == map[] && s.kills == map[]
    && s.hist == History({}, {}, {}, multiset{}, multiset{}, multiset{})
  }

  datatype Step =
    | BeginPlace(id: string)
    | Attempt(id: string, fault: Fault)
    | Publish(id: string)
    | KillProcess(id: string)
    | UndoOverlay(id: string, fault: Fault)
    | UndoCgroup(id: string, ok: bool)
    | GiveUp(id: string)
    | StartWatch(id: string)
    | Reap(id: string)
    | DropEntry(id: string)
    | RetireCgroup(id: string, ok: bool)
    | RetireOverlay(id: string, fault: Fault)
    | ProcessExits(id: string)
    | BeginKill(id: string, n: nat)
    | KillLookUp(id: string, n: nat)
    | KillCancel(id: string, n: nat)

  function PhaseOf(s: Sys, id: string): Phase {
    if id in s.phases then s.phases[id] else Retired
  }

  predicate Enabled(s: Sys, step: Step) {
    var ph := PhaseOf(s, step.id);
    match step
    case BeginPlace(id) => id !in s.phases
    case Attempt(_, _) => ph.Placing?
    case Publish(_) => ph.Publishing?
    case KillProcess(_) => ph.Undoing? && ph.kill
    case UndoOverlay(_, _) => ph.Undoing? && !ph.kill && ph.overlay
    case UndoCgroup(_, _) => ph.Undoing? && !ph.kill && !ph.overlay && ph.cgroup
    case GiveUp(_) => ph.Undoing? && !ph.kill && !ph.overlay && !ph.cgroup
    case StartWatch(_) => ph.Published?
    case Reap(id) => ph.Watching? && id in s.host.zombies
    case DropEntry(_) => ph.Retiring? && ph.entry
    case RetireCgroup(_, _) => ph.Retiring? && !ph.entry && ph.group
    case RetireOverlay(_, _) => ph.Retiring? && !ph.entry && !ph.group && ph.mount
    case ProcessExits(id) => id in s.host.running
    case BeginKill(_, n) => n !in s.kills
    case KillLookUp(id, n) => n in s.kills && s.kills[n] == LookUp(id)
    case KillCancel(id, n) => n in s.kills && s.kills[n] == Cancel(id)
  }

  /** What the error return of each stage has to undo. */
  function Compensation(stage: Stage): Phase {
    var started := Rank(stage) > Rank(StartProcess);
    Undoing(started, Rank(stage) > Rank(OverlaySetup), Rank(stage) > Rank(CgroupSetup), started)
  }

  function Enter(s: Sys, id: string, phase: Phase, host: Host): Sys {
    s.(phases := s.phases[id := phase], host := host)
  }

  function NoteOverlay(hist: History, id: string, fault: Fault): History {
    hist.(overlayTeardowns := hist.overlayTeardowns + multiset{id},
          stuckOverlays := if fault.Fails? then hist.stuckOverlays + {id} else hist.stuckOverlays,
          unwiped := if fault.Succeeds? then hist.unwiped else hist.unwiped + {id})
  }

  function NoteCgroup(hist: History, id: string, ok: bool): History {
    hist.(cgroupTeardowns := hist.cgroupTeardowns + multiset{id},
          stuckCgroups := if ok then hist.stuckCgroups else hist.stuckCgroups + {id})
  }

  function NoteAttempt(hist: History, id: string, stage: Stage, fault: Fault): History {
    if stage == CgroupSetup && fault.FailsHalfway? then hist.(stuckCgroups := hist.stuckCgroups + {id}) else hist
  }

  function Do(s: Sys, step: Step): Sys
    requires Enabled(s, step)
  {
    var id, ph, h := step.id, PhaseOf(s, step.id), s.host;
    match step
    case BeginPlace(_) => Enter(s, id, Placing(LowerDir), h)
    case Attempt(_, fault) =>
      var next := if !fault.Succeeds? then Compensation(ph.stage)
                  else if ph.stage == Boot then Publishing else Placing(Next(ph.stage));
      Enter(s, id, next, Attempted(h, id, ph.stage, fault)).(hist := NoteAttempt(s.hist, id, ph.stage, fault))
    case Publish(_) => Enter(s, id, Published, Listed(h, id))
    case KillProcess(_) => Enter(s, id, ph.(kill := false), Exited(h, id))
    case UndoOverlay(_, fault) =>
      Enter(s, id, ph.(overlay := false), OverlayReleased(h, id, fault)).(hist := NoteOverlay(s.hist, id, fault))
    case UndoCgroup(_, ok) =>
      Enter(s, id, ph.(cgroup := false), CgroupReleased(h, id, ok)).(hist := NoteCgroup(s.hist, id, ok))
    case GiveUp(_) => Enter(s, id, FailedPlacement(ph.started), h)
    case StartWatch(_) => Enter(s, id, Watching, h)
    case Reap(_) =>
      Enter(s, id, Retiring(true, true, true), Reaped(h, id))
      .(hist := s.hist.(reaped := s.hist.reaped + multiset{id}))
    case DropEntry(_) => Enter(s, id, ph.(entry := false), Unlisted(h, id))
    case RetireCgroup(_, ok) =>
      Enter(s, id, ph.(group := false), CgroupReleased(h, id, ok)).(hist := NoteCgroup(s.hist, id, ok))
    case RetireOverlay(_, fault) =>
      Enter(s, id, Retired, OverlayReleased(h, id, fault)).(hist := NoteOverlay(s.hist, id, fault))
    case ProcessExits(_) => s.(host := Exited(h, id))
    case BeginKill(_, n) => s.(kills := s.kills[n := LookUp(id)])
    case KillLookUp(_, n) =>
      if id in h.table then s.(host := Unlisted(h, id), kills := s.kills[n := Cancel(id)])
      else s.(kills := s.kills[n := KillDone(id, false)])
    case KillCancel(_, n) => s.(host := Exited(h, id), kills := s.kills[n := KillDone(id, true)])
  }

  ghost predicate Runs(s: Sys, steps: seq<Step>, end: Sys)
    decreases |steps|
  {
    if steps == [] then end == s
    else Enabled(s, steps[0]) && Runs(Do(s, steps[0]), steps[1..], end)
  }

  ghost predicate Reachable(s: Sys) {
    exists init, steps :: Init(init) && Runs(init, steps, s)
  }

  // ---------- Who holds what ----------

  predicate HoldsOverlay(ph: Phase) {
    match ph
    case Placing(stage) => Rank(stage) > Rank(OverlaySetup)
    case Undoing(_, overlay, _, _) => overlay
    case Retiring(_, _, mount) => mount
    case _ => ph.Publishing? || ph.Published? || ph.Watching?
  }

  predicate HoldsCgroup(ph: Phase) {
    match ph
    case Placing(stage) => Rank(stage) > Rank(CgroupSetup)
    case Undoing(_, _, cgroup, _) => cgroup
    case Retiring(_, group, _) => group
    case _ => ph.Publishing? || ph.Published? || ph.Watching?
  }

  /** The placement may have a live process. */
  predicate MayRun(ph: Phase) {
    match ph
    case Placing(stage) => Rank(stage) > Rank(StartProcess)
    case Undoing(kill, _, _, _) => kill
    case _ => ph.Publishing? || ph.Published? || ph.Watching?
  }

  /** A process was started for the placement and nobody has waited for it. */
  predicate Unreaped(ph: Phase) {
    match ph
    case Placing(stage) => Rank(stage) > Rank(StartProcess)
    case Undoing(_, _, _, started) => started
    case FailedPlacement(started) => started
    case _ => ph.Publishing? || ph.Published? || ph.Watching?
  }

  predicate MayBeListed(ph: Phase) {
    ph.Published? || ph.Watching? || (ph.Retiring? && ph.entry)
  }

  /** How often the teardown of a resource has been called for a placement that holds it or not. */
  predicate TornDown(ph: Phase, holds: bool, times: nat) {
    match ph
    case Undoing(_, _, _, _) => times <= if holds then 0 else 1
    case FailedPlacement(_) => times <= 1
    case Retiring(_, _, _) => times == if holds then 0 else 1
    case Retired => times == 1
    case _ => times == 0
  }

  ghost predicate Consistent(s: Sys, id: string) {
    var ph, h := PhaseOf(s, id), s.host;
    var here := id in s.phases;
    && (id in h.overlays <==> (here && HoldsOverlay(ph)) || id in s.hist.stuckOverlays)
    && (id in h.layers <==> (here && HoldsOverlay(ph)) || id in s.hist.unwiped)
    && (id in h.cgroups <==> (here && HoldsCgroup(ph)) || id in s.hist.stuckCgroups)
    && (id in s.hist.stuckOverlays ==> id in s.hist.unwiped)
    && (id in s.hist.unwiped ==> here && !HoldsOverlay(ph) && !ph.Placing?)
    && (id in s.hist.stuckCgroups ==> here && !HoldsCgroup(ph) && !ph.Placing?)
    && (id in h.layers ==> id in h.dirs) && (id in h.dirs ==> here)
    && (id in h.running || id in h.zombies <==> here && Unreaped(ph))
    && (id in h.running ==> MayRun(ph) && id !in h.zombies)
    && (id in h.table ==> here && MayBeListed(ph))
    && (if here then TornDown(ph, HoldsOverlay(ph), s.hist.overlayTeardowns[id]) else s.hist.overlayTeardowns[id] == 0)
    && (if here then TornDown(ph, HoldsCgroup(ph), s.hist.cgroupTeardowns[id]) else s.hist.cgroupTeardowns[id] == 0)
    && s.hist.reaped[id] == (if here && (ph.Retiring? || ph.Retired?) then 1 else 0)
    && (ph.Undoing? && ph.kill ==> ph.started && ph.overlay && ph.cgroup)
    && (ph.Retiring? && (ph.entry || ph.group) ==> ph.mount)
    && (ph.Retiring? && ph.entry ==> ph.group)
  }

  /** A step about another sandbox changes nothing here. */
  lemma ForeignStep(s: Sys, step: Step, id: string)
    requires Enabled(s, step) && step.id != id
    ensures
      var s' := Do(s, step);
      && (id in s'.phases <==> id in s.phases) && PhaseOf(s', id) == PhaseOf(s, id)
      && SameFor(s.host, s'.host, id) && SameHistory(s.hist, s'.hist, id)
  {
    ForeignOnHost(s, step, id);
    ForeignInHistory(s, step, id);
  }

  lemma ForeignOnHost(s: Sys, step: Step, id: string)
    requires Enabled(s, step) && step.id != id
    ensures SameFor(s.host, Do(s, step).host, id)
  {
  }

  lemma ForeignInHistory(s: Sys, step: Step, id: string)
    requires Enabled(s, step) && step.id != id
    ensures SameHistory(s.hist, Do(s, step).hist, id)
  {
  }

  ghost predicate SameHistory(a: History, b: History, id: string) {
    && (id in b.stuckOverlays <==> id in a.stuckOverlays) && (id in b.unwiped <==> id in a.unwiped)
    && (id in b.stuckCgroups <==> id in a.stuckCgroups)
    && b.overlayTeardowns[id] == a.overlayTeardowns[id] && b.cgroupTeardowns[id] == a.cgroupTeardowns[id]
    && b.reaped[id] == a.reaped[id]
  }

  lemma PlacingStep(s: Sys, step: Step)
    requires Consistent(s, step.id) && Enabled(s, step)
    requires step.BeginPlace? || step.Attempt? || step.Publish?
    ensures Consistent(Do(s, step), step.id)
  {
  }

  lemma UndoingStep(s: Sys, step: Step)
    requires Consistent(s, step.id) && Enabled(s, step)
    requires step.KillProcess? || step.UndoOverlay? || step.UndoCgroup? || step.GiveUp?
    ensures Consistent(Do(s, step), step.id)
  {
  }

  lemma RetiringStep(s: Sys, step: Step)
    requires Consistent(s, step.id) && Enabled(s, step)
    requires step.StartWatch? || step.Reap? || step.DropEntry? || step.RetireCgroup? || step.RetireOverlay?
    ensures Consistent(Do(s, step), step.id)
  {
  }

  lemma KillingStep(s: Sys, step: Step)
    requires Consistent(s, step.id) && Enabled(s, step)
    requires step.ProcessExits? || step.BeginKill? || step.KillLookUp? || step.KillCancel?
    ensures Consistent(Do(s, step), step.id)
  {
  }

  lemma ConsistentStep(s: Sys, step: Step, id: string)
    requires Consistent(s, id) && Enabled(s, step)
    ensures Consistent(Do(s, step), id)
  {
    if step.id != id {
      ForeignStep(s, step, id);
    } else {
      match step
      case BeginPlace(_) => PlacingStep(s, step);
      case Attempt(_, _) => PlacingStep(s, step);
      case Publish(_) => PlacingStep(s, step);
      case KillProcess(_) => UndoingStep(s, step);
      case UndoOverlay(_, _) => UndoingStep(s, step);
      case UndoCgroup(_, _) => UndoingStep(s, step);
      case GiveUp(_) => UndoingStep(s, step);
      case StartWatch(_) => RetiringStep(s, step);
      case Reap(_) => RetiringStep(s, step);
      case DropEntry(_) => RetiringStep(s, step);
      case RetireCgroup(_, _) => RetiringStep(s, step);
      case RetireOverlay(_, _) => RetiringStep(s, step);
      case _ => KillingStep(s, step);
    }
  }

  lemma {:induction false} ConsistentRun(s: Sys, steps: seq<Step>, end: Sys, id: string)
    requires Consistent(s, id) && Runs(s, steps, end)
    ensures Consistent(end, id)
    decreases |steps|
  {
    if steps != [] {
      ConsistentStep(s, steps[0], id);
      ConsistentRun(Do(s, steps[0]), steps[1..], end, id);
    }
  }

  lemma AlwaysConsistent(s: Sys, id: string)
    requires Reachable(s)
    ensures Consistent(s, id)
  {
    var init, steps :| Init(init) && Runs(init, steps, s);
    ConsistentRun(init, steps, s, id);
  }

  // ---------- Who is listed ----------

  /** A kill has found the sandbox in the table, and taken it out. */
  predicate FoundIt(k: Kill, id: string) {
    k == Cancel(id) || k == KillDone(id, true)
  }

  ghost predicate Found(s: Sys, id: string) {
    exists n :: n in s.kills && FoundIt(s.kills[n], id)
  }

  /** PlaceSandbox has returned success for the sandbox. */
  predicate Succeeded(s: Sys, id: string) {
    id in s.phases &&
    (s.phases[id].Published? || s.phases[id].Watching? || s.phases[id].Retiring? || s.phases[id].Retired?)
  }

  ghost predicate ListingFact(s: Sys, id: string) {
    && (id in s.host.table <==> id in s.phases && MayBeListed(s.phases[id]) && !Found(s, id))
    && (Found(s, id) ==> Succeeded(s, id))
  }

  lemma FoundStays(s: Sys, step: Step, id: string)
    requires Enabled(s, step)
    ensures Found(s, id) ==> Found(Do(s, step), id)
    ensures Found(Do(s, step), id) ==> Found(s, id) || (step.KillLookUp? && step.id == id && id in s.host.table)
  {
    var s' := Do(s, step);
    if n :| n in s.kills && FoundIt(s.kills[n], id) {
      assert n in s'.kills && FoundIt(s'.kills[n], id);
    }
    if n :| n in s'.kills && FoundIt(s'.kills[n], id) {
      assert (n in s.kills && FoundIt(s.kills[n], id)) || (step.KillLookUp? && step.id == id && id in s.host.table);
    }
  }

  lemma SuccessStays(s: Sys, step: Step, id: string)
    requires Enabled(s, step) && Succeeded(s, id)
    ensures Succeeded(Do(s, step), id)
  {
  }

  lemma LookUpFinds(s: Sys, step: Step)
    requires Enabled(s, step) && step.KillLookUp? && step.id in s.host.table
    ensures Found(Do(s, step), step.id)
  {
    assert FoundIt(Do(s, step).kills[step.n], step.id);
  }

  lemma ListingStep(s: Sys, step: Step, id: string)
    requires ListingFact(s, id) && Enabled(s, step)
    ensures ListingFact(Do(s, step), id)
  {
    FoundStays(s, step, id);
    if Succeeded(s, id) {
      SuccessStays(s, step, id);
    }
    if step.id != id {
      ForeignStep(s, step, id);
    } else if step.KillLookUp? && id in s.host.table {
      LookUpFinds(s, step);
    }
  }

  lemma {:induction false} ListingRun(s: Sys, steps: seq<Step>, end: Sys, id: string)
    requires ListingFact(s, id) && Runs(s, steps, end)
    ensures ListingFact(end, id)
    decreases |steps|
  {
    if steps != [] {
      ListingStep(s, steps[0], id);
      ListingRun(Do(s, steps[0]), steps[1..], end, id);
    }
  }

  // ---------- Main results ----------

  /**
   In every reachable state a sandbox has a mount exactly while its placement is past mounting and its
   VM is not yet retired, or if its unmount failed; an upper layer that may hold files likewise, or if
   it was not wiped; a cgroup likewise, or if its setup failed halfway or its teardown failed. A process
   runs only for such a placement, and exited processes wait exactly while nobody has waited for them.
   */
  lemma ResourcesAreAccountedFor(s: Sys, id: string)
    requires Reachable(s)
    ensures
      var placed := id in s.phases;
      && (id in s.host.overlays <==> (placed && HoldsOverlay(s.phases[id])) || id in s.hist.stuckOverlays)
      && (id in s.host.layers <==> (placed && HoldsOverlay(s.phases[id])) || id in s.hist.unwiped)
      && (id in s.host.cgroups <==> (placed && HoldsCgroup(s.phases[id])) || id in s.hist.stuckCgroups)
      && (id in s.host.running ==> placed && MayRun(s.phases[id]))
      && (id in s.host.running || id in s.host.zombies <==> placed && Unreaped(s.phases[id]))
  {
    AlwaysConsistent(s, id);
  }

  /**
   A failed placement is not in the table and has no running process. It still has its mount exactly
   when the unmount failed, its upper layer exactly when that was not wiped, its cgroup exactly when the
   setup failed halfway or the teardown failed, and it leaves its process unreaped exactly when it had
   started one.
   */
  lemma FailedPlacementHoldsNothing(s: Sys, id: string)
    requires Reachable(s) && id in s.phases && s.phases[id].FailedPlacement?
    ensures id !in s.host.table && id !in s.host.running
    ensures id in s.host.overlays <==> id in s.hist.stuckOverlays
    ensures id in s.host.layers <==> id in s.hist.unwiped
    ensures id in s.host.cgroups <==> id in s.hist.stuckCgroups
    ensures id in s.host.zombies <==> s.phases[id].started
  {
    AlwaysConsistent(s, id);
  }

  /**
   A sandbox is listed exactly when its placement has succeeded, no kill has found it, and watchVM has
   not come to its table access.
   */
  lemma ListedExactly(s: Sys, id: string)
    requires Reachable(s)
    ensures id in s.host.table <==> id in s.phases && MayBeListed(s.phases[id]) && !Found(s, id)
    ensures Found(s, id) ==> Succeeded(s, id)
  {
    var init, steps :| Init(init) && Runs(init, steps, s);
    ListingRun(init, steps, s, id);
  }

  /** Whoever finds a sandbox in the table finds its mount and its cgroup in place. */
  lemma TableEntryHasResources(s: Sys, id: string)
    requires Reachable(s) && id in s.host.table
    ensures id in s.host.overlays && id in s.host.cgroups
    ensures id in s.host.running || id in s.host.zombies || (id in s.phases && s.phases[id].Retiring?)
  {
    AlwaysConsistent(s, id);
  }

  /**
   However TerminateSandbox and watchVM race, a successful placement is reaped once and each of its
   resources torn down once, by the time it is retired and not before its process has exited.
   */
  lemma RetiredExactlyOnce(s: Sys, id: string)
    requires Reachable(s) && id in s.phases
    ensures s.hist.overlayTeardowns[id] <= 1 && s.hist.cgroupTeardowns[id] <= 1 && s.hist.reaped[id] <= 1
    ensures s.phases[id].Published? || s.phases[id].Watching? ==>
              s.hist.overlayTeardowns[id] == 0 && s.hist.cgroupTeardowns[id] == 0 && s.hist.reaped[id] == 0
    ensures s.phases[id].Retired? ==>
              && s.hist.overlayTeardowns[id] == 1 && s.hist.cgroupTeardowns[id] == 1 && s.hist.reaped[id] == 1
              && id !in s.host.table && id !in s.host.running && id !in s.host.zombies
              && (id in s.host.overlays <==> id in s.hist.stuckOverlays)
              && (id in s.host.layers <==> id in s.hist.unwiped)
              && (id in s.host.cgroups <==> id in s.hist.stuckCgroups)
  {
    AlwaysConsistent(s, id);
  }

  /** Nothing removes a sandbox's directory: once made, it is there in every later state. */
  lemma {:induction false} DirectoriesAreNeverRemoved(s: Sys, steps: seq<Step>, end: Sys)
    requires Runs(s, steps, end)
    ensures s.host.dirs <= end.host.dirs
    decreases |steps|
  {
    if steps != [] {
      DirectoriesAreNeverRemoved(Do(s, steps[0]), steps[1..], end);
    }
  }

  /** A placement that failed after starting its process leaves it unreaped in every later state. */
  lemma {:induction false} FailedStartIsNeverReaped(s: Sys, steps: seq<Step>, end: Sys, id: string)
    requires Reachable(s) && Runs(s, steps, end)
    requires id in s.phases && s.phases[id] == FailedPlacement(true)
    ensures id in end.phases && end.phases[id] == FailedPlacement(true) && id in end.host.zombies
    decreases |steps|
  {
    AlwaysConsistent(s, id);
    if steps != [] {
      FailedStays(s, steps[0], id);
      ReachableStep(s, steps[0]);
      FailedStartIsNeverReaped(Do(s, steps[0]), steps[1..], end, id);
    }
  }

  lemma FailedStays(s: Sys, step: Step, id: string)
    requires Enabled(s, step) && id in s.phases && s.phases[id].FailedPlacement?
    ensures id in Do(s, step).phases && Do(s, step).phases[id] == s.phases[id]
  {
  }

  lemma {:induction false} RunsBoth(s: Sys, first: seq<Step>, mid: Sys, second: seq<Step>, end: Sys)
    requires Runs(s, first, mid) && Runs(mid, second, end)
    ensures Runs(s, first + second, end)
    decreases |first|
  {
    if first == [] {
      assert first + second == second;
    } else {
      RunsBoth(Do(s, first[0]), first[1..], mid, second, end);
      assert (first + second)[1..] == first[1..] + second;
    }
  }

  lemma OneStep(s: Sys, step: Step)
    requires Enabled(s, step)
    ensures Runs(s, [step], Do(s, step))
  {
    assert [step][1..] == [];
  }

  lemma StepFirst(s: Sys, step: Step, rest: seq<Step>, end: Sys)
    requires Enabled(s, step) && Runs(Do(s, step), rest, end)
    ensures Runs(s, [step] + rest, end)
  {
    assert ([step] + rest)[1..] == rest;
  }

  lemma ReachableStep(s: Sys, step: Step)
    requires Reachable(s) && Enabled(s, step)
    ensures Reachable(Do(s, step))
  {
    var init, steps :| Init(init) && Runs(init, steps, s);
    OneStep(s, step);
    RunsBoth(init, steps, s, [step], Do(s, step));
  }

  // ---------- Calls run alone are runs of the system ----------

  /** Steps that no request from outside begins. */
  predicate Internal(steps: seq<Step>) {
    forall i :: 0 <= i < |steps| ==> !steps[i].BeginPlace? && !steps[i].BeginKill?
  }

  lemma CompensationIsRun(s: Sys, id: string, stage: Stage, undo: Undo) returns (steps: seq<Step>, end: Sys)
    requires id in s.phases && s.phases[id] == Compensation(stage)
    ensures Internal(steps)
    ensures Runs(s, steps, end) && end.host == Compensated(s.host, id, stage, undo)
    ensures end.phases == s.phases[id := FailedPlacement(Rank(stage) > Rank(StartProcess))] && end.kills == s.kills
  {
    var s1, steps1 := s, [];
    if Rank(stage) > Rank(StartProcess) {
      s1, steps1 := Do(s, KillProcess(id)), [KillProcess(id)];
      OneStep(s, KillProcess(id));
    }
    var rest;
    rest, end := ReleasesAreRun(s1, id, stage, undo);
    RunsBoth(s, steps1, s1, rest, end);
    steps := steps1 + rest;
  }

  lemma ReleasesAreRun(s: Sys, id: string, stage: Stage, undo: Undo) returns (steps: seq<Step>, end: Sys)
    requires id in s.phases
    requires
      s.phases[id] == Undoing(false, Rank(stage) > Rank(OverlaySetup), Rank(stage) > Rank(CgroupSetup),
                              Rank(stage) > Rank(StartProcess))
    ensures Internal(steps)
    ensures Runs(s, steps, end)
    ensures
      var h := if Rank(stage) > Rank(OverlaySetup) then OverlayReleased(s.host, id, undo.overlay) else s.host;
      end.host == if Rank(stage) > Rank(CgroupSetup) then CgroupReleased(h, id, undo.cgroup) else h
    ensures end.phases == s.phases[id := FailedPlacement(Rank(stage) > Rank(StartProcess))] && end.kills == s.kills
  {
    var s1, steps1 := s, [];
    if Rank(stage) > Rank(OverlaySetup) {
      s1, steps1 := Do(s, UndoOverlay(id, undo.overlay)), [UndoOverlay(id, undo.overlay)];
      OneStep(s, UndoOverlay(id, undo.overlay));
    }
    var rest;
    rest, end := EndOfCompensation(s1, id, stage, undo);
    RunsBoth(s, steps1, s1, rest, end);
    steps := steps1 + rest;
  }

  lemma EndOfCompensation(s: Sys, id: string, stage: Stage, undo: Undo) returns (steps: seq<Step>, end: Sys)
    requires id in s.phases
    requires s.phases[id] == Undoing(false, false, Rank(stage) > Rank(CgroupSetup), Rank(stage) > Rank(StartProcess))
    ensures Internal(steps)
    ensures Runs(s, steps, end)
    ensures end.host == if Rank(stage) > Rank(CgroupSetup) then CgroupReleased(s.host, id, undo.cgroup) else s.host
    ensures end.phases == s.phases[id := FailedPlacement(Rank(stage) > Rank(StartProcess))] && end.kills == s.kills
  {
    var s1, steps1 := s, [];
    if Rank(stage) > Rank(CgroupSetup) {
      s1, steps1 := Do(s, UndoCgroup(id, undo.cgroup)), [UndoCgroup(id, undo.cgroup)];
      OneStep(s, UndoCgroup(id, undo.cgroup));
    }
    end, steps := Do(s1, GiveUp(id)), steps1 + [GiveUp(id)];
    OneStep(s1, GiveUp(id));
    RunsBoth(s, steps1, s1, [GiveUp(id)], end);
  }

  /** The rest of a placement, stage by stage. */
  lemma {:induction false} PlaceFromIsRun(s: Sys, id: string, stage: Stage, faults: Stage -> Fault, undo: Undo)
    returns (steps: seq<Step>, end: Sys)
    requires id in s.phases && s.phases[id] == Placing(stage)
    ensures Internal(steps)
    ensures Runs(s, steps, end) && id in end.phases && end.kills == s.kills
    ensures (end.host, end.phases[id].Published?) == PlaceFrom(s.host, id, stage, faults, undo)
    ensures end.phases == s.phases[id := end.phases[id]]
    ensures end.phases[id].Published? || end.phases[id].FailedPlacement?
    decreases Rank(Boot) - Rank(stage)
  {
    var attempt := Attempt(id, faults(stage));
    var s1 := Do(s, attempt);
    var rest;
    if !faults(stage).Succeeds? {
      rest, end := CompensationIsRun(s1, id, stage, undo);
    } else if stage == Boot {
      rest, end := [Publish(id)], Do(s1, Publish(id));
      OneStep(s1, Publish(id));
    } else {
      rest, end := PlaceFromIsRun(s1, id, Next(stage), faults, undo);
    }
    StepFirst(s, attempt, rest, end);
    steps := [attempt] + rest;
  }

  /**
   PlaceSandbox run alone, with whatever faults, is a run of the system: it has the same effect on the
   host, and the same result.
   */
  lemma PlaceIsRun(s: Sys, id: string, faults: Stage -> Fault, undo: Undo) returns (steps: seq<Step>, end: Sys)
    requires id !in s.phases
    ensures Runs(s, steps, end) && id in end.phases && end.kills == s.kills
    ensures (end.host, end.phases[id].Published?) == PlaceFrom(s.host, id, LowerDir, faults, undo)
    ensures end.phases == s.phases[id := end.phases[id]]
    ensures end.phases[id].Published? || end.phases[id].FailedPlacement?
  {
    var rest;
    rest, end := PlaceFromIsRun(Do(s, BeginPlace(id)), id, LowerDir, faults, undo);
    StepFirst(s, BeginPlace(id), rest, end);
    steps := [BeginPlace(id)] + rest;
  }

  /** TerminateSandbox run alone is a run of the system. */
  lemma TerminateIsRun(s: Sys, id: string, n: nat) returns (steps: seq<Step>, end: Sys)
    requires n !in s.kills
    ensures Runs(s, steps, end) && end.phases == s.phases && end.hist == s.hist
    ensures end.kills == s.kills[n := KillDone(id, Terminate(s.host, id).1)] && end.host == Terminate(s.host, id).0
  {
    var s1 := Do(s, BeginKill(id, n));
    var s2 := Do(s1, KillLookUp(id, n));
    if id in s.host.table {
      end := Do(s2, KillCancel(id, n));
      OneStep(s2, KillCancel(id, n));
      StepFirst(s1, KillLookUp(id, n), [KillCancel(id, n)], end);
      StepFirst(s, BeginKill(id, n), [KillLookUp(id, n)] + [KillCancel(id, n)], end);
      steps := [BeginKill(id, n)] + ([KillLookUp(id, n)] + [KillCancel(id, n)]);
    } else {
      end := s2;
      OneStep(s1, KillLookUp(id, n));
      StepFirst(s, BeginKill(id, n), [KillLookUp(id, n)], end);
      steps := [BeginKill(id, n)] + [KillLookUp(id, n)];
    }
  }

  /** watchVM, from the exit of the process on, is a run of the system. */
  lemma WatchIsRun(s: Sys, id: string, undo: Undo) returns (steps: seq<Step>, end: Sys)
    requires id in s.phases && s.phases[id].Watching? && id in s.host.zombies
    ensures Runs(s, steps, end) && end.phases == s.phases[id := Retired] && end.kills == s.kills
    ensures end.host == Watch(s.host, id, undo)
  {
    var s1 := Do(s, Reap(id));
    var s2 := Do(s1, DropEntry(id));
    var s3 := Do(s2, RetireCgroup(id, undo.cgroup));
    end := Do(s3, RetireOverlay(id, undo.overlay));
    OneStep(s3, RetireOverlay(id, undo.overlay));
    steps := [RetireOverlay(id, undo.overlay)];
    StepFirst(s2, RetireCgroup(id, undo.cgroup), steps, end);
    steps := [RetireCgroup(id, undo.cgroup)] + steps;
    StepFirst(s1, DropEntry(id), steps, end);
    steps := [DropEntry(id)] + steps;
    StepFirst(s, Reap(id), steps, end);
    steps := [Reap(id)] + steps;
  }

  /** Whatever has happened, a successful placement can still be retired, leaving nothing but its directory. */
  lemma CanAlwaysBeRetired(s: Sys, id: string)
    requires Reachable(s) && id in s.phases && (s.phases[id].Published? || s.phases[id].Watching?)
    ensures exists steps, end :: Runs(s, steps, end) && id in end.phases && end.phases[id].Retired?
                                 && id !in end.host.overlays && id !in end.host.layers
                                 && id !in end.host.cgroups && id !in end.host.zombies
  {
    AlwaysConsistent(s, id);
    var s1, steps1 := s, [];
    if s.phases[id].Published? {
      s1, steps1 := Do(s, StartWatch(id)), [StartWatch(id)];
      OneStep(s, StartWatch(id));
    }
    var s2, steps2 := s1, steps1;
    if id in s1.host.running {
      s2, steps2 := Do(s1, ProcessExits(id)), steps1 + [ProcessExits(id)];
      OneStep(s1, ProcessExits(id));
      RunsBoth(s, steps1, s1, [ProcessExits(id)], s2);
    }
    var rest, end := WatchIsRun(s2, id, Undo(Succeeds, true));
    RunsBoth(s, steps2, s2, rest, end);
  }

  /** Placements do succeed: some reachable state has a published sandbox. */
  lemma SomePlacementSucceeds(id: string)
    ensures exists s :: Reachable(s) && id in s.phases && s.phases[id].Published? && id in s.host.table
  {
    var init := Sys(Host({}, {}, {}, {}, {}, {}, {}), map[], map[],
                    History({}, {}, {}, multiset{}, multiset{}, multiset{}));
    var faults := (stage: Stage) => Succeeds;
    var steps, end := PlaceIsRun(init, id, faults, Undo(Succeeds, true));
    PlacementEffect(init.host, id, LowerDir, faults, Undo(Succeeds, true));
    assert Reachable(end);
  }
}

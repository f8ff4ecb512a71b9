/**
 A delete that is refused can have ended the sandbox all the same: Terminate sends its request to the host
 before its transition is checked (cmd/api/handlers.go:303-319). From every reachable state with a
 placement about to be sent there is a run to a Running record with no VM behind it.
 */
module LostVm {
  import opened Results
  import opened SandboxState
  import opened Scheduling
  import opened Fleet
  import CP = ControlPlane
  import HA = HostAgent
  import PlacementSafety
  import Ownership
  import Progress
  import QuotaLimit
  import Tally

  // ---------- Extending runs ----------

  lemma OneStep(f: Fleet, step: Step)
    requires Enabled(f, step)
    ensures Runs(f, [step], Do(f, step))
  {
    assert [step][1..] == [];
  }

  lemma {:induction false} RunsThenStep(f: Fleet, steps: seq<Step>, mid: Fleet, step: Step)
    requires Runs(f, steps, mid) && Enabled(mid, step)
    ensures Runs(f, steps + [step], Do(mid, step))
    decreases |steps|
  {
    if steps == [] {
      OneStep(f, step);
      assert steps + [step] == [step];
    } else {
      RunsThenStep(Do(f, steps[0]), steps[1..], mid, step);
      StepFirst(f, steps[0], steps[1..] + [step], Do(mid, step));
      assert steps + [step] == [steps[0]] + (steps[1..] + [step]);
    }
  }

  lemma StepFirst(f: Fleet, step: Step, rest: seq<Step>, end: Fleet)
    requires Enabled(f, step) && Runs(Do(f, step), rest, end)
    ensures Runs(f, [step] + rest, end)
  {
    assert ([step] + rest)[1..] == rest;
  }

  lemma Onward(f: Fleet, step: Step, f': Fleet)
    requires Reachable(f) && Enabled(f, step) && Do(f, step) == f'
    ensures Reachable(f')
  {
    var init, steps :| Init(init) && Runs(init, steps, f);
    RunsThenStep(init, steps, f, step);
  }

  lemma AgentStep(f: Fleet, host: string, step: HA.Step) returns (f': Fleet)
    requires Reachable(f) && host in f.agents && HA.Enabled(f.agents[host], step)
    requires !step.BeginPlace? && !step.BeginKill?
    ensures Reachable(f') && f' == f.(agents := f.agents[host := HA.Do(f.agents[host], step)])
  {
    f' := Do(f, AtHost(host, step));
    Onward(f, AtHost(host, step), f');
  }

  /** A run of one agent that no request begins is a run of the fleet. */
  lemma {:induction false} AgentRuns(f: Fleet, host: string, steps: seq<HA.Step>, end: HA.Sys)
    requires Reachable(f) && host in f.agents && HA.Runs(f.agents[host], steps, end) && HA.Internal(steps)
    ensures Reachable(f.(agents := f.agents[host := end]))
    decreases |steps|
  {
    if steps == [] {
      assert f.agents[host := end] == f.agents;
    } else {
      var f' := AgentStep(f, host, steps[0]);
      AgentRuns(f', host, steps[1..], end);
      assert f'.agents[host := end] == f.agents[host := end];
    }
  }

  /** As long as nothing has been placed, every run of the control plane is one of a fleet. */
  lemma {:induction false} ControlRuns(f: Fleet, steps: seq<CP.Step>, end: CP.Sys) returns (f': Fleet)
    requires Reachable(f) && CP.Runs(f.cp, steps, end) && end.hist.placed == multiset{}
    ensures Reachable(f') && f'.cp == end
    decreases |steps|
  {
    f' := f;
    if steps != [] {
      PlacedGrows(CP.Do(f.cp, steps[0]), steps[1..], end);
      PlacedGrowsByStep(f.cp, steps[0]);
      NothingPlacedNothingWaits(f);
      f' := Do(f, Control(steps[0]));
      Onward(f, Control(steps[0]), f');
      f' := ControlRuns(f', steps[1..], end);
    }
  }

  lemma NothingPlacedNothingWaits(f: Fleet)
    requires Reachable(f) && f.cp.hist.placed == multiset{}
    ensures forall n :: n in f.cp.calls ==> !f.cp.calls[n].PlaceWait?
  {
    PartsAreReachable(f, "");
    PlacementSafety.AlwaysFacts(f.cp);
    forall n | n in f.cp.calls ensures !f.cp.calls[n].PlaceWait? {
      assert PlacementSafety.CallFact(f.cp, f.cp.calls[n]);
    }
  }

  lemma PlacedGrowsByStep(s: CP.Sys, c: CP.Step)
    requires CP.Enabled(s, c)
    ensures s.hist.placed <= CP.Do(s, c).hist.placed
  {
    match c
    case Post(n, p) => PostPlacesNothing(s, n, p);
    case Delete(n, d) => DeletePlacesNothing(s, n, d);
    case Dispatch(d) => DispatchPlacesNothing(s, d);
    case Placing(n, p) => PlacementPlaces(s, n, p);
    case Exec(n, e) =>
    case Env(e) =>
  }

  lemma PostPlacesNothing(s: CP.Sys, n: nat, step: CP.PostStep)
    requires CP.PostEnabled(s, n, step)
    ensures CP.DoPost(s, n, step).hist.placed == s.hist.placed
  {
  }

  lemma DeletePlacesNothing(s: CP.Sys, n: nat, step: CP.DeleteStep)
    requires CP.DeleteEnabled(s, n, step)
    ensures CP.DoDelete(s, n, step).hist.placed == s.hist.placed
  {
  }

  lemma PlacementPlaces(s: CP.Sys, n: nat, step: CP.PlacementStep)
    requires CP.PlacementEnabled(s, n, step)
    ensures s.hist.placed <= CP.DoPlacement(s, n, step).hist.placed
  {
  }

  lemma DispatchPlacesNothing(s: CP.Sys, step: CP.DispatchStep)
    requires CP.DispatchEnabled(s, step)
    ensures CP.DoDispatch(s, step).hist.placed == s.hist.placed
  {
  }

  lemma {:induction false} PlacedGrows(s: CP.Sys, steps: seq<CP.Step>, end: CP.Sys)
    requires CP.Runs(s, steps, end)
    ensures s.hist.placed <= end.hist.placed
    decreases |steps|
  {
    if steps != [] {
      PlacedGrowsByStep(s, steps[0]);
      PlacedGrows(CP.Do(s, steps[0]), steps[1..], end);
    }
  }

  // ---------- The three parts of the run ----------

  /** The request is sent and carried out, without a fault; the answer is still under way. */
  lemma PlacedUnanswered(f: Fleet, n: nat) returns (f': Fleet)
    requires Reachable(f) && n in f.cp.calls && f.cp.calls[n].Place?
    ensures
      var c := f.cp.calls[n];
      && Reachable(f') && f'.cp == CP.Do(f.cp, CP.Placing(n, CP.CallHost)) && c.host in f'.agents
      && c.item.id in f'.agents[c.host].host.table && HA.Succeeded(f'.agents[c.host], c.item.id)
  {
    var c := f.cp.calls[n];
    var id, host, m := c.item.id, c.host, Message(c.host, c.item.id);
    var f1 := f.(cp := CP.Do(f.cp, CP.Placing(n, CP.CallHost)), places := f.places + multiset{m});
    assert KillSent(f.cp, CP.Placing(n, CP.CallHost)) == multiset{};
    assert Do(f, Control(CP.Placing(n, CP.CallHost))).told == f.told;
    Onward(f, Control(CP.Placing(n, CP.CallHost)), f1);
    PlacementsArriveOnce(f1, host, id);
    var a1 := HA.Do(AgentOf(f1, host), HA.BeginPlace(id));
    var f2 := f1.(agents := f1.agents[host := a1], places := f1.places - multiset{m});
    Onward(f1, AtHost(host, HA.BeginPlace(id)), f2);
    var steps, a2 := PlacesWell(a1, id);
    AgentRuns(f2, host, steps, a2);
    f' := f2.(agents := f2.agents[host := a2]);
  }

  lemma PlacesWell(a: HA.Sys, id: string) returns (steps: seq<HA.Step>, end: HA.Sys)
    requires id in a.phases && a.phases[id] == HA.Placing(HA.LowerDir)
    ensures HA.Runs(a, steps, end) && HA.Internal(steps)
    ensures id in end.host.table && HA.Succeeded(end, id)
  {
    var faults := (stage: HA.Stage) => HA.Succeeds;
    steps, end := HA.PlaceFromIsRun(a, id, HA.LowerDir, faults, HA.Undo(HA.Succeeds, true));
    NoFaultLists(a.host, id, HA.LowerDir, HA.Undo(HA.Succeeds, true));
  }

  lemma {:induction false} NoFaultLists(h: HA.Host, id: string, stage: HA.Stage, undo: HA.Undo)
    ensures
      var (h', placed) := HA.PlaceFrom(h, id, stage, (s: HA.Stage) => HA.Succeeds, undo);
      placed && id in h'.table
    decreases HA.Rank(HA.Boot) - HA.Rank(stage)
  {
    if stage != HA.Boot {
      NoFaultLists(HA.Attempted(h, id, stage, HA.Succeeds), id, HA.Next(stage), undo);
    }
  }

  /** A delete of the sandbox reads Provisioning, and its request finds the VM. */
  lemma DeleteFindsVm(f: Fleet, m: nat, id: string) returns (f': Fleet)
    requires Reachable(f) && m !in f.cp.calls && id in f.cp.db && f.cp.db[id].state == Provisioning
    requires f.cp.db[id].hostID in f.cp.hosts && f.cp.db[id].hostID != "" && f.cp.db[id].hostID in f.agents
    requires id in f.agents[f.cp.db[id].hostID].host.table
    ensures Reachable(f')
    ensures f'.cp == CP.At(f.cp, m, CP.TerminateMove(f.cp.db[id].tenant, id, Provisioning))
    ensures
      var a, a' := AgentOf(f, f.cp.db[id].hostID), AgentOf(f', f.cp.db[id].hostID);
      HA.Found(a', id) && id !in a'.host.table && a'.phases == a.phases
  {
    var f1 := DeleteTells(f, m, id);
    f' := KillFinds(f1, f.cp.db[id].hostID, id);
  }

  /** A termination request arrives while the sandbox is listed. */
  lemma KillFinds(f: Fleet, host: string, id: string) returns (f': Fleet)
    requires Reachable(f) && Message(host, id) in f.kills && host in f.agents && id in f.agents[host].host.table
    ensures Reachable(f') && f'.cp == f.cp && host in f'.agents
    ensures
      var a, a' := f.agents[host], f'.agents[host];
      HA.Found(a', id) && id !in a'.host.table && a'.phases == a.phases
  {
    var k := Tally.Unused(f.agents[host].kills.Keys);
    var f1 := KillArrives(f, host, id, k);
    var a := f1.agents[host];
    var a' := a.(host := HA.Unlisted(a.host, id), kills := a.kills[k := HA.Cancel(id)]);
    f' := f1.(agents := f1.agents[host := a']);
    Onward(f1, AtHost(host, HA.KillLookUp(id, k)), f');
    assert k in a'.kills && HA.FoundIt(a'.kills[k], id);
  }

  lemma KillArrives(f: Fleet, host: string, id: string, k: nat) returns (f': Fleet)
    requires Reachable(f) && Message(host, id) in f.kills && host in f.agents && k !in f.agents[host].kills
    ensures Reachable(f') && f'.cp == f.cp && host in f'.agents
    ensures
      var a := f.agents[host];
      f'.agents[host] == a.(kills := a.kills[k := HA.LookUp(id)])
  {
    var step := AtHost(host, HA.BeginKill(id, k));
    f' := Do(f, step);
    Onward(f, step, f');
  }

  lemma DeleteTells(f: Fleet, m: nat, id: string) returns (f': Fleet)
    requires Reachable(f) && m !in f.cp.calls && id in f.cp.db && f.cp.db[id].state == Provisioning
    requires f.cp.db[id].hostID in f.cp.hosts && f.cp.db[id].hostID != ""
    ensures Reachable(f') && f'.agents == f.agents && Message(f.cp.db[id].hostID, id) in f'.kills
    ensures f'.cp == CP.At(f.cp, m, CP.TerminateMove(f.cp.db[id].tenant, id, Provisioning))
  {
    var s, t := f.cp, f.cp.db[id].tenant;
    var f1 := Silent(f, CP.Delete(m, CP.BeginDelete(t, id)), CP.At(s, m, CP.DeleteFind(t, id)));
    var f2 := LooksUp(f1, s, m, t, id);
    var f3 := ReadsState(f2, s, m, t, id);
    f' := Tells(f3, s, m);
  }

  lemma LooksUp(f: Fleet, s: CP.Sys, m: nat, t: string, id: string) returns (f': Fleet)
    requires Reachable(f) && f.cp == CP.At(s, m, CP.DeleteFind(t, id)) && id in s.db && s.db[id].tenant == t
    ensures Reachable(f') && f' == f.(cp := CP.At(s, m, CP.TerminateGet(t, id)))
  {
    var s' := CP.At(s, m, CP.TerminateGet(t, id));
    assert f.cp.calls[m := CP.TerminateGet(t, id)] == s'.calls;
    f' := Silent(f, CP.Delete(m, CP.DeleteLookUp), s');
  }

  lemma ReadsState(f: Fleet, s: CP.Sys, m: nat, t: string, id: string) returns (f': Fleet)
    requires Reachable(f) && f.cp == CP.At(s, m, CP.TerminateGet(t, id)) && id in s.db && s.db[id].state == Provisioning
    ensures Reachable(f') && f' == f.(cp := CP.At(s, m, CP.TerminateTell(t, id, Provisioning, s.db[id].hostID)))
  {
    var c := CP.TerminateTell(t, id, Provisioning, s.db[id].hostID);
    assert f.cp.calls[m := c] == CP.At(s, m, c).calls;
    f' := Silent(f, CP.Delete(m, CP.DeleteReadState), CP.At(s, m, c));
  }

  lemma Tells(f: Fleet, s: CP.Sys, m: nat) returns (f': Fleet)
    requires Reachable(f) && m in f.cp.calls && f.cp.calls[m].TerminateTell? && f.cp == CP.At(s, m, f.cp.calls[m])
    requires f.cp.calls[m].host in s.hosts && f.cp.calls[m].host != ""
    ensures Reachable(f') && f'.agents == f.agents && Message(f.cp.calls[m].host, f.cp.calls[m].id) in f'.kills
    ensures
      var c := f.cp.calls[m];
      f'.cp == CP.At(s, m, CP.TerminateMove(c.tenant, c.id, c.seen))
  {
    var step, c := Control(CP.Delete(m, CP.DeleteTellHost)), f.cp.calls[m];
    f' := Do(f, step);
    assert f'.cp.calls == s.calls[m := CP.TerminateMove(c.tenant, c.id, c.seen)];
    Onward(f, step, f');
  }

  /** A control plane step that sends nothing and waits for nothing. */
  lemma Silent(f: Fleet, c: CP.Step, s: CP.Sys) returns (f': Fleet)
    requires Reachable(f) && CP.Enabled(f.cp, c) && CP.Do(f.cp, c) == s && !Answers(c)
    requires !(c.Placing? && c.placement.CallHost?) && !(c.Delete? && c.delete.DeleteTellHost?)
    ensures Reachable(f') && f' == f.(cp := s)
  {
    f' := f.(cp := s);
    assert PlaceSent(f.cp, c) == multiset{} && KillSent(f.cp, c) == multiset{};
    assert f.places + multiset{} == f.places && f.kills + multiset{} == f.kills;
    assert Do(f, Control(c)).told == f.told;
    Onward(f, Control(c), f');
  }

  /** The answer arrives from an agent that has placed the sandbox. */
  lemma Answered(f: Fleet, n: nat, reply: CP.Reply) returns (f': Fleet)
    requires Reachable(f) && n in f.cp.calls && f.cp.calls[n].PlaceWait?
    requires HA.Succeeded(AgentOf(f, f.cp.calls[n].host), f.cp.calls[n].item.id)
    ensures Reachable(f') && f'.agents == f.agents && f'.cp.db == f.cp.db
    ensures
      var c := f.cp.calls[n];
      f'.cp.calls == f.cp.calls[n := CP.PlaceSave(c.item, c.host, c.reading, reply)]
  {
    var step := Control(CP.Placing(n, CP.HostAnswers(reply)));
    f' := Do(f, step);
    Onward(f, step, f');
  }

  /** The answer is saved, on the same host. */
  lemma Saves(f: Fleet, n: nat, id: string) returns (f': Fleet)
    requires Reachable(f) && n in f.cp.calls && f.cp.calls[n].PlaceSave? && f.cp.calls[n].item.id == id
    requires id in f.cp.db && f.cp.db[id].state == Provisioning
    ensures Reachable(f') && f'.agents == f.agents && n in f'.cp.calls && f'.cp.calls[n].PlaceRun?
    ensures f'.cp.calls[n].item.id == id && f'.cp.calls == f.cp.calls[n := f'.cp.calls[n]]
    ensures id in f'.cp.db && f'.cp.db[id].state == Provisioning && f'.cp.db[id].hostID == f.cp.db[id].hostID
  {
    var step := CP.Placing(n, CP.SaveReply);
    f' := Silent(f, step, CP.Do(f.cp, step));
  }

  lemma ComesToRun(f: Fleet, n: nat, id: string) returns (f': Fleet)
    requires Reachable(f) && n in f.cp.calls && f.cp.calls[n].PlaceRun? && f.cp.calls[n].item.id == id
    requires id in f.cp.db && f.cp.db[id].state == Provisioning
    ensures Reachable(f') && f'.agents == f.agents && f'.cp.calls == f.cp.calls[n := CP.Done(CP.PlacementOver)]
    ensures id in f'.cp.db && f'.cp.db[id].state == Running && f'.cp.db[id].hostID == f.cp.db[id].hostID
  {
    var step := CP.Placing(n, CP.MarkRunning);
    f' := Silent(f, step, CP.Do(f.cp, step));
  }

  /** A transition from a state that the record has left is refused, and changes nothing. */
  lemma Refused(f: Fleet, m: nat, t: string, id: string) returns (f': Fleet)
    requires Reachable(f) && m in f.cp.calls && f.cp.calls[m] == CP.TerminateMove(t, id, Provisioning)
    requires id in f.cp.db && f.cp.db[id].state != Provisioning
    ensures Reachable(f') && f' == f.(cp := CP.At(f.cp, m, CP.Done(CP.KillFailed)))
  {
    f' := Silent(f, CP.Delete(m, CP.DeleteDrain), CP.At(f.cp, m, CP.Done(CP.KillFailed)));
  }

  // ---------- Main results ----------

  /**
   Whatever the fleet has done so far, the sandbox of a placement about to be sent can end up Running
   with its VM unlisted by a delete whose caller was told that the kill failed.
   */
  lemma RefusedDeleteCanKill(f: Fleet, n: nat, reply: CP.Reply) returns (f': Fleet, m: nat)
    requires Reachable(f) && n in f.cp.calls && f.cp.calls[n].Place?
    ensures Reachable(f') && m !in f.cp.calls && m in f'.cp.calls && f'.cp.calls[m] == CP.Done(CP.KillFailed)
    ensures
      var id := f.cp.calls[n].item.id;
      && id in f'.cp.db && f'.cp.db[id].state == Running
      && id !in AgentOf(f', f'.cp.db[id].hostID).host.table
  {
    var c := f.cp.calls[n];
    var id := c.item.id;
    SenderHoldsProvisioning(f, n);
    m := Tally.Unused(f.cp.calls.Keys);
    var f1 := PlacedUnanswered(f, n);
    var f2 := DeleteFindsVm(f1, m, id);
    var f3 := Answered(f2, n, reply);
    var f4 := Saves(f3, n, id);
    var f5 := ComesToRun(f4, n, id);
    f' := Refused(f5, m, f1.cp.db[id].tenant, id);
  }

  lemma SenderHoldsProvisioning(f: Fleet, n: nat)
    requires Reachable(f) && n in f.cp.calls && f.cp.calls[n].Place?
    ensures
      var id, host := f.cp.calls[n].item.id, f.cp.calls[n].host;
      && id in f.cp.db && f.cp.db[id].state == Provisioning && f.cp.db[id].hostID == host
      && host in f.cp.hosts && host != ""
  {
    PartsAreReachable(f, "");
    PlacementSafety.AlwaysFacts(f.cp);
    assert PlacementSafety.CallFact(f.cp, f.cp.calls[n]);
    Ownership.AlwaysOwned(f.cp);
    PlacementSafety.PlacerHoldsProvisioning(f.cp, n);
  }

  /** Such placements do come about. */
  lemma PlacementComesAbout(t: string, id: string, host: Host) returns (f: Fleet, n: nat)
    requires host.id != ""
    ensures Reachable(f) && n in f.cp.calls && f.cp.calls[n].Place? && f.cp.calls[n].item.id == id
  {
    var s;
    s, n := Progress.PlacementIsSent(t, id, host);
    var init, steps :| CP.Init(init) && CP.Runs(init, steps, s);
    var f0 := Fleet(init, map[], multiset{}, multiset{}, {});
    assert Init(f0) && Runs(f0, [], f0);
    f := ControlRuns(f0, steps, s);
  }
}

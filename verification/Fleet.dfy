/**
 The control plane and its host agents together. Placement and termination requests travel as messages
 that can be delayed or lost; a placement's success reaches the control plane only after the agent has
 published the sandbox, while a refusal can come at any time (a time-out, say).
 */
module Fleet {
  import opened SandboxState
  import CP = ControlPlane
  import HA = HostAgent
  import Ownership
  import PlacementSafety

  /** A request to place or to terminate sandbox `id`, on its way to a host. */
  datatype Message = Message(host: string, id: string)

  /** `told` is history: the sandboxes for which some delete has sent a termination request. */
  datatype Fleet = Fleet(
    cp: CP.Sys,
    agents: map<string, HA.Sys>,
    places: multiset<Message>,
    kills: multiset<Message>,
    told: set<string>)

  const NEW_AGENT := HA.Sys(HA.Host({}, {}, {}, {}, {}, {}, {}), map[], map[],
                            HA.History({}, {}, {}, multiset{}, multiset{}, multiset{}))

  /** The agent of a host; one that has done nothing yet is not in the map. */
  function AgentOf(f: Fleet, host: string): HA.Sys {
    if host in f.agents then f.agents[host] else NEW_AGENT
  }

  ghost predicate Init(f: Fleet) {
    CP.Init(f.cp) && f.agents == map[] && f.places == multiset{} && f.kills == multiset{} && f.told == {}
  }

  datatype Step =
    | Control(control: CP.Step)
    | AtHost(host: string, agent: HA.Step)

  ghost predicate Enabled(f: Fleet, step: Step) {
    match step
    case Control(c) => CP.Enabled(f.cp, c) && (Answers(c) ==> AnswerIsTrue(f, c.n))
    case AtHost(host, a) =>
      && HA.Enabled(AgentOf(f, host), a)
      && (a.BeginPlace? ==> Message(host, a.id) in f.places)
      && (a.BeginKill? ==> Message(host, a.id) in f.kills)
  }

  predicate Answers(c: CP.Step) {
    c.Placing? && c.placement.HostAnswers?
  }

  /** The agent that call n waits for has placed the sandbox. */
  predicate AnswerIsTrue(f: Fleet, n: nat) {
    n in f.cp.calls && f.cp.calls[n].PlaceWait? &&
    HA.Succeeded(AgentOf(f, f.cp.calls[n].host), f.cp.calls[n].item.id)
  }

  /** The placement request that a control plane step sends. */
  function PlaceSent(s: CP.Sys, c: CP.Step): multiset<Message> {
    if c.Placing? && c.placement.CallHost? && c.n in s.calls && s.calls[c.n].Place?
    then multiset{Message(s.calls[c.n].host, s.calls[c.n].item.id)} else multiset{}
  }

  /** The termination request that a control plane step sends: to a host that is named and registered. */
  function KillSent(s: CP.Sys, c: CP.Step): multiset<Message> {
    if c.Delete? && c.delete.DeleteTellHost? && c.n in s.calls && s.calls[c.n].TerminateTell?
       && s.calls[c.n].host != "" && s.calls[c.n].host in s.hosts
    then multiset{Message(s.calls[c.n].host, s.calls[c.n].id)} else multiset{}
  }

  ghost function Do(f: Fleet, step: Step): Fleet
    requires Enabled(f, step)
  {
    match step
    case Control(c) =>
      var sent := KillSent(f.cp, c);
      f.(cp := CP.Do(f.cp, c), places := f.places + PlaceSent(f.cp, c), kills := f.kills + sent,
         told := f.told + set m | m in sent :: m.id)
    case AtHost(host, a) =>
      f.(agents := f.agents[host := HA.Do(AgentOf(f, host), a)],
         places := if a.BeginPlace? then f.places - multiset{Message(host, a.id)} else f.places,
         kills := if a.BeginKill? then f.kills - multiset{Message(host, a.id)} else f.kills)
  }

  ghost predicate Runs(f: Fleet, steps: seq<Step>, end: Fleet)
    decreases |steps|
  {
    if steps == [] then end == f
    else Enabled(f, steps[0]) && Runs(Do(f, steps[0]), steps[1..], end)
  }

  ghost predicate Reachable(f: Fleet) {
    exists init, steps :: Init(init) && Runs(init, steps, f)
  }

  // ---------- The parts of a fleet run are runs of the parts ----------

  ghost predicate PartsReachable(f: Fleet) {
    CP.Reachable(f.cp) && forall h :: HA.Reachable(AgentOf(f, h))
  }

  lemma NewAgentIsReachable()
    ensures HA.Reachable(NEW_AGENT)
  {
    assert HA.Init(NEW_AGENT) && HA.Runs(NEW_AGENT, [], NEW_AGENT);
  }

  lemma PartsStayReachable(f: Fleet, step: Step)
    requires PartsReachable(f) && Enabled(f, step)
    ensures PartsReachable(Do(f, step))
  {
    match step
    case Control(c) =>
      CP.ReachableStep(f.cp, c);
      forall h ensures HA.Reachable(AgentOf(Do(f, step), h)) {
        assert AgentOf(Do(f, step), h) == AgentOf(f, h);
      }
    case AtHost(host, a) =>
      HA.ReachableStep(AgentOf(f, host), a);
      forall h ensures HA.Reachable(AgentOf(Do(f, step), h)) {
        assert h != host ==> AgentOf(Do(f, step), h) == AgentOf(f, h);
      }
  }

  // ---------- What ties the parts together ----------

  /** A placement request for the sandbox is on its way to the host, or has arrived there. */
  predicate SentTo(f: Fleet, host: string, id: string) {
    Message(host, id) in f.places || id in AgentOf(f, host).phases
  }

  /** It was sent by the one call of PlaceSandbox, to the host that the record names, and is there once. */
  ghost predicate SentFact(f: Fleet, host: string, id: string) {
    SentTo(f, host, id) ==>
      && f.cp.hist.placed[id] >= 1 && id in f.cp.db && f.cp.db[id].hostID == host
      && f.places[Message(host, id)] <= (if id in AgentOf(f, host).phases then 0 else 1)
  }

  predicate HasAnswer(calls: map<nat, CP.Call>, m: nat) {
    m in calls && (calls[m].PlaceSave? || calls[m].PlaceRun?)
  }

  /** A call that has had its answer got it from an agent that had placed the sandbox. */
  ghost predicate AnswerFact(f: Fleet, n: nat) {
    HasAnswer(f.cp.calls, n) ==> HA.Succeeded(AgentOf(f, f.cp.calls[n].host), f.cp.calls[n].item.id)
  }

  predicate HasRun(db: Db, id: string) {
    id in db && (db[id].state == Running || db[id].state == Draining)
  }

  ghost predicate RunFact(f: Fleet, id: string) {
    HasRun(f.cp.db, id) ==> HA.Succeeded(AgentOf(f, f.cp.db[id].hostID), id)
  }

  predicate HasExecHost(calls: map<nat, CP.Call>, n: nat) {
    n in calls && (calls[n].ExecFind? || calls[n].ExecSend?)
  }

  /** An exec request that has its host goes to an agent that has placed the sandbox. */
  ghost predicate ExecFact(f: Fleet, n: nat) {
    HasExecHost(f.cp.calls, n) ==> HA.Succeeded(AgentOf(f, f.cp.calls[n].host), f.cp.calls[n].id)
  }

  /** A termination request for the sandbox is under way at the agent, or over. */
  ghost predicate KillAt(a: HA.Sys, id: string) {
    exists k :: k in a.kills && a.kills[k].id == id
  }

  ghost predicate ToldFact(f: Fleet, host: string, id: string) {
    Message(host, id) in f.kills || KillAt(AgentOf(f, host), id) ==> id in f.told
  }

  ghost predicate Tied(f: Fleet) {
    && PartsReachable(f)
    && (forall h, id :: SentFact(f, h, id))
    && (forall n :: AnswerFact(f, n))
    && (forall id :: RunFact(f, id))
    && (forall n :: ExecFact(f, n))
    && (forall h, id :: ToldFact(f, h, id))
  }

  // ---------- What control plane steps do to hosts named and sandboxes run ----------

  /** Once PlaceSandbox has been called, the record stays and keeps naming the same host. */
  lemma HostStays(s: CP.Sys, c: CP.Step, id: string)
    requires CP.Reachable(s) && CP.Enabled(s, c) && s.hist.placed[id] >= 1
    ensures
      var s' := CP.Do(s, c);
      s'.hist.placed[id] >= 1 && id in s.db && id in s'.db && s'.db[id].hostID == s.db[id].hostID
  {
    DispatcherHoldsOthers(s, id);
    StepKeepsHost(s, c, id);
  }

  lemma DispatcherHoldsOthers(s: CP.Sys, id: string)
    requires CP.Reachable(s) && s.hist.placed[id] >= 1
    ensures id in s.db && (!s.dispatcher.Idle? ==> s.dispatcher.item.id != id)
  {
    PlacementSafety.PlacedAtMostOnce(s, id);
    Ownership.AlwaysOwned(s);
    if !s.dispatcher.Idle? {
      PlacementSafety.DispatcherHoldsQueued(s);
    }
  }

  lemma StepKeepsHost(s: CP.Sys, c: CP.Step, id: string)
    requires CP.Enabled(s, c) && id in s.db && (!s.dispatcher.Idle? ==> s.dispatcher.item.id != id)
    ensures
      var s' := CP.Do(s, c);
      s'.hist.placed[id] >= s.hist.placed[id] && id in s'.db && s'.db[id].hostID == s.db[id].hostID
  {
    match c
    case Post(n, p) => PostKeepsHost(s, n, p, id);
    case Delete(n, d) => DeleteKeepsHost(s, n, d, id);
    case Dispatch(d) => DispatchKeepsHost(s, d, id);
    case Placing(n, p) => PlacementKeepsHost(s, n, p, id);
    case Exec(n, e) =>
    case Env(e) =>
  }

  lemma PostKeepsHost(s: CP.Sys, n: nat, step: CP.PostStep, id: string)
    requires CP.PostEnabled(s, n, step) && id in s.db
    ensures
      var s' := CP.DoPost(s, n, step);
      id in s'.db && s'.db[id].hostID == s.db[id].hostID && s'.hist.placed == s.hist.placed
  {
  }

  lemma DeleteKeepsHost(s: CP.Sys, n: nat, step: CP.DeleteStep, id: string)
    requires CP.DeleteEnabled(s, n, step) && id in s.db
    ensures
      var s' := CP.DoDelete(s, n, step);
      id in s'.db && s'.db[id].hostID == s.db[id].hostID && s'.hist.placed == s.hist.placed
  {
  }

  lemma DispatchKeepsHost(s: CP.Sys, step: CP.DispatchStep, id: string)
    requires CP.DispatchEnabled(s, step) && id in s.db && (!s.dispatcher.Idle? ==> s.dispatcher.item.id != id)
    ensures
      var s' := CP.DoDispatch(s, step);
      id in s'.db && s'.db[id].hostID == s.db[id].hostID && s'.hist.placed == s.hist.placed
  {
    match step
    case SaveHost =>
    case MarkExpired =>
    case MarkProvisioning(n) =>
    case _ =>
  }

  lemma PlacementKeepsHost(s: CP.Sys, n: nat, step: CP.PlacementStep, id: string)
    requires CP.PlacementEnabled(s, n, step) && id in s.db
    ensures
      var s' := CP.DoPlacement(s, n, step);
      id in s'.db && s'.db[id].hostID == s.db[id].hostID && s'.hist.placed[id] >= s.hist.placed[id]
  {
  }

  /** A sandbox comes to run only by its placement's last step, and goes on to Draining from there. */
  lemma RunsByMarkRunning(s: CP.Sys, c: CP.Step, id: string)
    requires CP.Enabled(s, c) && HasRun(CP.Do(s, c).db, id) && !HasRun(s.db, id)
    ensures c.Placing? && c.placement.MarkRunning? && c.n in s.calls && s.calls[c.n].PlaceRun?
    ensures s.calls[c.n].item.id == id
  {
    match c
    case Post(n, p) => PostRunsNothing(s, n, p, id);
    case Delete(n, d) => DeleteRunsNothing(s, n, d, id);
    case Dispatch(d) => DispatchRunsNothing(s, d, id);
    case Placing(n, p) => PlacementRuns(s, n, p, id);
    case Exec(n, e) =>
    case Env(e) =>
  }

  lemma PostRunsNothing(s: CP.Sys, n: nat, step: CP.PostStep, id: string)
    requires CP.PostEnabled(s, n, step)
    ensures HasRun(CP.DoPost(s, n, step).db, id) ==> HasRun(s.db, id)
  {
  }

  lemma DeleteRunsNothing(s: CP.Sys, n: nat, step: CP.DeleteStep, id: string)
    requires CP.DeleteEnabled(s, n, step)
    ensures HasRun(CP.DoDelete(s, n, step).db, id) ==> HasRun(s.db, id)
  {
    if step.DeleteDrain? && s.calls[n].id in s.db && Legal(s.db[s.calls[n].id].state, Draining) {
      LegalClimbs(s.db[s.calls[n].id].state, Draining);
    }
  }

  lemma DispatchRunsNothing(s: CP.Sys, step: CP.DispatchStep, id: string)
    requires CP.DispatchEnabled(s, step)
    ensures HasRun(CP.DoDispatch(s, step).db, id) ==> HasRun(s.db, id)
  {
  }

  lemma PlacementRuns(s: CP.Sys, n: nat, step: CP.PlacementStep, id: string)
    requires CP.PlacementEnabled(s, n, step)
    ensures HasRun(CP.DoPlacement(s, n, step).db, id) ==>
              HasRun(s.db, id) || (step.MarkRunning? && s.calls[n].item.id == id)
  {
  }

  /** A call that has its answer afterwards had it before, for the same host and sandbox. */
  ghost predicate NoNewAnswer(s: CP.Sys, s': CP.Sys, m: nat) {
    HasAnswer(s'.calls, m) ==>
      && HasAnswer(s.calls, m)
      && s'.calls[m].host == s.calls[m].host && s'.calls[m].item == s.calls[m].item
  }

  /** A call has its answer only from HostAnswers, and then keeps host and sandbox. */
  lemma AnsweredByHost(s: CP.Sys, c: CP.Step, m: nat)
    requires CP.Enabled(s, c)
    ensures NoNewAnswer(s, CP.Do(s, c), m) || (Answers(c) && c.n == m)
  {
    match c
    case Post(n, p) => PostAnswersNothing(s, n, p, m);
    case Delete(n, d) => DeleteAnswersNothing(s, n, d, m);
    case Dispatch(d) => DispatchAnswersNothing(s, d, m);
    case Placing(n, p) => PlacementAnswers(s, n, p, m);
    case Exec(n, e) => ExecAnswersNothing(s, n, e, m);
    case Env(e) =>
  }

  lemma PostAnswersNothing(s: CP.Sys, n: nat, step: CP.PostStep, m: nat)
    requires CP.PostEnabled(s, n, step)
    ensures NoNewAnswer(s, CP.DoPost(s, n, step), m)
  {
  }

  lemma DeleteAnswersNothing(s: CP.Sys, n: nat, step: CP.DeleteStep, m: nat)
    requires CP.DeleteEnabled(s, n, step)
    ensures NoNewAnswer(s, CP.DoDelete(s, n, step), m)
  {
  }

  lemma DispatchAnswersNothing(s: CP.Sys, step: CP.DispatchStep, m: nat)
    requires CP.DispatchEnabled(s, step)
    ensures NoNewAnswer(s, CP.DoDispatch(s, step), m)
  {
  }

  lemma PlacementAnswers(s: CP.Sys, n: nat, step: CP.PlacementStep, m: nat)
    requires CP.PlacementEnabled(s, n, step)
    ensures NoNewAnswer(s, CP.DoPlacement(s, n, step), m) || (step.HostAnswers? && n == m)
  {
  }

  lemma ExecAnswersNothing(s: CP.Sys, n: nat, step: CP.ExecStep, m: nat)
    requires CP.ExecEnabled(s, n, step)
    ensures NoNewAnswer(s, CP.DoExec(s, n, step), m)
  {
  }

  // ---------- Steps keep them tied ----------

  lemma ControlKeepsSent(f: Fleet, c: CP.Step, host: string, id: string)
    requires Tied(f) && Enabled(f, Control(c))
    ensures SentFact(Do(f, Control(c)), host, id)
  {
    var f', m := Do(f, Control(c)), Message(host, id);
    assert SentFact(f, host, id);
    if SentTo(f, host, id) {
      HostStays(f.cp, c, id);
      if m in PlaceSent(f.cp, c) {
        CallSendsOnce(f, c, host, id);
      }
    } else if m in PlaceSent(f.cp, c) {
      CallSendsOnce(f, c, host, id);
    }
  }

  /** The call that sends a placement request finds nothing sent for its sandbox before. */
  lemma CallSendsOnce(f: Fleet, c: CP.Step, host: string, id: string)
    requires Tied(f) && Enabled(f, Control(c)) && Message(host, id) in PlaceSent(f.cp, c)
    ensures !SentTo(f, host, id) && id in f.cp.db && f.cp.db[id].hostID == host
    ensures id in CP.Do(f.cp, c).db && CP.Do(f.cp, c).db[id].hostID == host && CP.Do(f.cp, c).hist.placed[id] == 1
  {
    PlacementSafety.AlwaysFacts(f.cp);
    assert PlacementSafety.CallFact(f.cp, f.cp.calls[c.n]);
    assert SentFact(f, host, id);
  }

  lemma HostKeepsSent(f: Fleet, at: string, a: HA.Step, host: string, id: string)
    requires SentFact(f, host, id) && Enabled(f, AtHost(at, a))
    ensures SentFact(Do(f, AtHost(at, a)), host, id)
  {
    var arrives := a.BeginPlace? && at == host && a.id == id;
    PhasesGrowByPlacing(AgentOf(f, at), a, id);
    ArrivalKeepsSent(f, Do(f, AtHost(at, a)), host, id, arrives);
  }

  /** A request that arrives is no longer on its way. */
  lemma ArrivalKeepsSent(f: Fleet, f': Fleet, host: string, id: string, arrives: bool)
    requires SentFact(f, host, id) && f'.cp == f.cp && (arrives ==> Message(host, id) in f.places)
    requires id in AgentOf(f', host).phases <==> id in AgentOf(f, host).phases || arrives
    requires f'.places[Message(host, id)] == f.places[Message(host, id)] - if arrives then 1 else 0
    ensures SentFact(f', host, id)
  {
  }

  lemma PhasesGrowByPlacing(s: HA.Sys, a: HA.Step, id: string)
    requires HA.Enabled(s, a)
    ensures id in HA.Do(s, a).phases <==> id in s.phases || (a.BeginPlace? && a.id == id)
    ensures a.BeginPlace? ==> a.id !in s.phases
  {
  }

  lemma ControlKeepsRest(f: Fleet, c: CP.Step)
    requires Tied(f) && Enabled(f, Control(c))
    ensures
      var f' := Do(f, Control(c));
      && (forall n :: AnswerFact(f', n)) && (forall id :: RunFact(f', id)) && (forall h, id :: ToldFact(f', h, id))
  {
    var f' := Do(f, Control(c));
    forall h ensures AgentOf(f', h) == AgentOf(f, h) {
    }
    forall n ensures AnswerFact(f', n) {
      AnsweredByHost(f.cp, c, n);
      assert AnswerFact(f, n);
    }
    forall id ensures RunFact(f', id) {
      ControlKeepsRun(f, c, id);
    }
    forall h, id ensures ToldFact(f', h, id) {
      assert ToldFact(f, h, id);
    }
  }

  lemma ControlKeepsRun(f: Fleet, c: CP.Step, id: string)
    requires Tied(f) && Enabled(f, Control(c))
    ensures RunFact(Do(f, Control(c)), id)
  {
    var s, s' := f.cp, CP.Do(f.cp, c);
    assert RunFact(f, id);
    if HasRun(s'.db, id) {
      if !HasRun(s.db, id) {
        RunsByMarkRunning(s, c, id);
        PlacementSafety.AlwaysFacts(s);
        assert PlacementSafety.CallFact(s, s.calls[c.n]) && AnswerFact(f, c.n);
      } else {
        assert SentFact(f, s.db[id].hostID, id);
      }
      HostStays(s, c, id);
    }
  }

  lemma HostKeepsRest(f: Fleet, at: string, a: HA.Step)
    requires Tied(f) && Enabled(f, AtHost(at, a))
    ensures
      var f' := Do(f, AtHost(at, a));
      && (forall n :: AnswerFact(f', n)) && (forall id :: RunFact(f', id)) && (forall h, id :: ToldFact(f', h, id))
  {
    var f' := Do(f, AtHost(at, a));
    forall h, id | HA.Succeeded(AgentOf(f, h), id) ensures HA.Succeeded(AgentOf(f', h), id) {
      if h == at {
        HA.SuccessStays(AgentOf(f, at), a, id);
      }
    }
    forall n ensures AnswerFact(f', n) {
      assert AnswerFact(f, n);
    }
    forall id ensures RunFact(f', id) {
      assert RunFact(f, id);
    }
    forall h, id ensures ToldFact(f', h, id) {
      assert ToldFact(f, h, id);
      if h == at {
        KillsBegin(AgentOf(f, at), a, id);
      }
    }
  }

  lemma KillsBegin(s: HA.Sys, a: HA.Step, id: string)
    requires HA.Enabled(s, a)
    ensures KillAt(HA.Do(s, a), id) ==> KillAt(s, id) || (a.BeginKill? && a.id == id)
  {
    var s' := HA.Do(s, a);
    if k :| k in s'.kills && s'.kills[k].id == id {
      assert (k in s.kills && s.kills[k].id == id) || (a.BeginKill? && a.id == id);
    }
  }

  // ---------- Exec requests ----------

  /** An exec request that has a host afterwards had it before, for the same sandbox. */
  ghost predicate NoNewExecHost(s: CP.Sys, s': CP.Sys, n: nat) {
    HasExecHost(s'.calls, n) ==>
      && HasExecHost(s.calls, n) && s'.calls[n].host == s.calls[n].host && s'.calls[n].id == s.calls[n].id
  }

  /** An exec request gets its host from a Running record. */
  ghost predicate ReadsHost(s: CP.Sys, s': CP.Sys, n: nat) {
    && HasExecHost(s'.calls, n) && s'.calls[n].id in s.db && s.db[s'.calls[n].id].state == Running
    && s'.calls[n].host == s.db[s'.calls[n].id].hostID
  }

  lemma ExecHostIsRead(s: CP.Sys, c: CP.Step, n: nat)
    requires CP.Enabled(s, c)
    ensures NoNewExecHost(s, CP.Do(s, c), n) || ReadsHost(s, CP.Do(s, c), n)
  {
    match c
    case Post(k, p) => PostNamesNoHost(s, k, p, n);
    case Delete(k, d) => DeleteNamesNoHost(s, k, d, n);
    case Dispatch(d) => DispatchNamesNoHost(s, d, n);
    case Placing(k, p) => PlacementNamesNoHost(s, k, p, n);
    case Exec(k, e) => ExecNamesHost(s, k, e, n);
    case Env(e) =>
  }

  lemma ExecNamesHost(s: CP.Sys, k: nat, step: CP.ExecStep, n: nat)
    requires CP.ExecEnabled(s, k, step)
    ensures NoNewExecHost(s, CP.DoExec(s, k, step), n) || ReadsHost(s, CP.DoExec(s, k, step), n)
  {
  }

  lemma PostNamesNoHost(s: CP.Sys, k: nat, step: CP.PostStep, n: nat)
    requires CP.PostEnabled(s, k, step)
    ensures NoNewExecHost(s, CP.DoPost(s, k, step), n)
  {
  }

  lemma DeleteNamesNoHost(s: CP.Sys, k: nat, step: CP.DeleteStep, n: nat)
    requires CP.DeleteEnabled(s, k, step)
    ensures NoNewExecHost(s, CP.DoDelete(s, k, step), n)
  {
  }

  lemma DispatchNamesNoHost(s: CP.Sys, step: CP.DispatchStep, n: nat)
    requires CP.DispatchEnabled(s, step)
    ensures NoNewExecHost(s, CP.DoDispatch(s, step), n)
  {
  }

  lemma PlacementNamesNoHost(s: CP.Sys, k: nat, step: CP.PlacementStep, n: nat)
    requires CP.PlacementEnabled(s, k, step)
    ensures NoNewExecHost(s, CP.DoPlacement(s, k, step), n)
  {
  }

  lemma ControlKeepsExec(f: Fleet, c: CP.Step, n: nat)
    requires Tied(f) && Enabled(f, Control(c))
    ensures ExecFact(Do(f, Control(c)), n)
  {
    var s, s' := f.cp, CP.Do(f.cp, c);
    ExecHostIsRead(s, c, n);
    assert ExecFact(f, n);
    if HasExecHost(s'.calls, n) {
      assert AgentOf(Do(f, Control(c)), s'.calls[n].host) == AgentOf(f, s'.calls[n].host);
      if !NoNewExecHost(s, s', n) {
        assert RunFact(f, s'.calls[n].id);
      }
    }
  }

  lemma HostKeepsExec(f: Fleet, at: string, a: HA.Step, n: nat)
    requires ExecFact(f, n) && Enabled(f, AtHost(at, a))
    ensures ExecFact(Do(f, AtHost(at, a)), n)
  {
    if HasExecHost(f.cp.calls, n) && f.cp.calls[n].host == at {
      HA.SuccessStays(AgentOf(f, at), a, f.cp.calls[n].id);
    }
  }

  lemma StepKeepsTied(f: Fleet, step: Step)
    requires Tied(f) && Enabled(f, step)
    ensures Tied(Do(f, step))
  {
    PartsStayReachable(f, step);
    match step
    case Control(c) =>
      ControlKeepsRest(f, c);
      forall h, id ensures SentFact(Do(f, step), h, id) {
        ControlKeepsSent(f, c, h, id);
      }
      forall n ensures ExecFact(Do(f, step), n) {
        ControlKeepsExec(f, c, n);
      }
    case AtHost(host, a) =>
      HostKeepsRest(f, host, a);
      forall h, id ensures SentFact(Do(f, step), h, id) {
        assert SentFact(f, h, id);
        HostKeepsSent(f, host, a, h, id);
      }
      forall n ensures ExecFact(Do(f, step), n) {
        assert ExecFact(f, n);
        HostKeepsExec(f, host, a, n);
      }
  }

  lemma {:induction false} RunKeepsTied(f: Fleet, steps: seq<Step>, end: Fleet)
    requires Tied(f) && Runs(f, steps, end)
    ensures Tied(end)
    decreases |steps|
  {
    if steps != [] {
      StepKeepsTied(f, steps[0]);
      RunKeepsTied(Do(f, steps[0]), steps[1..], end);
    }
  }

  lemma AlwaysTied(f: Fleet)
    requires Reachable(f)
    ensures Tied(f)
  {
    var init, steps :| Init(init) && Runs(init, steps, f);
    NewAgentIsReachable();
    assert CP.Runs(init.cp, [], init.cp);
    RunKeepsTied(init, steps, f);
  }

  // ---------- Main results ----------

  /** What is proved of either part on its own holds of it in every fleet. */
  lemma PartsAreReachable(f: Fleet, host: string)
    requires Reachable(f)
    ensures CP.Reachable(f.cp) && HA.Reachable(AgentOf(f, host))
  {
    AlwaysTied(f);
  }

  /**
   Sandbox IDs are new to the agents they reach: a placement request that arrives always finds an agent
   that has not heard of its sandbox, and no other request for that sandbox is anywhere.
   */
  lemma PlacementsArriveOnce(f: Fleet, host: string, id: string)
    requires Reachable(f) && Message(host, id) in f.places
    ensures Enabled(f, AtHost(host, HA.BeginPlace(id)))
    ensures f.places[Message(host, id)] == 1
    ensures forall h :: h != host ==> !SentTo(f, h, id)
  {
    AlwaysTied(f);
    assert SentFact(f, host, id);
    forall h | h != host ensures !SentTo(f, h, id) {
      assert SentFact(f, h, id);
    }
  }

  /**
   A Running record names a host whose agent has placed the sandbox. Its VM is listed there exactly when
   no termination request has found it and watchVM has not unlisted it after its process exited; and
   a termination request has found it only if some delete, even one that was refused, has sent one.
   */
  lemma RunningVmIsListedExactly(f: Fleet, id: string)
    requires Reachable(f) && id in f.cp.db && f.cp.db[id].state == Running
    ensures
      var a := AgentOf(f, f.cp.db[id].hostID);
      && HA.Succeeded(a, id)
      && (id in a.host.table <==> !HA.Found(a, id) && HA.MayBeListed(a.phases[id]))
      && (HA.Found(a, id) ==> id in f.told)
      && (id in a.host.table ==> id in a.host.overlays && id in a.host.cgroups)
  {
    AlwaysTied(f);
    var host := f.cp.db[id].hostID;
    var a := AgentOf(f, host);
    assert RunFact(f, id) && ToldFact(f, host, id);
    HA.ListedExactly(a, id);
    if id in a.host.table {
      HA.TableEntryHasResources(a, id);
    }
    if HA.Found(a, id) {
      var k :| k in a.kills && HA.FoundIt(a.kills[k], id);
      assert a.kills[k].id == id;
    }
  }

  /** A Running record's VM that no delete has sent for is listed until its process has been reaped. */
  lemma UntouchedVmIsListed(f: Fleet, id: string)
    requires Reachable(f) && id in f.cp.db && f.cp.db[id].state == Running && id !in f.told
    ensures
      var a := AgentOf(f, f.cp.db[id].hostID);
      id in a.phases && (a.phases[id].Published? || a.phases[id].Watching? ==> id in a.host.table)
  {
    RunningVmIsListedExactly(f, id);
  }

  /** A command is sent only to an agent that has placed its sandbox, and there is only one such agent. */
  lemma CommandsReachTheirHost(f: Fleet, n: nat, host: string)
    requires Reachable(f) && n in f.cp.calls && f.cp.calls[n].ExecSend?
    ensures HA.Succeeded(AgentOf(f, f.cp.calls[n].host), f.cp.calls[n].id)
    ensures host != f.cp.calls[n].host ==> !HA.Succeeded(AgentOf(f, host), f.cp.calls[n].id)
  {
    AlwaysTied(f);
    var id := f.cp.calls[n].id;
    assert ExecFact(f, n) && SentFact(f, f.cp.calls[n].host, id) && SentFact(f, host, id);
  }
}

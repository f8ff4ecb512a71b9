/**
 What placements guarantee, in every reachable state of the control plane: PlaceSandbox is called at
 most once per sandbox, only for requests whose deadline had not passed, and a Running record
 carries a registered host and the socket data that its own placement returned.
 */
module PlacementSafety {
  import opened Results
  import opened SandboxState
  import opened ControlPlane
  import Tally
  import opened Ownership

  /** A placement of `item` on `host` is under way, PlaceSandbox having been called `times` times. */
  ghost predicate UnderWay(s: Sys, item: Item, host: string, reading: int, times: nat) {
    && item.id in s.db && host in s.hosts && s.db[item.id].hostID == host
    && reading <= item.key.deadline
    && s.hist.placed[item.id] == times
  }

  ghost predicate Answered(s: Sys, id: string, host: string, reply: Reply) {
    id in s.hist.answers && s.hist.answers[id] == Answer(host, reply)
  }

  ghost predicate CallFact(s: Sys, c: Call) {
    match c
    case Place(item, host, reading) => UnderWay(s, item, host, reading, 0)
    case PlaceWait(item, host, reading) => UnderWay(s, item, host, reading, 1)
    case PlaceSave(item, host, reading, reply) =>
      UnderWay(s, item, host, reading, 1) && Answered(s, item.id, host, reply)
    case PlaceRun(item, host, reading, reply) =>
      && UnderWay(s, item, host, reading, 1) && Answered(s, item.id, host, reply)
      && s.db[item.id].vsockCID == reply.cid && s.db[item.id].vmAgentSocket == reply.socket
    case PlaceFail(item, host, reading, _) => UnderWay(s, item, host, reading, 1)
    case ExecFind(_, _, host) => host in s.hosts
    case ExecSend(_, _, host) => host in s.hosts
    case Done(outcome) => outcome != NoAssignedHost && outcome != HostNotFound
    case _ => true
  }

  ghost predicate DispatcherFact(s: Sys) {
    match s.dispatcher
    case Choose(item, reading) => reading <= item.key.deadline
    case Assign(item, host, reading) => reading <= item.key.deadline && host in s.hosts
    case Commit(item, host, reading) =>
      && reading <= item.key.deadline && host in s.hosts
      && item.id in s.db && s.db[item.id].hostID == host
    case _ => true
  }

  /** The record names a registered host and exactly the socket data that the host's answer held. */
  ghost predicate Settled(s: Sys, id: string)
    requires id in s.db
  {
    && id in s.hist.answers
    && s.db[id].hostID == s.hist.answers[id].host && s.db[id].hostID in s.hosts
    && s.db[id].vsockCID == s.hist.answers[id].reply.cid
    && s.db[id].vmAgentSocket == s.hist.answers[id].reply.socket
  }

  ghost predicate RecordFact(s: Sys, id: string) {
    && s.hist.placed[id] <= 1
    && (id !in s.db || s.db[id].state == Queued ==> s.hist.placed[id] == 0)
    && (id in s.db ==> s.db[id].state in {Queued, Provisioning, Running, Draining, Failed})
    && (id in s.db && s.db[id].state == Running ==> Settled(s, id))
  }

  ghost predicate Facts(s: Sys) {
    && "" !in s.hosts
    && DispatcherFact(s)
    && (forall n :: n in s.calls ==> CallFact(s, s.calls[n]))
    && (forall id :: RecordFact(s, id))
  }

  // ---------- Frames ----------

  /** As far as facts can tell, nothing about sandbox x differs between the two states. */
  ghost predicate SameFor(s: Sys, s': Sys, x: string) {
    && (x in s.db <==> x in s'.db)
    && (x in s.db ==>
          && s'.db[x].hostID == s.db[x].hostID && s'.db[x].vsockCID == s.db[x].vsockCID
          && s'.db[x].vmAgentSocket == s.db[x].vmAgentSocket)
    && s'.hist.placed[x] == s.hist.placed[x]
    && (x in s.hist.answers ==> x in s'.hist.answers && s'.hist.answers[x] == s.hist.answers[x])
  }

  ghost predicate SameState(s: Sys, s': Sys, x: string) {
    x in s.db && x in s'.db ==> s'.db[x].state == s.db[x].state
  }

  lemma CallFactKept(s: Sys, s': Sys, c: Call)
    requires CallFact(s, c) && s.hosts.Keys <= s'.hosts.Keys
    requires Places(c).Some? ==> SameFor(s, s', Places(c).value)
    ensures CallFact(s', c)
  {
  }

  lemma RecordFactKept(s: Sys, s': Sys, x: string)
    requires RecordFact(s, x) && s.hosts.Keys <= s'.hosts.Keys && SameFor(s, s', x) && SameState(s, s', x)
    ensures RecordFact(s', x)
  {
  }

  /** Only sandbox id and call n differ, apart from the dispatch loop. */
  ghost predicate Frame(s: Sys, s': Sys, id: string, n: nat) {
    && s'.hosts == s.hosts
    && (forall x :: x != id ==> SameFor(s, s', x) && SameState(s, s', x))
    && (forall m :: m in s'.calls && m != n ==> m in s.calls && s'.calls[m] == s.calls[m])
  }

  /** The changed sandbox, the changed call and the dispatch loop meet their facts. */
  ghost predicate LocalFacts(s: Sys, id: string, n: nat) {
    RecordFact(s, id) && DispatcherFact(s) && (n in s.calls ==> CallFact(s, s.calls[n]))
  }

  /** Another call can be concerned with id only if the change does not show in what calls rely on. */
  lemma FactsKept(s: Sys, s': Sys, id: string, n: nat)
    requires Facts(s) && Frame(s, s', id, n) && LocalFacts(s', id, n)
    requires SameFor(s, s', id) || forall m :: m in s.calls && m != n ==> Places(s.calls[m]) != Some(id)
    ensures Facts(s')
  {
    forall m | m in s'.calls ensures CallFact(s', s'.calls[m]) {
      if m != n {
        CallFactKept(s, s', s.calls[m]);
      }
    }
    forall x ensures RecordFact(s', x) {
      if x != id {
        RecordFactKept(s, s', x);
      }
    }
  }

  /** Whoever places sandbox id owns its record, so no other call does. */
  lemma SolePlacer(s: Sys, id: string, n: nat)
    requires Owned(s) && id in s.db
    requires s.db[id].state == Provisioning ==> n in s.calls && Places(s.calls[n]) == Some(id)
    ensures forall m :: m in s.calls && m != n ==> Places(s.calls[m]) != Some(id)
  {
    var r := RolesOf(s);
    assert OwnerFits(r, id, r.owner[id]);
    assert n in s.calls && Places(s.calls[n]) == Some(id) ==> n in r.placers && r.placers[n] == id;
    forall m | m in s.calls && Places(s.calls[m]) == Some(id) ensures m == n {
      assert m in r.placers && r.placers[m] == id;
    }
  }

  lemma NoPlacerOfUnknown(s: Sys, id: string)
    requires Owned(s) && id !in s.db
    ensures forall m :: m in s.calls ==> Places(s.calls[m]) != Some(id)
  {
    var r := RolesOf(s);
    forall m | m in s.calls ensures Places(s.calls[m]) != Some(id) {
      assert Places(s.calls[m]).Some? ==> m in r.placers;
    }
  }

  // ---------- Every step keeps the facts: what it changes, and that the change is right ----------

  /** The sandbox that a step is about; any other will do for a step that is about none. */
  function Subject(s: Sys, step: Step): string {
    match step
    case Post(n, p) => if p.PostInsert? then p.id else ""
    case Delete(n, d) => if d.DeleteDrain? && n in s.calls && s.calls[n].TerminateMove? then s.calls[n].id else ""
    case Dispatch(d) => if s.dispatcher.Idle? then "" else s.dispatcher.item.id
    case Placing(n, p) => if n in s.calls && Places(s.calls[n]).Some? then Places(s.calls[n]).value else ""
    case _ => ""
  }

  lemma PostFrame(s: Sys, n: nat, step: PostStep)
    requires PostEnabled(s, n, step)
    ensures
      var id, s' := Subject(s, Post(n, step)), DoPost(s, n, step);
      && Frame(s, s', id, n)
      && ((step.PostInsert? && id !in s.db) || SameFor(s, s', id))
  {
  }

  lemma PostLocal(s: Sys, n: nat, step: PostStep)
    requires PostEnabled(s, n, step) && LocalFacts(s, Subject(s, Post(n, step)), n)
    ensures LocalFacts(DoPost(s, n, step), Subject(s, Post(n, step)), n)
  {
  }

  lemma PostKeepsFacts(s: Sys, n: nat, step: PostStep)
    requires Owned(s) && Facts(s) && PostEnabled(s, n, step)
    ensures Facts(DoPost(s, n, step))
  {
    var id := Subject(s, Post(n, step));
    assert RecordFact(s, id);
    PostFrame(s, n, step);
    PostLocal(s, n, step);
    if id !in s.db {
      NoPlacerOfUnknown(s, id);
    }
    FactsKept(s, DoPost(s, n, step), id, n);
  }

  lemma DeleteFrame(s: Sys, n: nat, step: DeleteStep)
    requires DeleteEnabled(s, n, step)
    ensures
      var id, s' := Subject(s, Delete(n, step)), DoDelete(s, n, step);
      Frame(s, s', id, n) && SameFor(s, s', id)
  {
  }

  lemma DeleteLocal(s: Sys, n: nat, step: DeleteStep)
    requires DeleteEnabled(s, n, step) && LocalFacts(s, Subject(s, Delete(n, step)), n)
    ensures LocalFacts(DoDelete(s, n, step), Subject(s, Delete(n, step)), n)
  {
    if step.DeleteDrain? && s.calls[n].id in s.db && Legal(s.db[s.calls[n].id].state, Draining) {
      LegalClimbs(s.db[s.calls[n].id].state, Draining);
    }
  }

  lemma DeleteKeepsFacts(s: Sys, n: nat, step: DeleteStep)
    requires Facts(s) && DeleteEnabled(s, n, step)
    ensures Facts(DoDelete(s, n, step))
  {
    var id := Subject(s, Delete(n, step));
    assert RecordFact(s, id);
    DeleteFrame(s, n, step);
    DeleteLocal(s, n, step);
    FactsKept(s, DoDelete(s, n, step), id, n);
  }

  lemma DispatcherHoldsQueued(s: Sys)
    requires Owned(s) && !s.dispatcher.Idle?
    ensures s.dispatcher.item.id in s.db && s.db[s.dispatcher.item.id].state == Queued
  {
    var r := RolesOf(s);
    assert OwnerFits(r, s.dispatcher.item.id, AtDispatcher);
  }

  lemma DispatchFrame(s: Sys, step: DispatchStep, n: nat)
    requires DispatchEnabled(s, step) && n !in s.calls && (step.MarkProvisioning? ==> step.n == n)
    requires !s.dispatcher.Idle? ==> s.dispatcher.item.id in s.db && s.db[s.dispatcher.item.id].state == Queued
    ensures
      var id, s' := Subject(s, Dispatch(step)), DoDispatch(s, step);
      Frame(s, s', id, n) && (s.dispatcher.Idle? ==> SameFor(s, s', id))
  {
    forall x ensures
      var id, s' := Subject(s, Dispatch(step)), DoDispatch(s, step);
      (x != id ==> SameFor(s, s', x) && SameState(s, s', x)) && (s.dispatcher.Idle? ==> SameFor(s, s', x))
    {
      DispatchOnOthers(s, step, x);
    }
  }

  lemma DispatchOnOthers(s: Sys, step: DispatchStep, x: string)
    requires DispatchEnabled(s, step)
    requires !s.dispatcher.Idle? ==> s.dispatcher.item.id in s.db && s.db[s.dispatcher.item.id].state == Queued
    ensures
      var id, s' := Subject(s, Dispatch(step)), DoDispatch(s, step);
      && (x != id ==> SameFor(s, s', x) && SameState(s, s', x))
      && (s.dispatcher.Idle? ==> SameFor(s, s', x))
  {
    match step
    case PopFirst(item) =>
    case MarkExpired =>
    case PushBack =>
    case SaveHost =>
    case MarkProvisioning(n) =>
    case _ =>
  }

  lemma DispatchLocal(s: Sys, step: DispatchStep, n: nat)
    requires DispatchEnabled(s, step) && n !in s.calls && (step.MarkProvisioning? ==> step.n == n)
    requires LocalFacts(s, Subject(s, Dispatch(step)), n)
    requires !s.dispatcher.Idle? ==> s.dispatcher.item.id in s.db && s.db[s.dispatcher.item.id].state == Queued
    ensures LocalFacts(DoDispatch(s, step), Subject(s, Dispatch(step)), n)
  {
    match step
    case MarkExpired => ExpiryLocal(s, n);
    case SaveHost => SaveLocal(s, n);
    case MarkProvisioning(k) => CommitLocal(s, n);
    case _ =>
  }

  lemma ExpiryLocal(s: Sys, n: nat)
    requires DispatchEnabled(s, MarkExpired) && n !in s.calls && LocalFacts(s, s.dispatcher.item.id, n)
    requires s.dispatcher.item.id in s.db && s.db[s.dispatcher.item.id].state == Queued
    ensures LocalFacts(DoDispatch(s, MarkExpired), s.dispatcher.item.id, n)
  {
  }

  lemma SaveLocal(s: Sys, n: nat)
    requires DispatchEnabled(s, SaveHost) && n !in s.calls && LocalFacts(s, s.dispatcher.item.id, n)
    requires s.dispatcher.item.id in s.db && s.db[s.dispatcher.item.id].state == Queued
    ensures LocalFacts(DoDispatch(s, SaveHost), s.dispatcher.item.id, n)
  {
  }

  lemma CommitLocal(s: Sys, n: nat)
    requires DispatchEnabled(s, MarkProvisioning(n)) && LocalFacts(s, s.dispatcher.item.id, n)
    requires s.dispatcher.item.id in s.db && s.db[s.dispatcher.item.id].state == Queued
    ensures LocalFacts(DoDispatch(s, MarkProvisioning(n)), s.dispatcher.item.id, n)
  {
    var d := s.dispatcher;
    var s' := DoDispatch(s, MarkProvisioning(n));
    Committed(s, n);
    assert CallFact(s', s'.calls[n]);
    assert RecordFact(s', d.item.id);
  }

  /** The dispatch loop's transition out of Queued succeeds, and starts the placement. */
  lemma Committed(s: Sys, n: nat)
    requires DispatchEnabled(s, MarkProvisioning(n))
    requires s.dispatcher.item.id in s.db && s.db[s.dispatcher.item.id].state == Queued
    ensures
      var d, s' := s.dispatcher, DoDispatch(s, MarkProvisioning(n));
      && s'.db == s.db[d.item.id := s.db[d.item.id].(state := Provisioning, updatedAt := s.clock)]
      && s'.dispatcher.Idle? && s'.hosts == s.hosts
      && s'.calls == s.calls[n := Place(d.item, d.host, d.reading)]
      && s'.hist.placed == s.hist.placed && s'.hist.answers == s.hist.answers
  {
  }

  lemma DispatchKeepsFacts(s: Sys, step: DispatchStep)
    requires Owned(s) && Facts(s) && DispatchEnabled(s, step)
    ensures Facts(DoDispatch(s, step))
  {
    var unused := Tally.Unused(s.calls.Keys);
    if step.MarkProvisioning? {
      unused := step.n;
    }
    var id := Subject(s, Dispatch(step));
    assert RecordFact(s, id);
    if !s.dispatcher.Idle? {
      DispatcherHoldsQueued(s);
      SolePlacer(s, id, unused);
    }
    DispatchFrame(s, step, unused);
    DispatchLocal(s, step, unused);
    FactsKept(s, DoDispatch(s, step), id, unused);
  }

  /** A placement step touches only its own call and the record it places. */
  lemma PlacementFrame(s: Sys, n: nat, step: PlacementStep)
    requires PlacementEnabled(s, n, step)
    ensures Frame(s, DoPlacement(s, n, step), s.calls[n].item.id, n)
  {
  }

  lemma PlacementLocal(s: Sys, n: nat, step: PlacementStep)
    requires PlacementEnabled(s, n, step)
    requires s.calls[n].item.id in s.db && s.db[s.calls[n].item.id].state == Provisioning
    requires LocalFacts(s, s.calls[n].item.id, n)
    ensures LocalFacts(DoPlacement(s, n, step), s.calls[n].item.id, n)
  {
  }

  lemma PlacementKeepsFacts(s: Sys, n: nat, step: PlacementStep)
    requires Owned(s) && Facts(s) && PlacementEnabled(s, n, step)
    ensures Facts(DoPlacement(s, n, step))
  {
    var id := s.calls[n].item.id;
    PlacerHoldsProvisioning(s, n);
    SolePlacer(s, id, n);
    assert RecordFact(s, id);
    PlacementFrame(s, n, step);
    PlacementLocal(s, n, step);
    FactsKept(s, DoPlacement(s, n, step), id, n);
  }

  lemma PlacerHoldsProvisioning(s: Sys, n: nat)
    requires Owned(s) && n in s.calls && Places(s.calls[n]).Some?
    ensures Places(s.calls[n]).value in s.db && s.db[Places(s.calls[n]).value].state == Provisioning
  {
    var r := RolesOf(s);
    assert n in r.placers;
    assert OwnerFits(r, r.placers[n], r.owner[r.placers[n]]);
  }

  lemma ExecLocal(s: Sys, n: nat, step: ExecStep)
    requires ExecEnabled(s, n, step)
    requires LocalFacts(s, if n in s.calls && s.calls[n].ExecGet? then s.calls[n].id else "", n)
    requires "" !in s.hosts
    ensures Frame(s, DoExec(s, n, step), "", n)
    ensures LocalFacts(DoExec(s, n, step), if n in s.calls && s.calls[n].ExecGet? then s.calls[n].id else "", n)
    ensures SameFor(s, DoExec(s, n, step), "")
  {
    var c := DoExec(s, n, step).calls[n];
    assert DoExec(s, n, step) == At(s, n, c);
    ExecCall(s, n, step);
    OnlyCallMoves(s, n, c, if n in s.calls && s.calls[n].ExecGet? then s.calls[n].id else "");
  }

  lemma ExecCall(s: Sys, n: nat, step: ExecStep)
    requires ExecEnabled(s, n, step)
    requires LocalFacts(s, if n in s.calls && s.calls[n].ExecGet? then s.calls[n].id else "", n)
    requires "" !in s.hosts
    ensures CallFact(s, DoExec(s, n, step).calls[n])
  {
    match step
    case ExecReadRecord => ReadLocal(s, n);
    case _ =>
  }

  lemma OnlyCallMoves(s: Sys, n: nat, c: Call, id: string)
    requires RecordFact(s, id) && DispatcherFact(s) && CallFact(s, c)
    ensures LocalFacts(At(s, n, c), id, n) && Frame(s, At(s, n, c), "", n) && SameFor(s, At(s, n, c), "")
  {
  }

  /** A Running record names a registered host. */
  lemma ReadLocal(s: Sys, n: nat)
    requires ExecEnabled(s, n, ExecReadRecord) && RecordFact(s, s.calls[n].id) && "" !in s.hosts
    ensures CallFact(s, DoExec(s, n, ExecReadRecord).calls[n])
  {
  }

  lemma ExecKeepsFacts(s: Sys, n: nat, step: ExecStep)
    requires Facts(s) && ExecEnabled(s, n, step)
    ensures Facts(DoExec(s, n, step))
  {
    var id := if n in s.calls && s.calls[n].ExecGet? then s.calls[n].id else "";
    assert RecordFact(s, id) && RecordFact(s, "");
    ExecLocal(s, n, step);
    RecordFactKept(s, DoExec(s, n, step), "");
    FactsKept(s, DoExec(s, n, step), "", n);
  }

  lemma EnvKeepsFacts(s: Sys, step: EnvStep)
    requires Facts(s) && EnvEnabled(s, step)
    ensures Facts(DoEnv(s, step))
  {
    var s' := DoEnv(s, step);
    forall n | n in s'.calls ensures CallFact(s', s'.calls[n]) {
      CallFactKept(s, s', s.calls[n]);
    }
    forall x ensures RecordFact(s', x) {
      assert RecordFact(s, x);
      RecordFactKept(s, s', x);
    }
  }

  lemma StepKeepsFacts(s: Sys, step: Step)
    requires Owned(s) && Facts(s) && Enabled(s, step)
    ensures Facts(Do(s, step))
  {
    match step
    case Post(n, p) => PostKeepsFacts(s, n, p);
    case Delete(n, d) => DeleteKeepsFacts(s, n, d);
    case Dispatch(d) => DispatchKeepsFacts(s, d);
    case Placing(n, p) => PlacementKeepsFacts(s, n, p);
    case Exec(n, e) => ExecKeepsFacts(s, n, e);
    case Env(e) => EnvKeepsFacts(s, e);
  }

  lemma {:induction false} RunKeepsFacts(s: Sys, steps: seq<Step>, end: Sys)
    requires Owned(s) && Facts(s) && Runs(s, steps, end)
    ensures Facts(end)
    decreases |steps|
  {
    if steps != [] {
      StepKeepsOwned(s, steps[0]);
      StepKeepsFacts(s, steps[0]);
      RunKeepsFacts(Do(s, steps[0]), steps[1..], end);
    }
  }

  lemma AlwaysFacts(s: Sys)
    requires Reachable(s)
    ensures Facts(s)
  {
    var init, steps :| Init(init) && Runs(init, steps, s);
    assert RolesOf(init) == Roles(map[], map[], map[], multiset{}, None, map[]);
    RunKeepsFacts(init, steps, s);
  }

  // ---------- Main results ----------

  /** PlaceSandbox is called at most once per sandbox ID, and not before the record has left Queued. */
  lemma PlacedAtMostOnce(s: Sys, id: string)
    requires Reachable(s)
    ensures s.hist.placed[id] <= 1
    ensures id !in s.db || s.db[id].state == Queued ==> s.hist.placed[id] == 0
  {
    AlwaysFacts(s);
    assert RecordFact(s, id);
  }

  /**
   A record enters Provisioning only from Queued, by the dispatch loop, with a clock reading at or
   before the request's deadline and with the host that the record names.
   */
  lemma ProvisioningOnlyInTime(s: Sys, step: Step, id: string)
    requires Reachable(s) && Enabled(s, step)
    requires id in Do(s, step).db && Do(s, step).db[id].state == Provisioning
    requires id !in s.db || s.db[id].state != Provisioning
    ensures step.Dispatch? && s.dispatcher.Commit? && s.dispatcher.item.id == id
    ensures s.dispatcher.reading <= s.dispatcher.item.key.deadline
    ensures id in s.db && s.db[id].state == Queued
    ensures s.db[id].hostID == s.dispatcher.host && s.dispatcher.host in s.hosts
  {
    AlwaysFacts(s);
    AlwaysOwned(s);
    if !s.dispatcher.Idle? {
      DispatcherHoldsQueued(s);
    }
    EntersProvisioning(s, step, id);
  }

  lemma EntersProvisioning(s: Sys, step: Step, id: string)
    requires Enabled(s, step)
    requires !s.dispatcher.Idle? ==> s.dispatcher.item.id in s.db && s.db[s.dispatcher.item.id].state == Queued
    requires id in Do(s, step).db && Do(s, step).db[id].state == Provisioning
    requires id !in s.db || s.db[id].state != Provisioning
    ensures step.Dispatch? && s.dispatcher.Commit? && s.dispatcher.item.id == id
  {
    match step
    case Post(n, p) => PostDoesNotProvision(s, n, p, id);
    case Delete(n, d) => DeleteDoesNotProvision(s, n, d, id);
    case Dispatch(d) => OnlyCommitProvisions(s, d, id);
    case Placing(n, p) => PlacementDoesNotProvision(s, n, p, id);
    case _ =>
  }

  lemma OnlyCommitProvisions(s: Sys, step: DispatchStep, id: string)
    requires DispatchEnabled(s, step)
    requires id in DoDispatch(s, step).db && DoDispatch(s, step).db[id].state == Provisioning
    requires id !in s.db || s.db[id].state != Provisioning
    ensures s.dispatcher.Commit? && s.dispatcher.item.id == id
  {
  }

  lemma PostDoesNotProvision(s: Sys, n: nat, step: PostStep, id: string)
    requires PostEnabled(s, n, step)
    requires id in DoPost(s, n, step).db && DoPost(s, n, step).db[id].state == Provisioning
    ensures id in s.db && s.db[id].state == Provisioning
  {
  }

  lemma DeleteDoesNotProvision(s: Sys, n: nat, step: DeleteStep, id: string)
    requires DeleteEnabled(s, n, step)
    requires id in DoDelete(s, n, step).db && DoDelete(s, n, step).db[id].state == Provisioning
    ensures id in s.db && s.db[id].state == Provisioning
  {
  }

  lemma PlacementDoesNotProvision(s: Sys, n: nat, step: PlacementStep, id: string)
    requires PlacementEnabled(s, n, step)
    requires id in DoPlacement(s, n, step).db && DoPlacement(s, n, step).db[id].state == Provisioning
    ensures id in s.db && s.db[id].state == Provisioning
  {
  }

  /** A Running record has a non-empty registered host and exactly its placement's socket data. */
  lemma RunningIsSettled(s: Sys, id: string)
    requires Reachable(s) && id in s.db && s.db[id].state == Running
    ensures Settled(s, id) && s.db[id].hostID != ""
  {
    AlwaysFacts(s);
    assert RecordFact(s, id);
  }

  /** No exec request ever finds its Running sandbox without a host, or with one that is not registered. */
  lemma ExecAlwaysFindsHost(s: Sys, n: nat)
    requires Reachable(s) && n in s.calls
    ensures s.calls[n] != Done(NoAssignedHost) && s.calls[n] != Done(HostNotFound)
    ensures s.calls[n].ExecSend? ==> s.calls[n].host in s.hosts
  {
    AlwaysFacts(s);
    assert CallFact(s, s.calls[n]);
  }

  /** No record is ever Terminated: nothing in the control plane moves a Draining record on. */
  lemma NothingTerminates(s: Sys, id: string)
    requires Reachable(s) && id in s.db
    ensures s.db[id].state in {Queued, Provisioning, Running, Draining, Failed}
  {
    AlwaysFacts(s);
    assert RecordFact(s, id);
  }
}

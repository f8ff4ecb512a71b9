/**
 Every record's history follows the transition table in every run of the control plane, whatever
 stale state a request acts on.
 */
module RecordHistories {
  import opened SandboxState
  import opened ControlPlane

  ghost predicate Evolves(db: Db, db': Db, id: string) {
    id in db ==>
      && id in db' && db'[id].tenant == db[id].tenant
      && (db'[id].state == db[id].state || Legal(db[id].state, db'[id].state))
  }

  lemma MoveEvolves(db: Db, id: string, expected: State, to: State, reason: string, now: int, x: string)
    ensures Evolves(db, MoveIn(db, id, expected, to, reason, now).0, x)
    ensures x in MoveIn(db, id, expected, to, reason, now).0 <==> x in db
  {
  }

  lemma PostEvolves(s: Sys, n: nat, step: PostStep, id: string)
    requires PostEnabled(s, n, step)
    ensures Evolves(s.db, DoPost(s, n, step).db, id)
  {
  }

  lemma DeleteEvolves(s: Sys, n: nat, step: DeleteStep, id: string)
    requires DeleteEnabled(s, n, step)
    ensures Evolves(s.db, DoDelete(s, n, step).db, id)
    ensures id in DoDelete(s, n, step).db <==> id in s.db
  {
    if step.DeleteDrain? {
      MoveEvolves(s.db, s.calls[n].id, s.calls[n].seen, Draining, "client requested kill", s.clock, id);
    }
  }

  lemma DispatchEvolves(s: Sys, step: DispatchStep, id: string)
    requires DispatchEnabled(s, step)
    ensures Evolves(s.db, DoDispatch(s, step).db, id)
    ensures id in DoDispatch(s, step).db <==> id in s.db
  {
    if step.MarkExpired? {
      MoveEvolves(s.db, s.dispatcher.item.id, Queued, Failed, "deadline exceeded", s.clock, id);
    } else if step.MarkProvisioning? {
      MoveEvolves(s.db, s.dispatcher.item.id, Queued, Provisioning, "", s.clock, id);
    }
  }

  lemma PlacementEvolves(s: Sys, n: nat, step: PlacementStep, id: string)
    requires PlacementEnabled(s, n, step)
    ensures Evolves(s.db, DoPlacement(s, n, step).db, id)
    ensures id in DoPlacement(s, n, step).db <==> id in s.db
  {
    var x := s.calls[n].item.id;
    if step.MarkRunning? {
      MoveEvolves(s.db, x, Provisioning, Running, "", s.clock, id);
    } else if step.MarkFailed? {
      MoveEvolves(s.db, x, Provisioning, Failed, s.calls[n].reason, s.clock, id);
    }
  }

  lemma StepEvolves(s: Sys, step: Step, id: string)
    requires Enabled(s, step)
    ensures Evolves(s.db, Do(s, step).db, id)
  {
    match step
    case Post(n, p) => PostEvolves(s, n, p, id);
    case Delete(n, d) => DeleteEvolves(s, n, d, id);
    case Dispatch(d) => DispatchEvolves(s, d, id);
    case Placing(n, p) => PlacementEvolves(s, n, p, id);
    case Exec(n, e) =>
    case Env(e) =>
  }

  /** The states that sandbox id passes through while the steps run, repetitions left out. */
  ghost function History(s: Sys, steps: seq<Step>, id: string): seq<Edge>
    decreases |steps|
  {
    if steps == [] || !Enabled(s, steps[0]) then []
    else
      var next := Do(s, steps[0]);
      var rest := History(next, steps[1..], id);
      if id in s.db && id in next.db && next.db[id].state != s.db[id].state
      then [Edge(s.db[id].state, next.db[id].state)] + rest
      else rest
  }

  /**
   In any run of the whole control plane, stale reads included, a record is never lost and its states
   follow the transition table; by PathClimbs they climb in rank, so each change happens at most once.
   */
  lemma {:induction false} RunFollowsTable(s: Sys, steps: seq<Step>, end: Sys, id: string)
    requires Runs(s, steps, end) && id in s.db
    ensures id in end.db && end.db[id].tenant == s.db[id].tenant
    ensures IsPath(s.db[id].state, History(s, steps, id), end.db[id].state)
    decreases |steps|
  {
    if steps != [] {
      var next := Do(s, steps[0]);
      StepEvolves(s, steps[0], id);
      RunFollowsTable(next, steps[1..], end, id);
      var rest := History(next, steps[1..], id);
      assert ([Edge(s.db[id].state, next.db[id].state)] + rest)[1..] == rest;
    }
  }

  /** So: at most four changes, each at most once; a terminal record keeps its state; Draining follows Running. */
  lemma RunIsSafe(s: Sys, steps: seq<Step>, end: Sys, id: string)
    requires Runs(s, steps, end) && id in s.db
    ensures
      var h := History(s, steps, id);
      && |h| <= 4
      && (forall i, j :: 0 <= i < j < |h| ==> h[i] != h[j])
      && (forall i :: 0 <= i < |h| && h[i].to == Draining ==> h[i].from == Running)
      && (IsTerminal(s.db[id].state) ==> id in end.db && end.db[id].state == s.db[id].state)
  {
    RunFollowsTable(s, steps, end, id);
    PathClimbs(s.db[id].state, History(s, steps, id), end.db[id].state);
    assert Rank(end.db[id].state) <= 4;
  }

  /** Terminate never moves a sandbox out of Queued or Provisioning: its registry call fails there. */
  lemma TerminateFailsUnlessRunning(s: Sys, n: nat)
    requires DeleteEnabled(s, n, DeleteDrain)
    ensures
      var c := s.calls[n];
      var s' := DoDelete(s, n, DeleteDrain);
      if c.id in s.db && s.db[c.id].state == Running && c.seen == Running
      then s'.calls[n].ReleaseLoad? && s'.db[c.id].state == Draining
      else s'.calls[n] == Done(KillFailed) && s'.db == s.db
  {
    if s.calls[n].id in s.db && Legal(s.db[s.calls[n].id].state, Draining) {
      LegalClimbs(s.db[s.calls[n].id].state, Draining);
    }
  }
}

/**
 Which deletes release a slot for the first time: a sandbox has given its slot back exactly when some
 delete of it has completed.
 */
module QuotaReleases {
  import opened SandboxState
  import opened ControlPlane
  import opened RecordHistories
  import opened QuotaSafety
  import PlacementSafety

  /** Call n is a delete of sandbox id that has been answered with success. */
  predicate Completed(calls: map<nat, Call>, n: nat, id: string) {
    n in calls && calls[n].Done? && calls[n].outcome.Killed? && calls[n].outcome.id == id
  }

  ghost predicate Deleted(calls: map<nat, Call>, id: string) {
    exists n :: Completed(calls, n, id)
  }

  /** Another delete of the same sandbox has completed as well. */
  ghost predicate DeletedTwice(calls: map<nat, Call>, n: nat, id: string) {
    Completed(calls, n, id) && exists m :: m != n && Completed(calls, m, id)
  }

  /** What a verdict says of its call, and of the sandbox that the call deleted. */
  ghost predicate FiledFact(s: Sys, n: nat) {
    n in s.hist.verdicts ==>
      && n in s.calls && s.calls[n].Done? && s.calls[n].outcome.Killed?
      && var (t, id) := (s.calls[n].outcome.tenant, s.calls[n].outcome.id);
      && OfTenant(s.db, id, t) && !IsLive(s.db[id].state)
      && (s.hist.verdicts[n].Repeated? ==>
            && s.hist.verdicts[n].tenant == t && s.db[id].state != Draining
            && DeletedTwice(s.calls, n, id))
  }

  ghost predicate GivenFact(s: Sys, id: string) {
    && (id in s.db ==> (id !in s.hist.slots <==> Deleted(s.calls, id)))
    && (Deleted(s.calls, id) ==> id in s.db)
  }

  ghost predicate Filed(s: Sys) {
    && (forall n :: FiledFact(s, n))
    && (forall id :: GivenFact(s, id))
  }

  // ---------- Steps keep the verdicts right ----------

  /** Call n moves on without ending a delete; every other call stays as it is. */
  ghost predicate MovesOn(s: Sys, s': Sys, n: nat) {
    && s'.hist.verdicts == s.hist.verdicts
    && (forall m :: m in s.calls ==> m in s'.calls)
    && (forall m :: m in s'.calls && m != n ==> m in s.calls && s'.calls[m] == s.calls[m])
    && (n in s.calls ==> s'.calls[n] == s.calls[n] || !s.calls[n].Done?)
    && (n in s'.calls ==> (n in s.calls && s'.calls[n] == s.calls[n]) || !s'.calls[n].Done?
                          || !s'.calls[n].outcome.Killed?)
  }

  lemma CompletedSame(s: Sys, s': Sys, n: nat, m: nat, id: string)
    requires MovesOn(s, s', n)
    ensures Completed(s'.calls, m, id) <==> Completed(s.calls, m, id)
  {
  }

  lemma DeletedSame(s: Sys, s': Sys, n: nat, id: string)
    requires MovesOn(s, s', n)
    ensures Deleted(s'.calls, id) <==> Deleted(s.calls, id)
  {
    forall m ensures Completed(s'.calls, m, id) <==> Completed(s.calls, m, id) {
      CompletedSame(s, s', n, m, id);
    }
  }

  lemma FiledFactKept(s: Sys, s': Sys, n: nat, m: nat)
    requires FiledFact(s, m) && MovesOn(s, s', n) && forall id :: Evolves(s.db, s'.db, id)
    ensures FiledFact(s', m)
  {
    if m in s.hist.verdicts {
      var id := s.calls[m].outcome.id;
      assert Evolves(s.db, s'.db, id);
      if s'.db[id].state != s.db[id].state { NotLiveStays(s.db[id].state, s'.db[id].state); }
      CompletedSame(s, s', n, m, id);
      if s.hist.verdicts[m].Repeated? {
        var k :| k != m && Completed(s.calls, k, id);
        CompletedSame(s, s', n, k, id);
      }
    }
  }

  /** A step that ends no delete; it may add the slot of a new sandbox. */
  lemma FiledKept(s: Sys, s': Sys, n: nat)
    requires Filed(s) && MovesOn(s, s', n)
    requires forall id :: Evolves(s.db, s'.db, id)
    requires forall id :: id in s'.db && id !in s.db ==> id in s'.hist.slots
    requires forall id :: id in s.db ==> (id in s'.hist.slots <==> id in s.hist.slots)
    ensures Filed(s')
  {
    forall m ensures FiledFact(s', m) {
      FiledFactKept(s, s', n, m);
    }
    forall id ensures GivenFact(s', id) {
      assert GivenFact(s, id) && Evolves(s.db, s'.db, id);
      DeletedSame(s, s', n, id);
    }
  }

  /** Call n ends a delete of sandbox id, with the verdict that the slot calls for. */
  lemma DeleteEnds(s: Sys, s': Sys, n: nat, verdict: Verdict)
    requires Filed(s) && Slots(s) && n in s.calls && Releases(s.calls[n]).Some?
    requires
      var (t, id) := (s.calls[n].tenant, s.calls[n].id);
      && s'.db == s.db && s'.calls == s.calls[n := Done(Killed(t, id))]
      && s'.hist.slots == s.hist.slots - {id} && s'.hist.verdicts == s.hist.verdicts[n := verdict]
      && (verdict.Repeated? ==> id !in s.hist.slots && verdict.tenant == t)
    ensures Filed(s')
  {
    var id := s.calls[n].id;
    assert KillFact(s.db, s.hist.slots, s.calls[n]) && GivenFact(s, id);
    assert Completed(s'.calls, n, id);
    forall m, x | m != n ensures Completed(s'.calls, m, x) <==> Completed(s.calls, m, x) {
    }
    forall m ensures FiledFact(s', m) {
      assert FiledFact(s, m);
      if m != n && m in s.hist.verdicts && s.hist.verdicts[m].Repeated? {
        var k :| k != m && Completed(s.calls, k, s.calls[m].outcome.id);
        assert k != n && Completed(s'.calls, k, s.calls[m].outcome.id);
      }
      if m == n && verdict.Repeated? {
        var k :| Completed(s.calls, k, id);
        assert k != n && Completed(s'.calls, k, id);
      }
    }
    forall x ensures GivenFact(s', x) {
      DeletedAfter(s, s', n, x);
      assert GivenFact(s, x);
    }
  }

  lemma DeletedAfter(s: Sys, s': Sys, n: nat, x: string)
    requires n in s.calls && Releases(s.calls[n]).Some?
    requires s'.calls == s.calls[n := Done(Killed(s.calls[n].tenant, s.calls[n].id))]
    ensures Deleted(s'.calls, x) <==> Deleted(s.calls, x) || x == s.calls[n].id
  {
    assert x == s.calls[n].id ==> Completed(s'.calls, n, x);
    if m :| Completed(s'.calls, m, x) {
      assert m != n ==> Completed(s.calls, m, x);
    }
    if m :| Completed(s.calls, m, x) {
      assert Completed(s'.calls, m, x);
    }
  }

  lemma PostKeepsFiled(s: Sys, n: nat, step: PostStep)
    requires Filed(s) && PostEnabled(s, n, step)
    ensures Filed(DoPost(s, n, step))
  {
    forall id ensures Evolves(s.db, DoPost(s, n, step).db, id) {
      PostEvolves(s, n, step, id);
    }
    FiledKept(s, DoPost(s, n, step), n);
  }

  lemma DispatchKeepsFiled(s: Sys, step: DispatchStep)
    requires Filed(s) && DispatchEnabled(s, step)
    ensures Filed(DoDispatch(s, step))
  {
    var s' := DoDispatch(s, step);
    forall id ensures Evolves(s.db, s'.db, id) && (id in s'.db <==> id in s.db) {
      DispatchEvolves(s, step, id);
    }
    var n := DispatchMovesOn(s, step);
    FiledKept(s, s', n);
  }

  lemma DispatchMovesOn(s: Sys, step: DispatchStep) returns (n: nat)
    requires DispatchEnabled(s, step)
    ensures MovesOn(s, DoDispatch(s, step), n) && DoDispatch(s, step).hist.slots == s.hist.slots
  {
    DispatchOnCalls(s, step);
    n := if step.MarkProvisioning? then step.n else 0;
  }

  lemma PlacementKeepsFiled(s: Sys, n: nat, step: PlacementStep)
    requires Filed(s) && PlacementEnabled(s, n, step)
    ensures Filed(DoPlacement(s, n, step))
  {
    var s' := DoPlacement(s, n, step);
    forall id ensures Evolves(s.db, s'.db, id) && (id in s'.db <==> id in s.db) {
      PlacementEvolves(s, n, step, id);
    }
    FiledKept(s, DoPlacement(s, n, step), n);
  }

  lemma DeleteKeepsFiled(s: Sys, n: nat, step: DeleteStep)
    requires Filed(s) && Slots(s) && DeleteEnabled(s, n, step)
    ensures Filed(DoDelete(s, n, step))
  {
    var s' := DoDelete(s, n, step);
    if n in s.calls && Releases(s.calls[n]).Some? && s'.calls[n].Done? {
      DeleteEnds(s, s', n, s'.hist.verdicts[n]);
    } else {
      forall id ensures Evolves(s.db, s'.db, id) && (id in s'.db <==> id in s.db) {
        DeleteEvolves(s, n, step, id);
      }
      FiledKept(s, s', n);
    }
  }

  lemma StepKeepsFiled(s: Sys, step: Step)
    requires Filed(s) && Slots(s) && Enabled(s, step)
    ensures Filed(Do(s, step))
  {
    match step
    case Post(n, p) => PostKeepsFiled(s, n, p);
    case Delete(n, d) => DeleteKeepsFiled(s, n, d);
    case Dispatch(d) => DispatchKeepsFiled(s, d);
    case Placing(n, p) => PlacementKeepsFiled(s, n, p);
    case Exec(n, e) => ExecKeepsFiled(s, n, e);
    case Env(e) => EnvKeepsFiled(s, e);
  }

  lemma ExecKeepsFiled(s: Sys, n: nat, step: ExecStep)
    requires Filed(s) && ExecEnabled(s, n, step)
    ensures Filed(DoExec(s, n, step))
  {
    FiledKept(s, DoExec(s, n, step), n);
  }

  lemma EnvKeepsFiled(s: Sys, step: EnvStep)
    requires Filed(s) && EnvEnabled(s, step)
    ensures Filed(DoEnv(s, step))
  {
    FiledKept(s, DoEnv(s, step), 0);
  }

  lemma {:induction false} RunKeepsFiled(s: Sys, steps: seq<Step>, end: Sys)
    requires Filed(s) && Slots(s) && Runs(s, steps, end)
    ensures Filed(end) && Slots(end)
    decreases |steps|
  {
    if steps != [] {
      StepKeepsFiled(s, steps[0]);
      StepKeepsSlots(s, steps[0]);
      RunKeepsFiled(Do(s, steps[0]), steps[1..], end);
    }
  }

  lemma AlwaysFiled(s: Sys)
    requires Reachable(s)
    ensures Filed(s) && Slots(s)
  {
    var init, steps :| Init(init) && Runs(init, steps, s);
    RunKeepsFiled(init, steps, s);
  }

  // ---------- Main results ----------

  /** A sandbox still holds the slot that its creation acquired exactly until a delete of it has completed. */
  lemma SlotHeldUntilDeleted(s: Sys, id: string)
    requires Reachable(s) && id in s.db
    ensures id in s.hist.slots <==> !Deleted(s.calls, id)
  {
    AlwaysFiled(s);
    assert GivenFact(s, id);
  }

  /**
   A delete's decrement gives back a slot that was given back before if and only if an earlier delete
   of the same sandbox has completed; the sandbox has then Failed.
   */
  lemma ReleaseRepeatsExactly(s: Sys, n: nat)
    requires Reachable(s) && DeleteEnabled(s, n, DeleteSubtractOne)
    ensures
      var c := s.calls[n];
      var verdict := DoDelete(s, n, DeleteSubtractOne).hist.verdicts[n];
      && (verdict == Repeated(c.tenant) <==> Deleted(s.calls, c.id))
      && (verdict == Returned <==> !Deleted(s.calls, c.id))
      && (Deleted(s.calls, c.id) ==> c.id in s.db && s.db[c.id].state == Failed)
  {
    var id := s.calls[n].id;
    AlwaysFiled(s);
    assert KillFact(s.db, s.hist.slots, s.calls[n]) && GivenFact(s, id);
    PlacementSafety.NothingTerminates(s, id);
  }

  /** Behind every repeated release are two completed deletes of one Failed sandbox of that tenant. */
  lemma RepeatedMeansDeletedTwice(s: Sys, n: nat, t: string) returns (id: string)
    requires Reachable(s) && n in s.hist.verdicts && s.hist.verdicts[n] == Repeated(t)
    ensures DeletedTwice(s.calls, n, id)
    ensures id in s.db && s.db[id].tenant == t && s.db[id].state == Failed
  {
    AlwaysFiled(s);
    assert FiledFact(s, n);
    id := s.calls[n].outcome.id;
    PlacementSafety.NothingTerminates(s, id);
  }
}

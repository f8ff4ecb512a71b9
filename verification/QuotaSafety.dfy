/**
 Which sandboxes still hold the quota slot that their creation acquired: a live one always does, and a
 Draining one is about to have it released by at most one delete.
 */
module QuotaSafety {
  import opened Results
  import opened SandboxState
  import opened ControlPlane
  import opened RecordHistories

  // ---------- Which sandboxes still hold their slot ----------

  /** The sandbox whose slot a delete request is about to give back. */
  function Releases(c: Call): Option<string> {
    match c
    case ReleaseLoad(_, id) => Some(id)
    case ReleaseDecrement(_, id) => Some(id)
    case _ => None
  }

  ghost predicate OfTenant(db: Db, id: string, t: string) {
    id in db && db[id].tenant == t
  }

  ghost predicate KillFact(db: Db, slots: map<string, string>, c: Call) {
    match c
    case TerminateGet(t, id) => OfTenant(db, id, t)
    case TerminateTell(t, id, _, _) => OfTenant(db, id, t)
    case TerminateMove(t, id, _) => OfTenant(db, id, t)
    case ReleaseLoad(t, id) =>
      OfTenant(db, id, t) && !IsLive(db[id].state) && (db[id].state == Draining ==> id in slots)
    case ReleaseDecrement(t, id) =>
      OfTenant(db, id, t) && !IsLive(db[id].state) && (db[id].state == Draining ==> id in slots)
    case ExecGet(t, id) => OfTenant(db, id, t)
    case ExecFind(t, id, _) => OfTenant(db, id, t)
    case ExecSend(t, id, _) => OfTenant(db, id, t)
    case _ => true
  }

  /** A slot belongs to the tenant of its sandbox, and a live sandbox still has its slot. */
  ghost predicate SlotFact(db: Db, slots: map<string, string>, id: string) {
    && (id in slots ==> OfTenant(db, id, slots[id]))
    && (id in db && IsLive(db[id].state) ==> id in slots)
  }

  /** A Draining sandbox was drained by exactly one request, and only that one releases it. */
  ghost predicate SoleReleaser(s: Sys, n: nat, m: nat) {
    n in s.calls && m in s.calls && Releases(s.calls[n]).Some? && Releases(s.calls[n]) == Releases(s.calls[m]) ==>
      var id := Releases(s.calls[n]).value;
      id in s.db && (s.db[id].state == Draining ==> n == m)
  }

  ghost predicate Slots(s: Sys) {
    && (forall id :: SlotFact(s.db, s.hist.slots, id))
    && (forall n :: n in s.calls ==> KillFact(s.db, s.hist.slots, s.calls[n]))
    && (forall n, m :: SoleReleaser(s, n, m))
  }

  // ---------- Steps keep the slots right ----------

  lemma NotLiveStays(from: State, to: State)
    requires Legal(from, to) && !IsLive(from)
    ensures !IsLive(to) && to != Draining
  {
  }

  lemma KillFactKept(db: Db, db': Db, slots: map<string, string>, slots': map<string, string>, c: Call)
    requires KillFact(db, slots, c) && forall id :: Evolves(db, db', id)
    requires Releases(c).Some? && Releases(c).value in slots ==>
               Releases(c).value in slots' || (Releases(c).value in db && db[Releases(c).value].state != Draining)
    ensures KillFact(db', slots', c)
  {
    match c
    case ReleaseLoad(t, id) =>
      assert Evolves(db, db', id);
      if db'[id].state != db[id].state { NotLiveStays(db[id].state, db'[id].state); }
    case ReleaseDecrement(t, id) =>
      assert Evolves(db, db', id);
      if db'[id].state != db[id].state { NotLiveStays(db[id].state, db'[id].state); }
    case TerminateGet(t, id) => assert Evolves(db, db', id);
    case TerminateTell(t, id, _, _) => assert Evolves(db, db', id);
    case TerminateMove(t, id, _) => assert Evolves(db, db', id);
    case ExecGet(t, id) => assert Evolves(db, db', id);
    case ExecFind(t, id, _) => assert Evolves(db, db', id);
    case ExecSend(t, id, _) => assert Evolves(db, db', id);
    case _ =>
  }

  lemma SlotFactKept(db: Db, db': Db, slots: map<string, string>, slots': map<string, string>, id: string)
    requires SlotFact(db, slots, id) && Evolves(db, db', id)
    requires id in slots' <==> id in slots
    requires id in slots ==> slots'[id] == slots[id]
    requires id in db' ==> id in db
    ensures SlotFact(db', slots', id)
  {
    if id in db && !IsLive(db[id].state) && db'[id].state != db[id].state {
      NotLiveStays(db[id].state, db'[id].state);
    }
  }

  /** The release that two requests share stays that of a sandbox that is not Draining, or of one request. */
  lemma SoleReleaserKept(s: Sys, s': Sys, n: nat, m: nat)
    requires SoleReleaser(s, n, m) && forall id :: Evolves(s.db, s'.db, id)
    requires n in s.calls && m in s.calls && n in s'.calls && m in s'.calls
    requires Releases(s'.calls[n]) == Releases(s.calls[n]) && Releases(s'.calls[m]) == Releases(s.calls[m])
    requires KillFact(s.db, s.hist.slots, s.calls[n])
    ensures SoleReleaser(s', n, m)
  {
    if Releases(s.calls[n]).Some? {
      var id := Releases(s.calls[n]).value;
      assert Evolves(s.db, s'.db, id);
      if id in s.db && s'.db[id].state != s.db[id].state { NotLiveStays(s.db[id].state, s'.db[id].state); }
    }
  }

  /**
   A step by call n (or by no call) that neither starts nor ends a release, apart from adding the slot
   of a new sandbox.
   */
  lemma SlotsKept(s: Sys, s': Sys, n: nat)
    requires Slots(s)
    requires forall id :: Evolves(s.db, s'.db, id)
    requires forall id :: SlotFact(s'.db, s'.hist.slots, id)
    requires forall id :: id in s.hist.slots ==> id in s'.hist.slots
    requires forall m :: m in s'.calls && m != n ==> m in s.calls && s'.calls[m] == s.calls[m]
    requires n in s'.calls ==> KillFact(s'.db, s'.hist.slots, s'.calls[n])
    requires n in s'.calls && Releases(s'.calls[n]).Some? ==>
               n in s.calls && Releases(s.calls[n]) == Releases(s'.calls[n])
    ensures Slots(s')
  {
    forall m | m in s'.calls ensures KillFact(s'.db, s'.hist.slots, s'.calls[m]) {
      if m != n {
        KillFactKept(s.db, s'.db, s.hist.slots, s'.hist.slots, s.calls[m]);
      }
    }
    forall k, m ensures SoleReleaser(s', k, m) {
      if k in s'.calls && m in s'.calls && Releases(s'.calls[k]).Some? && Releases(s'.calls[m]).Some? {
        assert SoleReleaser(s, k, m);
        SoleReleaserKept(s, s', k, m);
      }
    }
  }

  /** Call n starts to release sandbox id, which is not live, and which no other call releases if it is Draining. */
  lemma ReleaseStarts(s: Sys, s': Sys, n: nat, id: string)
    requires Slots(s)
    requires forall x :: Evolves(s.db, s'.db, x)
    requires forall x :: SlotFact(s'.db, s'.hist.slots, x)
    requires s'.hist.slots == s.hist.slots && n in s'.calls && s'.calls == s.calls[n := s'.calls[n]]
    requires Releases(s'.calls[n]) == Some(id) && KillFact(s'.db, s'.hist.slots, s'.calls[n]) && id in s.db
    requires s'.db[id].state == Draining ==> IsLive(s.db[id].state)
    ensures Slots(s')
  {
    forall m | m in s'.calls ensures KillFact(s'.db, s'.hist.slots, s'.calls[m]) {
      if m != n {
        KillFactKept(s.db, s'.db, s.hist.slots, s'.hist.slots, s.calls[m]);
      }
    }
    forall k, m ensures SoleReleaser(s', k, m) {
      if k in s'.calls && m in s'.calls
         && Releases(s'.calls[k]).Some? && Releases(s'.calls[m]) == Releases(s'.calls[k])
      {
        if k != n && m != n {
          assert SoleReleaser(s, k, m);
          SoleReleaserKept(s, s', k, m);
        } else {
          assert k != n ==> KillFact(s.db, s.hist.slots, s.calls[k]);
          assert m != n ==> KillFact(s.db, s.hist.slots, s.calls[m]);
        }
      }
    }
  }

  /** Call n gives the slot of its sandbox back, or finds it gone, and is done. */
  lemma ReleaseEnds(s: Sys, s': Sys, n: nat, outcome: Outcome)
    requires Slots(s) && n in s.calls && Releases(s.calls[n]).Some?
    requires s'.db == s.db && s'.calls == s.calls[n := Done(outcome)]
    requires s'.hist.slots == s.hist.slots - {Releases(s.calls[n]).value}
    ensures Slots(s')
  {
    var id := Releases(s.calls[n]).value;
    assert KillFact(s.db, s.hist.slots, s.calls[n]);
    forall x ensures SlotFact(s'.db, s'.hist.slots, x) {
      assert SlotFact(s.db, s.hist.slots, x);
    }
    forall m | m in s'.calls ensures KillFact(s'.db, s'.hist.slots, s'.calls[m]) {
      if m != n {
        assert SoleReleaser(s, n, m);
        KillFactKept(s.db, s'.db, s.hist.slots, s'.hist.slots, s.calls[m]);
      }
    }
    forall k, m ensures SoleReleaser(s', k, m) {
      assert SoleReleaser(s, k, m);
    }
  }

  lemma PostKeepsSlots(s: Sys, n: nat, step: PostStep)
    requires Slots(s) && PostEnabled(s, n, step)
    ensures Slots(DoPost(s, n, step))
  {
    var s' := DoPost(s, n, step);
    forall id ensures Evolves(s.db, s'.db, id) && SlotFact(s'.db, s'.hist.slots, id) {
      assert SlotFact(s.db, s.hist.slots, id);
      PostEvolves(s, n, step, id);
      if !(step.PostInsert? && step.id == id) {
        SlotFactKept(s.db, s'.db, s.hist.slots, s'.hist.slots, id);
      }
    }
    SlotsKept(s, s', n);
  }

  /** The dispatch loop touches neither counters nor slots, and at most starts a placement. */
  lemma DispatchOnCalls(s: Sys, step: DispatchStep)
    requires DispatchEnabled(s, step)
    ensures
      var s' := DoDispatch(s, step);
      && s'.quota == s.quota && s'.configuredLimit == s.configuredLimit && s'.hist.slots == s.hist.slots
      && s'.hist.verdicts == s.hist.verdicts
      && (s'.calls == s.calls ||
            (step.MarkProvisioning? && step.n !in s.calls && step.n in s'.calls && s'.calls[step.n].Place?
             && s'.calls == s.calls[step.n := s'.calls[step.n]]))
  {
    var s' := DoDispatch(s, step);
    if step.MarkProvisioning? {
      var d := s.dispatcher;
      assert s'.calls == s.calls || s'.calls == s.calls[step.n := Place(d.item, d.host, d.reading)];
    }
  }

  lemma DispatchKeepsSlots(s: Sys, step: DispatchStep)
    requires Slots(s) && DispatchEnabled(s, step)
    ensures Slots(DoDispatch(s, step))
  {
    var s' := DoDispatch(s, step);
    forall id ensures Evolves(s.db, s'.db, id) && SlotFact(s'.db, s'.hist.slots, id) {
      assert SlotFact(s.db, s.hist.slots, id);
      DispatchEvolves(s, step, id);
      SlotFactKept(s.db, s'.db, s.hist.slots, s'.hist.slots, id);
    }
    if step.MarkProvisioning? {
      SlotsKept(s, s', step.n);
    } else {
      if 0 in s.calls {
        KillFactKept(s.db, s'.db, s.hist.slots, s'.hist.slots, s.calls[0]);
      }
      SlotsKept(s, s', 0);
    }
  }

  lemma PlacementKeepsSlots(s: Sys, n: nat, step: PlacementStep)
    requires Slots(s) && PlacementEnabled(s, n, step)
    ensures Slots(DoPlacement(s, n, step))
  {
    var s' := DoPlacement(s, n, step);
    forall id ensures Evolves(s.db, s'.db, id) && SlotFact(s'.db, s'.hist.slots, id) {
      assert SlotFact(s.db, s.hist.slots, id);
      PlacementEvolves(s, n, step, id);
      SlotFactKept(s.db, s'.db, s.hist.slots, s'.hist.slots, id);
    }
    SlotsKept(s, s', n);
  }

  lemma DeleteKeepsSlots(s: Sys, n: nat, step: DeleteStep)
    requires Slots(s) && DeleteEnabled(s, n, step)
    ensures Slots(DoDelete(s, n, step))
  {
    var s' := DoDelete(s, n, step);
    assert n in s.calls ==> KillFact(s.db, s.hist.slots, s.calls[n]);
    if s'.calls[n].Done? && n in s.calls && Releases(s.calls[n]).Some? {
      ReleaseEnds(s, s', n, s'.calls[n].outcome);
      return;
    }
    forall id ensures Evolves(s.db, s'.db, id) && SlotFact(s'.db, s'.hist.slots, id) {
      assert SlotFact(s.db, s.hist.slots, id);
      DeleteEvolves(s, n, step, id);
      SlotFactKept(s.db, s'.db, s.hist.slots, s'.hist.slots, id);
    }
    if Releases(s'.calls[n]).Some? && !step.DeleteReadCounter? {
      if step.DeleteDrain? {
        TerminateFailsUnlessRunning(s, n);
        assert SlotFact(s.db, s.hist.slots, s.calls[n].id);
      }
      ReleaseStarts(s, s', n, s.calls[n].id);
    } else {
      SlotsKept(s, s', n);
    }
  }

  lemma StepKeepsSlots(s: Sys, step: Step)
    requires Slots(s) && Enabled(s, step)
    ensures Slots(Do(s, step))
  {
    match step
    case Post(n, p) => PostKeepsSlots(s, n, p);
    case Delete(n, d) => DeleteKeepsSlots(s, n, d);
    case Dispatch(d) => DispatchKeepsSlots(s, d);
    case Placing(n, p) => PlacementKeepsSlots(s, n, p);
    case Exec(n, e) => ExecKeepsSlots(s, n, e);
    case Env(e) => EnvKeepsSlots(s, e);
  }

  lemma ExecKeepsSlots(s: Sys, n: nat, step: ExecStep)
    requires Slots(s) && ExecEnabled(s, n, step)
    ensures Slots(DoExec(s, n, step))
  {
    SlotsKept(s, DoExec(s, n, step), n);
  }

  lemma EnvKeepsSlots(s: Sys, step: EnvStep)
    requires Slots(s) && EnvEnabled(s, step)
    ensures Slots(DoEnv(s, step))
  {
    SlotsKept(s, DoEnv(s, step), 0);
  }
}

/**
 The account of every tenant's quota counter in the control plane, and the bound on live sandboxes
 that follows from it.
 */
module QuotaAccount {
  import opened SandboxState
  import opened ControlPlane
  import opened QuotaReleases
  import opened QuotaSafety
  import opened Tally

  // The calls of tenant t that ...
  function OpenOf(t: string): Call -> bool {  // ... hold a slot for a record not created yet, or never to be
    (c: Call) => (c.CreateInsert? || c.CreateLeaked?) && c.tenant == t
  }

  function RollingOf(t: string): Call -> bool {  // ... have overshot the limit and not yet rolled back
    (c: Call) => c.CreateRollBack? && c.tenant == t
  }

  // The releases of tenant t that ...
  function AgainOf(t: string): Verdict -> bool {  // ... decremented for a slot that had been given back before
    (v: Verdict) => v == Repeated(t)
  }

  function LostOf(t: string): Verdict -> bool {  // ... gave a slot back without decrementing
    (v: Verdict) => v == Missed(t)
  }

  function SlotOf(t: string): string -> bool {
    (u: string) => u == t
  }

  ghost function Open(s: Sys, t: string): nat { Num(s.calls, OpenOf(t)) }

  ghost function Rolling(s: Sys, t: string): nat { Num(s.calls, RollingOf(t)) }

  ghost function Again(s: Sys, t: string): nat { Num(s.hist.verdicts, AgainOf(t)) }

  ghost function Lost(s: Sys, t: string): nat { Num(s.hist.verdicts, LostOf(t)) }

  ghost function Held(s: Sys, t: string): nat { Num(s.hist.slots, SlotOf(t)) }

  /** Where every unit of a tenant's counter comes from, whatever requests have been made. */
  ghost predicate Account(s: Sys, t: string) {
    && Count(s.quota, t) == Open(s, t) + Rolling(s, t) + Held(s, t) - Again(s, t) + Lost(s, t)
    && Open(s, t) + Held(s, t) + Lost(s, t) <= EffectiveLimit(s.configuredLimit) + Again(s, t)
    && (Again(s, t) == 0 ==> Lost(s, t) == 0)
  }

  // ---------- Every step keeps the account ----------

  function Weight<V>(m: map<nat, V>, n: nat, p: V -> bool): nat {
    Bit(n in m && p(m[n]))
  }

  /** Only call n moves, and only its verdict may be new. */
  ghost predicate OnlyCall(s: Sys, s': Sys, n: nat) {
    && n in s'.calls && s'.calls == s.calls[n := s'.calls[n]]
    && (s'.hist.verdicts == s.hist.verdicts ||
          (n in s'.hist.verdicts && s'.hist.verdicts == s.hist.verdicts[n := s'.hist.verdicts[n]]))
  }

  lemma CallCounts(s: Sys, s': Sys, n: nat, t: string)
    requires OnlyCall(s, s', n)
    ensures Open(s', t) == Open(s, t) - Weight(s.calls, n, OpenOf(t)) + Weight(s'.calls, n, OpenOf(t))
    ensures Rolling(s', t) == Rolling(s, t) - Weight(s.calls, n, RollingOf(t)) + Weight(s'.calls, n, RollingOf(t))
    ensures Again(s', t) ==
            Again(s, t) - Weight(s.hist.verdicts, n, AgainOf(t)) + Weight(s'.hist.verdicts, n, AgainOf(t))
    ensures Lost(s', t) == Lost(s, t) - Weight(s.hist.verdicts, n, LostOf(t)) + Weight(s'.hist.verdicts, n, LostOf(t))
  {
    NumAfterPut(s.calls, n, s'.calls[n], OpenOf(t));
    NumAfterPut(s.calls, n, s'.calls[n], RollingOf(t));
    if s'.hist.verdicts != s.hist.verdicts {
      NumAfterPut(s.hist.verdicts, n, s'.hist.verdicts[n], AgainOf(t));
      NumAfterPut(s.hist.verdicts, n, s'.hist.verdicts[n], LostOf(t));
    }
  }

  /** What call n contributes to the counts of open requests, pending roll-backs, repeats and losses. */
  function Shares(s: Sys, n: nat, t: string): (nat, nat, nat, nat) {
    (Weight(s.calls, n, OpenOf(t)), Weight(s.calls, n, RollingOf(t)), Weight(s.hist.verdicts, n, AgainOf(t)),
     Weight(s.hist.verdicts, n, LostOf(t)))
  }

  /** The change of the counter matches the change of the call's shares and of the slots held. */
  ghost predicate Matches(s: Sys, s': Sys, n: nat, t: string) {
    var was, now := Shares(s, n, t), Shares(s', n, t);
    && s'.configuredLimit == s.configuredLimit
    && Count(s'.quota, t) - Count(s.quota, t) ==
       now.0 - was.0 + now.1 - was.1 + Held(s', t) - Held(s, t) - (now.2 - was.2) + now.3 - was.3
    && was.2 <= now.2
    // A slot is gained only under the limit; one is lost without a decrement only when none is counted.
    && (now.0 + Held(s', t) + now.3 > was.0 + Held(s, t) + was.3 ==>
          now.0 > was.0 && now.3 == was.3 && Count(s'.quota, t) <= EffectiveLimit(s.configuredLimit))
    && (now.3 > was.3 ==> Count(s.quota, t) <= 0 < Held(s, t))
  }

  lemma AccountKept(s: Sys, s': Sys, n: nat, t: string)
    requires Account(s, t) && Matches(s, s', n, t) && OnlyCall(s, s', n)
    ensures Account(s', t)
  {
    CallCounts(s, s', n, t);
  }

  /** Calls that are not between their add and their insertion or roll-back count for nothing. */
  predicate Uncounted(c: Call) {
    !c.CreateInsert? && !c.CreateLeaked? && !c.CreateRollBack?
  }

  lemma UncountedMatters(s: Sys, s': Sys, n: nat, t: string)
    requires Account(s, t) && n in s'.calls && s'.calls == s.calls[n := s'.calls[n]]
    requires s'.hist.verdicts == s.hist.verdicts
    requires Uncounted(s'.calls[n]) && (n in s.calls ==> Uncounted(s.calls[n]))
    requires s'.quota == s.quota && s'.hist.slots == s.hist.slots && s'.configuredLimit == s.configuredLimit
    ensures Account(s', t)
  {
    AccountKept(s, s', n, t);
  }

  lemma AddOneMatches(s: Sys, n: nat, t: string)
    requires PostEnabled(s, n, PostAddOne)
    ensures Matches(s, DoPost(s, n, PostAddOne), n, t)
  {
    var c' := DoPost(s, n, PostAddOne).calls[n];
    assert c' == CreateRollBack(s.calls[n].tenant) || c' == CreateInsert(s.calls[n].tenant, s.calls[n].timeoutMs);
  }

  lemma RollBackMatches(s: Sys, n: nat, t: string)
    requires PostEnabled(s, n, PostRollBack)
    ensures Matches(s, DoPost(s, n, PostRollBack), n, t)
  {
  }

  lemma InsertMatches(s: Sys, n: nat, id: string, t: string)
    requires PostEnabled(s, n, PostInsert(id)) && (id !in s.db ==> id !in s.hist.slots)
    ensures Matches(s, DoPost(s, n, PostInsert(id)), n, t)
  {
    var c' := DoPost(s, n, PostInsert(id)).calls[n];
    assert c' == if id in s.db then CreateLeaked(s.calls[n].tenant) else CreateDeadline(id, s.calls[n].timeoutMs);
    NumAfterPut(s.hist.slots, id, s.calls[n].tenant, SlotOf(t));
  }

  lemma PostKeepsAccount(s: Sys, n: nat, step: PostStep, t: string)
    requires Account(s, t) && PostEnabled(s, n, step)
    requires step.PostInsert? && step.id !in s.db ==> step.id !in s.hist.slots
    ensures Account(DoPost(s, n, step), t)
  {
    var s' := DoPost(s, n, step);
    match step
    case PostAddOne =>
      AddOneMatches(s, n, t);
      AccountKept(s, s', n, t);
    case PostRollBack =>
      RollBackMatches(s, n, t);
      AccountKept(s, s', n, t);
    case PostInsert(id) =>
      InsertMatches(s, n, id, t);
      AccountKept(s, s', n, t);
    case _ => UncountedMatters(s, s', n, t);
  }

  /** A release has no verdict before it ends; a slot it gives back is that of its own tenant's sandbox. */
  ghost predicate ReleasesOwnSlot(s: Sys, n: nat) {
    n in s.calls && Releases(s.calls[n]).Some? ==>
      && n !in s.hist.verdicts
      && (s.calls[n].id in s.hist.slots ==> s.hist.slots[s.calls[n].id] == s.calls[n].tenant)
  }

  /** The counter was read as 0: only possible, while the slot is held, after repeated releases. */
  lemma ReadOfZeroMatches(s: Sys, n: nat, t: string)
    requires DeleteEnabled(s, n, DeleteReadCounter) && ReleasesOwnSlot(s, n)
    requires Count(s.quota, s.calls[n].tenant) <= 0
    ensures Matches(s, DoDelete(s, n, DeleteReadCounter), n, t)
  {
    var (u, id) := (s.calls[n].tenant, s.calls[n].id);
    var s' := DoDelete(s, n, DeleteReadCounter);
    assert s'.hist.verdicts == s.hist.verdicts[n := if id in s.hist.slots then Missed(u) else Nothing];
    assert s'.calls == s.calls[n := Done(Killed(u, id))];
    LosesOwnSlot(s, n, t);
    assert s'.quota == s.quota;
  }

  /** Giving back the slot of the call's own sandbox changes the slots held by that slot, if there is one. */
  lemma LosesOwnSlot(s: Sys, n: nat, t: string)
    requires DeleteEnabled(s, n, DeleteReadCounter) && ReleasesOwnSlot(s, n)
    requires Count(s.quota, s.calls[n].tenant) <= 0
    ensures
      var (u, id) := (s.calls[n].tenant, s.calls[n].id);
      var own := id in s.hist.slots && u == t;
      && Held(DoDelete(s, n, DeleteReadCounter), t) == Held(s, t) - (if own then 1 else 0)
      && (own ==> Held(s, t) > 0)
  {
    var id := s.calls[n].id;
    NumAfterRemove(s.hist.slots, id, SlotOf(t));
    if id in s.hist.slots && s.hist.slots[id] == t {
      NumPositive(s.hist.slots, id, SlotOf(t));
    }
  }

  lemma SubtractOneMatches(s: Sys, n: nat, t: string)
    requires DeleteEnabled(s, n, DeleteSubtractOne) && ReleasesOwnSlot(s, n)
    ensures Matches(s, DoDelete(s, n, DeleteSubtractOne), n, t)
  {
    NumAfterRemove(s.hist.slots, s.calls[n].id, SlotOf(t));
  }

  lemma ReadKeepsAccount(s: Sys, n: nat, t: string)
    requires Account(s, t) && DeleteEnabled(s, n, DeleteReadCounter) && ReleasesOwnSlot(s, n)
    ensures Account(DoDelete(s, n, DeleteReadCounter), t)
  {
    var s' := DoDelete(s, n, DeleteReadCounter);
    if Count(s.quota, s.calls[n].tenant) > 0 {
      assert s' == At(s, n, ReleaseDecrement(s.calls[n].tenant, s.calls[n].id));
      UncountedMatters(s, s', n, t);
    } else {
      ReadOfZeroMatches(s, n, t);
      AccountKept(s, s', n, t);
    }
  }

  lemma DeleteKeepsAccount(s: Sys, n: nat, step: DeleteStep, t: string)
    requires Account(s, t) && DeleteEnabled(s, n, step) && ReleasesOwnSlot(s, n)
    ensures Account(DoDelete(s, n, step), t)
  {
    var s' := DoDelete(s, n, step);
    match step
    case DeleteReadCounter => ReadKeepsAccount(s, n, t);
    case DeleteSubtractOne =>
      SubtractOneMatches(s, n, t);
      AccountKept(s, s', n, t);
    case _ => UncountedMatters(s, s', n, t);
  }

  lemma DispatchKeepsAccount(s: Sys, step: DispatchStep, t: string)
    requires Account(s, t) && DispatchEnabled(s, step)
    ensures Account(DoDispatch(s, step), t)
  {
    var s' := DoDispatch(s, step);
    DispatchOnCalls(s, step);
    if s'.calls != s.calls {
      UncountedMatters(s, s', step.n, t);
    }
  }

  lemma PlacementKeepsAccount(s: Sys, n: nat, step: PlacementStep, t: string)
    requires Account(s, t) && PlacementEnabled(s, n, step)
    ensures Account(DoPlacement(s, n, step), t)
  {
    UncountedMatters(s, DoPlacement(s, n, step), n, t);
  }

  lemma ExecKeepsAccount(s: Sys, n: nat, step: ExecStep, t: string)
    requires Account(s, t) && ExecEnabled(s, n, step)
    ensures Account(DoExec(s, n, step), t)
  {
    UncountedMatters(s, DoExec(s, n, step), n, t);
  }

  /** A new record has no slot yet, and a release is of the sandbox's own tenant. */
  ghost predicate SlotsInPlace(s: Sys) {
    && (forall id :: id in s.hist.slots ==> id in s.db)
    && (forall n :: ReleasesOwnSlot(s, n))
  }

  lemma SlotsForAccount(s: Sys)
    requires Slots(s) && Filed(s)
    ensures SlotsInPlace(s)
  {
    forall id | id in s.hist.slots ensures id in s.db {
      assert SlotFact(s.db, s.hist.slots, id);
    }
    forall n ensures ReleasesOwnSlot(s, n) {
      if n in s.calls && Releases(s.calls[n]).Some? {
        assert KillFact(s.db, s.hist.slots, s.calls[n]);
        assert SlotFact(s.db, s.hist.slots, s.calls[n].id);
        assert FiledFact(s, n);
      }
    }
  }

  lemma StepKeepsAccount(s: Sys, step: Step, t: string)
    requires SlotsInPlace(s) && Account(s, t) && Enabled(s, step)
    ensures Account(Do(s, step), t)
  {
    match step
    case Post(n, p) => PostKeepsAccount(s, n, p, t);
    case Delete(n, d) => DeleteKeepsAccount(s, n, d, t);
    case Dispatch(d) => DispatchKeepsAccount(s, d, t);
    case Placing(n, p) => PlacementKeepsAccount(s, n, p, t);
    case Exec(n, e) => ExecKeepsAccount(s, n, e, t);
    case Env(e) => EnvKeepsAccount(s, e, t);
  }

  lemma EnvKeepsAccount(s: Sys, step: EnvStep, t: string)
    requires Account(s, t)
    ensures Account(DoEnv(s, step), t)
  {
  }

  lemma {:induction false} RunKeepsAccount(s: Sys, steps: seq<Step>, end: Sys, t: string)
    requires Slots(s) && Filed(s) && Account(s, t) && Runs(s, steps, end)
    ensures Account(end, t)
    decreases |steps|
  {
    if steps != [] {
      SlotsForAccount(s);
      StepKeepsSlots(s, steps[0]);
      StepKeepsFiled(s, steps[0]);
      StepKeepsAccount(s, steps[0], t);
      RunKeepsAccount(Do(s, steps[0]), steps[1..], end, t);
    }
  }

  lemma AlwaysAccount(s: Sys, t: string)
    requires Reachable(s)
    ensures Slots(s) && Filed(s) && Account(s, t)
  {
    AlwaysFiled(s);
    var init, steps :| Init(init) && Runs(init, steps, s);
    assert Those(init.calls, OpenOf(t)) == {} && Those(init.calls, RollingOf(t)) == {};
    assert Those(init.hist.verdicts, AgainOf(t)) == {} && Those(init.hist.verdicts, LostOf(t)) == {};
    assert Those(init.hist.slots, SlotOf(t)) == {};
    RunKeepsAccount(init, steps, s, t);
  }

  // ---------- Main results ----------

  function LiveOf(t: string): Record -> bool {
    (r: Record) => r.tenant == t && IsLive(r.state)
  }

  /** The number of tenant t's sandboxes in Queued, Provisioning or Running. */
  ghost function Live(s: Sys, t: string): nat {
    Num(s.db, LiveOf(t))
  }

  lemma {:induction false} SubsetSize<T>(a: set<T>, b: set<T>)
    requires a <= b
    ensures |a| <= |b|
    decreases |a|
  {
    if a != {} {
      var x :| x in a;
      SubsetSize(a - {x}, b - {x});
    }
  }

  /**
   In every reachable state a tenant's live sandboxes are within its limit plus the decrements that
   repeated deletes made; with no repeated release they are within the limit, and the counter is
   exactly the slots held plus the pending roll-backs.
   */
  lemma LiveWithinLimit(s: Sys, t: string)
    requires Reachable(s)
    ensures Live(s, t) <= Held(s, t) <= EffectiveLimit(s.configuredLimit) + Again(s, t)
    ensures Again(s, t) == 0 ==>
              && Live(s, t) <= EffectiveLimit(s.configuredLimit)
              && Count(s.quota, t) == Open(s, t) + Rolling(s, t) + Held(s, t) >= 0
  {
    AlwaysAccount(s, t);
    forall id | id in Those(s.db, LiveOf(t)) ensures id in Those(s.hist.slots, SlotOf(t)) {
      assert SlotFact(s.db, s.hist.slots, id);
    }
    SubsetSize(Those(s.db, LiveOf(t)), Those(s.hist.slots, SlotOf(t)));
  }

  /**
   From an exact account, a delete's decrement keeps it exact if and only if no earlier delete of the
   same sandbox has completed.
   */
  lemma DeleteKeepsAccountExactly(s: Sys, n: nat)
    requires Reachable(s) && DeleteEnabled(s, n, DeleteSubtractOne)
    requires
      var t := s.calls[n].tenant;
      Count(s.quota, t) == Open(s, t) + Rolling(s, t) + Held(s, t)
    ensures
      var t, s' := s.calls[n].tenant, DoDelete(s, n, DeleteSubtractOne);
      Count(s'.quota, t) == Open(s', t) + Rolling(s', t) + Held(s', t) <==> !Deleted(s.calls, s.calls[n].id)
  {
    AlwaysAccount(s, s.calls[n].tenant);
    SlotsForAccount(s);
    assert ReleasesOwnSlot(s, n);
    assert KillFact(s.db, s.hist.slots, s.calls[n]);
    SlotHeldUntilDeleted(s, s.calls[n].id);
    DecrementMoves(s, n);
  }

  /** What a delete's decrement does to its tenant's account. */
  lemma DecrementMoves(s: Sys, n: nat)
    requires DeleteEnabled(s, n, DeleteSubtractOne) && ReleasesOwnSlot(s, n)
    ensures
      var t, s' := s.calls[n].tenant, DoDelete(s, n, DeleteSubtractOne);
      && Count(s'.quota, t) == Count(s.quota, t) - 1
      && Open(s', t) == Open(s, t) && Rolling(s', t) == Rolling(s, t)
      && Held(s', t) == Held(s, t) - if s.calls[n].id in s.hist.slots then 1 else 0
  {
    var t, s' := s.calls[n].tenant, DoDelete(s, n, DeleteSubtractOne);
    assert s'.calls == s.calls[n := s'.calls[n]] && s'.calls[n].Done?;
    CallCounts(s, s', n, t);
    HeldWithout(s.hist.slots, s.calls[n].id, t);
  }

  lemma HeldWithout(slots: map<string, string>, id: string, t: string)
    requires id in slots ==> slots[id] == t
    ensures Num(slots - {id}, SlotOf(t)) == Num(slots, SlotOf(t)) - if id in slots then 1 else 0
  {
    NumAfterRemove(slots, id, SlotOf(t));
  }
}

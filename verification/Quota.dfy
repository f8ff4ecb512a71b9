/**
 Per-tenant concurrency quota (internal/quota/quota.go).

 `Sys` interleaves any number of Acquire and Release calls, one shared-memory access per step: the
 two map accesses of getOrCreate, the add and the roll-back of Acquire, the load and the decrement of
 Release. `MemoryStore` is the store itself, for calls that run one after another.
 */
module Quota {
  import opened Tally

  // ---------- Interleaved calls ----------

  datatype Op = Acquire | Release

  /** Where a call stands. A call that holds a slot holds it until its own release decrements. */
  datatype Pc =
    | ReadMap(op: Op)
    | WriteMap(op: Op)
    | Add(counter: nat)
    | RollBack(counter: nat)
    | Rejected
    | Holding(counter: nat)
    | Load(counter: nat)
    | Decrement(counter: nat)
    | Released
    | Skipped

  /**
   One Acquire together with the Release that later gives its slot back. `stray` marks a Release
   that no Acquire matches. `limit` is the limit that the call passes.
   */
  datatype Call = Call(tenant: string, limit: int, stray: bool, pc: Pc)

  /** `counters` is the tenant map; `cells` holds the counters that its pointers lead to. */
  datatype Sys = Sys(counters: map<string, nat>, cells: map<nat, int>, calls: map<nat, Call>, maxLimit: int)

  ghost predicate Init(s: Sys) {
    s.counters == map[] && s.cells == map[] && s.calls == map[] && s.maxLimit >= 0
  }

  datatype Step =
    | BeginAcquire(n: nat, tenant: string, limit: int)
    | BeginRelease(n: nat)
    | BeginStrayRelease(n: nat, tenant: string)
    | LookUp(n: nat)
    | Insert(n: nat, spare: nat)
    | AddOne(n: nat)
    | TakeBack(n: nat)
    | ReadCounter(n: nat)
    | SubtractOne(n: nat)

  predicate Enabled(s: Sys, step: Step) {
    match step
    case BeginAcquire(n, _, limit) => n !in s.calls && limit <= s.maxLimit
    case BeginStrayRelease(n, _) => n !in s.calls
    case BeginRelease(n) => n in s.calls && s.calls[n].pc.Holding?
    case LookUp(n) => n in s.calls && s.calls[n].pc.ReadMap?
    case Insert(n, spare) => n in s.calls && s.calls[n].pc.WriteMap? && spare !in s.cells
    case AddOne(n) => n in s.calls && s.calls[n].pc.Add? && s.calls[n].pc.counter in s.cells
    case TakeBack(n) => n in s.calls && s.calls[n].pc.RollBack? && s.calls[n].pc.counter in s.cells
    case ReadCounter(n) => n in s.calls && s.calls[n].pc.Load? && s.calls[n].pc.counter in s.cells
    case SubtractOne(n) => n in s.calls && s.calls[n].pc.Decrement? && s.calls[n].pc.counter in s.cells
  }

  function Moved(s: Sys, n: nat, pc: Pc): Sys
    requires n in s.calls
  {
    s.(calls := s.calls[n := s.calls[n].(pc := pc)])
  }

  function Bumped(s: Sys, counter: nat, delta: int): Sys
    requires counter in s.cells
  {
    s.(cells := s.cells[counter := s.cells[counter] + delta])
  }

  function AfterLookUp(op: Op, counter: nat): Pc {
    if op == Acquire then Add(counter) else Load(counter)
  }

  function Do(s: Sys, step: Step): Sys
    requires Enabled(s, step)
  {
    match step
    case BeginAcquire(n, tenant, limit) =>
      s.(calls := s.calls[n := Call(tenant, limit, false, ReadMap(Acquire))])
    case BeginStrayRelease(n, tenant) =>
      s.(calls := s.calls[n := Call(tenant, 0, true, ReadMap(Release))])
    case BeginRelease(n) => Moved(s, n, ReadMap(Release))
    case LookUp(n) =>
      var c := s.calls[n];
      if c.tenant in s.counters then Moved(s, n, AfterLookUp(c.pc.op, s.counters[c.tenant]))
      else Moved(s, n, WriteMap(c.pc.op))
    case Insert(n, spare) =>
      var c := s.calls[n];
      if c.tenant in s.counters then Moved(s, n, AfterLookUp(c.pc.op, s.counters[c.tenant]))
      else
        Moved(s.(counters := s.counters[c.tenant := spare], cells := s.cells[spare := 0]),
              n, AfterLookUp(c.pc.op, spare))
    case AddOne(n) =>
      var c := s.calls[n];
      var s' := Bumped(s, c.pc.counter, 1);
      Moved(s', n, if s'.cells[c.pc.counter] > c.limit then RollBack(c.pc.counter) else Holding(c.pc.counter))
    case TakeBack(n) => Moved(Bumped(s, s.calls[n].pc.counter, -1), n, Rejected)
    case ReadCounter(n) =>
      var counter := s.calls[n].pc.counter;
      Moved(s, n, if s.cells[counter] > 0 then Decrement(counter) else Skipped)
    case SubtractOne(n) => Moved(Bumped(s, s.calls[n].pc.counter, -1), n, Released)
  }

  ghost predicate Runs(s: Sys, steps: seq<Step>, end: Sys)
    decreases |steps|
  {
    if steps == [] then end == s
    else Enabled(s, steps[0]) && Runs(Do(s, steps[0]), steps[1..], end)
  }

  ghost predicate Reachable(s: Sys) {
    exists init, steps :: Init(init) && Runs(init, steps, s)
  }

  // ---------- What holds in every reachable state ----------

  predicate HasCounter(pc: Pc) {
    pc.Add? || pc.RollBack? || pc.Holding? || pc.Load? || pc.Decrement?
  }

  /** A call that has taken a slot and not yet given it back. */
  predicate Holds(c: Call) {
    !c.stray && match c.pc
                case Holding(_) => true
                case Load(_) => true
                case Decrement(_) => true
                case ReadMap(op) => op == Release
                case WriteMap(op) => op == Release
                case _ => false
  }

  // The calls of tenant t that ...
  function HolderOf(t: string): Call -> bool {  // ... hold a slot
    (c: Call) => c.tenant == t && Holds(c)
  }

  function RollerOf(t: string): Call -> bool {  // ... have overshot the limit and not yet rolled back
    (c: Call) => c.tenant == t && c.pc.RollBack?
  }

  function StrayDecrementOf(t: string): Call -> bool {  // ... decremented without having held a slot
    (c: Call) => c.tenant == t && c.stray && c.pc.Released?
  }

  function LostDecrementOf(t: string): Call -> bool {  // ... gave up a slot without decrementing
    (c: Call) => c.tenant == t && !c.stray && c.pc.Skipped?
  }

  ghost function Holders(s: Sys, t: string): nat {
    Num(s.calls, HolderOf(t))
  }

  ghost function Rollers(s: Sys, t: string): nat {
    Num(s.calls, RollerOf(t))
  }

  ghost function StrayDecrements(s: Sys, t: string): nat {
    Num(s.calls, StrayDecrementOf(t))
  }

  ghost function LostDecrements(s: Sys, t: string): nat {
    Num(s.calls, LostDecrementOf(t))
  }

  function Count(s: Sys, t: string): int {
    if t in s.counters && s.counters[t] in s.cells then s.cells[s.counters[t]] else 0
  }

  /** Every call works on the one counter of its tenant, and no two tenants share a counter. */
  ghost predicate OneCounterEach(s: Sys) {
    && (forall t :: t in s.counters ==> s.counters[t] in s.cells)
    && (forall t, u :: t in s.counters && u in s.counters && t != u ==> s.counters[t] != s.counters[u])
    && (forall n :: n in s.calls && HasCounter(s.calls[n].pc) ==>
          s.calls[n].tenant in s.counters && s.counters[s.calls[n].tenant] == s.calls[n].pc.counter)
  }

  /** Where every unit of a tenant's counter comes from, whatever calls have been made. */
  ghost predicate Ledger(s: Sys, t: string) {
    && Count(s, t) == Holders(s, t) + Rollers(s, t) - StrayDecrements(s, t) + LostDecrements(s, t)
    && Holders(s, t) + LostDecrements(s, t) <= s.maxLimit + StrayDecrements(s, t)
    && (StrayDecrements(s, t) == 0 ==> LostDecrements(s, t) == 0)
  }

  predicate InRelease(pc: Pc) {
    match pc
    case ReadMap(op) => op == Release
    case WriteMap(op) => op == Release
    case _ => pc.Load? || pc.Decrement? || pc.Released? || pc.Skipped?
  }

  ghost predicate Inv(s: Sys) {
    && OneCounterEach(s)
    && (forall n :: n in s.calls ==> s.calls[n].limit <= s.maxLimit && (s.calls[n].stray ==> InRelease(s.calls[n].pc)))
    && s.maxLimit >= 0
    && forall t :: Ledger(s, t)
  }

  // ---------- Every step keeps it ----------

  /** A step changes only its own call, so each count moves by what that call contributes. */
  lemma NumAfter(s: Sys, step: Step, p: Call -> bool)
    requires Enabled(s, step)
    ensures
      var s' := Do(s, step);
      && step.n in s'.calls
      && Num(s'.calls, p) ==
         Num(s.calls, p) - Bit(step.n in s.calls && p(s.calls[step.n])) + Bit(p(s'.calls[step.n]))
  {
    var s' := Do(s, step);
    assert s'.calls == s.calls[step.n := s'.calls[step.n]];
    NumAfterPut(s.calls, step.n, s'.calls[step.n], p);
  }

  lemma CountAfter(s: Sys, step: Step, t: string)
    requires OneCounterEach(s) && Enabled(s, step)
    ensures Count(Do(s, step), t) - Count(s, t) ==
            if (step.AddOne? || step.TakeBack? || step.SubtractOne?) && s.calls[step.n].tenant == t
            then if step.AddOne? then 1 else -1
            else 0
  {
  }

  lemma OneCounterEachStep(s: Sys, step: Step)
    requires OneCounterEach(s) && Enabled(s, step)
    ensures OneCounterEach(Do(s, step))
  {
    var s' := Do(s, step);
    forall n | n in s'.calls && HasCounter(s'.calls[n].pc)
      ensures s'.calls[n].tenant in s'.counters && s'.counters[s'.calls[n].tenant] == s'.calls[n].pc.counter
    {
      if n != step.n {
        assert n in s.calls && s.calls[n] == s'.calls[n];
      }
    }
  }

  /** What call n contributes to the four counts of tenant t. */
  function Share(s: Sys, n: nat, t: string): (int, int, int, int) {
    if n !in s.calls then (0, 0, 0, 0)
    else
      var c := s.calls[n];
      (Bit(HolderOf(t)(c)), Bit(RollerOf(t)(c)), Bit(StrayDecrementOf(t)(c)), Bit(LostDecrementOf(t)(c)))
  }

  lemma SharesAfter(s: Sys, step: Step, t: string)
    requires Enabled(s, step)
    ensures
      var s' := Do(s, step);
      var was, now := Share(s, step.n, t), Share(s', step.n, t);
      && Holders(s', t) == Holders(s, t) - was.0 + now.0
      && Rollers(s', t) == Rollers(s, t) - was.1 + now.1
      && StrayDecrements(s', t) == StrayDecrements(s, t) - was.2 + now.2
      && LostDecrements(s', t) == LostDecrements(s, t) - was.3 + now.3
  {
    NumAfter(s, step, HolderOf(t));
    NumAfter(s, step, RollerOf(t));
    NumAfter(s, step, StrayDecrementOf(t));
    NumAfter(s, step, LostDecrementOf(t));
  }

  /** The counter moves by exactly what the step does to its call's share. */
  lemma ShareMatchesCounter(s: Sys, step: Step, t: string)
    requires OneCounterEach(s) && Enabled(s, step)
    requires step.n in s.calls && s.calls[step.n].stray ==> InRelease(s.calls[step.n].pc)
    ensures
      var was, now := Share(s, step.n, t), Share(Do(s, step), step.n, t);
      Count(Do(s, step), t) - Count(s, t) == now.0 - was.0 + now.1 - was.1 - (now.2 - was.2) + now.3 - was.3
  {
    CountAfter(s, step, t);
    if step.AddOne? || step.TakeBack? || step.SubtractOne? {
      ShareOfCounting(s, step, t);
    } else {
      ShareOfOthers(s, step, t);
    }
  }

  lemma ShareOfCounting(s: Sys, step: Step, t: string)
    requires Enabled(s, step) && (step.AddOne? || step.TakeBack? || step.SubtractOne?)
    requires s.calls[step.n].stray ==> InRelease(s.calls[step.n].pc)
    ensures
      var was, now := Share(s, step.n, t), Share(Do(s, step), step.n, t);
      var net := now.0 - was.0 + now.1 - was.1 - (now.2 - was.2) + now.3 - was.3;
      net == if s.calls[step.n].tenant != t then 0 else if step.AddOne? then 1 else -1
  {
  }

  lemma ShareOfOthers(s: Sys, step: Step, t: string)
    requires Enabled(s, step) && !step.AddOne? && !step.TakeBack? && !step.SubtractOne?
    requires step.n in s.calls && s.calls[step.n].stray ==> InRelease(s.calls[step.n].pc)
    ensures
      var was, now := Share(s, step.n, t), Share(Do(s, step), step.n, t);
      now.0 - was.0 + now.1 - was.1 - (now.2 - was.2) + now.3 - was.3 == 0
  {
  }

  /** Slots are gained only by an admitted add, and lost without a decrement only by a read of 0. */
  lemma ShareBounds(s: Sys, step: Step, t: string)
    requires OneCounterEach(s) && Enabled(s, step)
    requires step.n in s.calls && s.calls[step.n].stray ==> InRelease(s.calls[step.n].pc)
    ensures
      var was, now := Share(s, step.n, t), Share(Do(s, step), step.n, t);
      && was.2 <= now.2
      && (now.0 > was.0 ==> step.AddOne? && Count(Do(s, step), t) <= s.calls[step.n].limit && now.3 == was.3)
      && (now.3 > was.3 ==> step.ReadCounter? && was.0 == 1 && now.0 == 0 && Count(s, t) <= 0)
      && now.0 + now.3 - was.0 - was.3 <= if step.AddOne? then now.0 - was.0 else 0
  {
  }

  lemma LedgerStep(s: Sys, step: Step, t: string)
    requires Inv(s) && Enabled(s, step)
    ensures Ledger(Do(s, step), t)
  {
    assert Ledger(s, t);
    SharesAfter(s, step, t);
    ShareMatchesCounter(s, step, t);
    ShareBounds(s, step, t);
    if step.ReadCounter? && HolderOf(t)(s.calls[step.n]) {
      NumPositive(s.calls, step.n, HolderOf(t));
    }
  }

  lemma InvStep(s: Sys, step: Step)
    requires Inv(s) && Enabled(s, step)
    ensures Inv(Do(s, step))
  {
    OneCounterEachStep(s, step);
    forall t ensures Ledger(Do(s, step), t) {
      LedgerStep(s, step, t);
    }
  }

  lemma InvInit(s: Sys)
    requires Init(s)
    ensures Inv(s)
  {
    forall t ensures Ledger(s, t) {
      assert Those(s.calls, HolderOf(t)) == {} && Those(s.calls, RollerOf(t)) == {};
      assert Those(s.calls, StrayDecrementOf(t)) == {} && Those(s.calls, LostDecrementOf(t)) == {};
    }
  }

  lemma {:induction false} InvRun(s: Sys, steps: seq<Step>, end: Sys)
    requires Inv(s) && Runs(s, steps, end)
    ensures Inv(end)
    decreases |steps|
  {
    if steps != [] {
      InvStep(s, steps[0]);
      InvRun(Do(s, steps[0]), steps[1..], end);
    }
  }

  lemma InvAlways(s: Sys)
    requires Reachable(s)
    ensures Inv(s)
  {
    var init, steps :| Init(init) && Runs(init, steps, s);
    InvInit(init);
    InvRun(init, steps, s);
  }

  // ---------- Main results ----------

  /**
   In every reachable state, for every tenant with no stray decrement: the counter is the number of
   slots held plus the pending roll-backs, the slots held stay within the limit, and no matched
   release has failed to decrement.
   */
  lemma QuotaIsExact(s: Sys, t: string)
    requires Reachable(s) && StrayDecrements(s, t) == 0
    ensures Count(s, t) == Holders(s, t) + Rollers(s, t) >= 0
    ensures Holders(s, t) <= s.maxLimit
    ensures LostDecrements(s, t) == 0
  {
    InvAlways(s);
    assert Ledger(s, t);
  }

  /** An Acquire is admitted exactly when slots held plus pending roll-backs are below its limit at its add. */
  lemma AdmissionIsExact(s: Sys, n: nat)
    requires Reachable(s) && Enabled(s, AddOne(n)) && StrayDecrements(s, s.calls[n].tenant) == 0
    ensures
      var c := s.calls[n];
      var pc := Do(s, AddOne(n)).calls[n].pc;
      && (pc.Holding? <==> Holders(s, c.tenant) + Rollers(s, c.tenant) < c.limit)
      && (pc.RollBack? <==> Holders(s, c.tenant) + Rollers(s, c.tenant) >= c.limit)
  {
    InvAlways(s);
    assert Ledger(s, s.calls[n].tenant);
  }

  /** A release of a held slot always goes on to decrement. */
  lemma MatchedReleaseDecrements(s: Sys, n: nat)
    requires Reachable(s) && Enabled(s, ReadCounter(n)) && !s.calls[n].stray
    requires StrayDecrements(s, s.calls[n].tenant) == 0
    ensures Do(s, ReadCounter(n)).calls[n].pc.Decrement?
  {
    InvAlways(s);
    assert Ledger(s, s.calls[n].tenant);
    NumPositive(s.calls, n, HolderOf(s.calls[n].tenant));
  }

  /** From an exact account, a decrement keeps the account exact if and only if its call holds a slot. */
  lemma DecrementKeepsAccountExactlyIfMatched(s: Sys, n: nat)
    requires Reachable(s) && Enabled(s, SubtractOne(n))
    requires Count(s, s.calls[n].tenant) == Holders(s, s.calls[n].tenant) + Rollers(s, s.calls[n].tenant)
    ensures
      var t := s.calls[n].tenant;
      var s' := Do(s, SubtractOne(n));
      Count(s', t) == Holders(s', t) + Rollers(s', t) <==> !s.calls[n].stray
  {
    InvAlways(s);
    var t := s.calls[n].tenant;
    CountAfter(s, SubtractOne(n), t);
    NumAfter(s, SubtractOne(n), HolderOf(t));
    NumAfter(s, SubtractOne(n), RollerOf(t));
  }

  /** Double-checked creation: all calls of one tenant that have a counter have the same one. */
  lemma SameTenantSameCounter(s: Sys, n: nat, m: nat)
    requires Reachable(s) && n in s.calls && m in s.calls
    requires HasCounter(s.calls[n].pc) && HasCounter(s.calls[m].pc)
    ensures s.calls[n].pc.counter == s.calls[m].pc.counter <==> s.calls[n].tenant == s.calls[m].tenant
  {
    InvAlways(s);
  }

  /** ... and a counter, once in the map, is never replaced. */
  lemma {:induction false} CounterNeverReplaced(s: Sys, steps: seq<Step>, end: Sys, t: string)
    requires Runs(s, steps, end) && t in s.counters
    ensures t in end.counters && end.counters[t] == s.counters[t]
    decreases |steps|
  {
    if steps != [] {
      CounterNeverReplaced(Do(s, steps[0]), steps[1..], end, t);
    }
  }

  // ---------- Tenants do not influence each other ----------

  // The part of the state that concerns tenant u.

  ghost function OnlyCounters(counters: map<string, nat>, u: string): map<string, nat> {
    map t | t in counters && t == u :: counters[t]
  }

  ghost function OnlyCells(counters: map<string, nat>, cells: map<nat, int>, u: string): map<nat, int> {
    map p | p in cells && u in counters && p == counters[u] :: cells[p]
  }

  ghost function OnlyCalls(calls: map<nat, Call>, u: string): map<nat, Call> {
    map n | n in calls && calls[n].tenant == u :: calls[n]
  }

  ghost function Only(s: Sys, u: string): Sys {
    Sys(OnlyCounters(s.counters, u), OnlyCells(s.counters, s.cells, u), OnlyCalls(s.calls, u), s.maxLimit)
  }

  function TenantOf(s: Sys, step: Step): string
    requires Enabled(s, step)
  {
    match step
    case BeginAcquire(_, tenant, _) => tenant
    case BeginStrayRelease(_, tenant) => tenant
    case _ => s.calls[step.n].tenant
  }

  /** The steps of a run that belong to tenant u. */
  ghost function StepsOf(s: Sys, steps: seq<Step>, u: string): seq<Step>
    decreases |steps|
  {
    if steps == [] || !Enabled(s, steps[0]) then []
    else
      (if TenantOf(s, steps[0]) == u then [steps[0]] else []) + StepsOf(Do(s, steps[0]), steps[1..], u)
  }

  lemma OnlyCallsAfter(calls: map<nat, Call>, n: nat, c: Call, u: string)
    requires n in calls ==> calls[n].tenant == c.tenant
    ensures OnlyCalls(calls[n := c], u) == if c.tenant == u then OnlyCalls(calls, u)[n := c] else OnlyCalls(calls, u)
  {
  }

  lemma OnlyCellsAfter(counters: map<string, nat>, cells: map<nat, int>, p: nat, v: int, u: string)
    requires u in counters
    ensures OnlyCells(counters, cells[p := v], u) ==
            if p == counters[u] then OnlyCells(counters, cells, u)[p := v] else OnlyCells(counters, cells, u)
  {
  }

  lemma OnlyAfterInsert(counters: map<string, nat>, cells: map<nat, int>, t: string, p: nat, u: string)
    requires t !in counters && p !in cells && (u in counters ==> counters[u] in cells)
    ensures OnlyCounters(counters[t := p], u) ==
            if t == u then OnlyCounters(counters, u)[t := p] else OnlyCounters(counters, u)
    ensures OnlyCells(counters[t := p], cells[p := 0], u) ==
            if t == u then OnlyCells(counters, cells, u)[p := 0] else OnlyCells(counters, cells, u)
  {
  }

  /** What a step does to the three parts of the state, each described in terms of tenant u's part. */
  lemma OnlyAfter(s: Sys, step: Step, u: string)
    requires OneCounterEach(s) && Enabled(s, step)
    ensures
      var c := Do(s, step).calls[step.n];
      OnlyCalls(Do(s, step).calls, u) ==
      if c.tenant == u then OnlyCalls(s.calls, u)[step.n := c] else OnlyCalls(s.calls, u)
    ensures step.Insert? && s.calls[step.n].tenant !in s.counters && s.calls[step.n].tenant == u ==>
              && OnlyCounters(Do(s, step).counters, u) == OnlyCounters(s.counters, u)[u := step.spare]
              && OnlyCells(Do(s, step).counters, Do(s, step).cells, u) ==
                 OnlyCells(s.counters, s.cells, u)[step.spare := 0]
    ensures TenantOf(s, step) != u ==>
              && OnlyCounters(Do(s, step).counters, u) == OnlyCounters(s.counters, u)
              && OnlyCells(Do(s, step).counters, Do(s, step).cells, u) == OnlyCells(s.counters, s.cells, u)
    ensures TenantOf(s, step) == u && (step.AddOne? || step.TakeBack? || step.SubtractOne?) ==>
              var p := s.calls[step.n].pc.counter;
              && p == s.counters[u]
              && OnlyCells(Do(s, step).counters, Do(s, step).cells, u) ==
                 OnlyCells(s.counters, s.cells, u)[p := Do(s, step).cells[p]]
  {
    var s' := Do(s, step);
    var n := step.n;
    assert s'.calls == s.calls[n := s'.calls[n]];
    OnlyCallsAfter(s.calls, n, s'.calls[n], u);
    if step.Insert? && s.calls[n].tenant !in s.counters {
      OnlyAfterInsert(s.counters, s.cells, s.calls[n].tenant, step.spare, u);
    } else if (step.AddOne? || step.TakeBack? || step.SubtractOne?) && u in s.counters {
      OnlyCellsAfter(s.counters, s.cells, s.calls[n].pc.counter, s'.cells[s.calls[n].pc.counter], u);
    }
  }

  lemma OwnStep(s: Sys, step: Step, u: string)
    requires OneCounterEach(s) && Enabled(s, step) && TenantOf(s, step) == u
    ensures Enabled(Only(s, u), step) && Do(Only(s, u), step) == Only(Do(s, step), u)
  {
    OnlyAfter(s, step, u);
  }

  lemma ForeignStep(s: Sys, step: Step, u: string)
    requires OneCounterEach(s) && Enabled(s, step) && TenantOf(s, step) != u
    ensures Only(Do(s, step), u) == Only(s, u)
  {
    OnlyAfter(s, step, u);
  }

  /** Erasing every other tenant from a run leaves a run, with the same outcome for tenant u. */
  lemma {:induction false} TenantsAreIndependent(s: Sys, steps: seq<Step>, end: Sys, u: string)
    requires OneCounterEach(s) && Runs(s, steps, end)
    ensures Runs(Only(s, u), StepsOf(s, steps, u), Only(end, u))
    decreases |steps|
  {
    if steps != [] {
      var next := Do(s, steps[0]);
      OneCounterEachStep(s, steps[0]);
      TenantsAreIndependent(next, steps[1..], end, u);
      var tail := StepsOf(next, steps[1..], u);
      if TenantOf(s, steps[0]) == u {
        OwnStep(s, steps[0], u);
        assert ([steps[0]] + tail)[1..] == tail;
      } else {
        ForeignStep(s, steps[0], u);
        assert [] + tail == tail;
      }
    }
  }

  // ---------- Release without a matching Acquire ----------

  lemma {:induction false} RunsThenStep(s: Sys, steps: seq<Step>, mid: Sys, step: Step)
    requires Runs(s, steps, mid) && Enabled(mid, step)
    ensures Runs(s, steps + [step], Do(mid, step))
    decreases |steps|
  {
    if steps == [] {
      assert Runs(Do(s, step), [step][1..], Do(mid, step));
    } else {
      RunsThenStep(Do(s, steps[0]), steps[1..], mid, step);
      assert (steps + [step])[1..] == steps[1..] + [step];
    }
  }

  lemma ReachableStep(s: Sys, step: Step)
    requires Reachable(s) && Enabled(s, step)
    ensures Reachable(Do(s, step))
  {
    var init, steps :| Init(init) && Runs(init, steps, s);
    RunsThenStep(init, steps, s, step);
  }

  /** One slot is held and two unmatched releases have both read the counter before either decrements. */
  function TwoStrayReleases(): Sys {
    Sys(map["a" := 7], map[7 := 1],
        map[0 := Call("a", 1, false, Holding(7)),
            1 := Call("a", 0, true, Decrement(7)),
            2 := Call("a", 0, true, Decrement(7))],
        1)
  }

  lemma TwoStrayReleasesReachable()
    ensures Reachable(TwoStrayReleases())
  {
    var s0 := Sys(map[], map[], map[], 1);
    assert Init(s0) && Runs(s0, [], s0);
    var s4 := AcquireFirst(s0);
    var s7 := ReadByStray(s4, 1);
    var s10 := ReadByStray(s7, 2);
    assert s10 == TwoStrayReleases();
  }

  lemma AcquireFirst(s: Sys) returns (s': Sys)
    requires Reachable(s) && s == Sys(map[], map[], map[], 1)
    ensures Reachable(s') && s' == Sys(map["a" := 7], map[7 := 1], map[0 := Call("a", 1, false, Holding(7))], 1)
  {
    var s1 := Do(s, BeginAcquire(0, "a", 1));
    ReachableStep(s, BeginAcquire(0, "a", 1));
    var s2 := Do(s1, LookUp(0));
    ReachableStep(s1, LookUp(0));
    assert s2 == Sys(map[], map[], map[0 := Call("a", 1, false, WriteMap(Acquire))], 1);
    s' := InsertFirst(s2);
  }

  lemma InsertFirst(s: Sys) returns (s': Sys)
    requires Reachable(s) && s == Sys(map[], map[], map[0 := Call("a", 1, false, WriteMap(Acquire))], 1)
    ensures Reachable(s') && s' == Sys(map["a" := 7], map[7 := 1], map[0 := Call("a", 1, false, Holding(7))], 1)
  {
    var s1 := Do(s, Insert(0, 7));
    ReachableStep(s, Insert(0, 7));
    assert s1 == Sys(map["a" := 7], map[7 := 0], map[0 := Call("a", 1, false, Add(7))], 1);
    s' := Do(s1, AddOne(0));
    ReachableStep(s1, AddOne(0));
  }

  lemma ReadByStray(s: Sys, n: nat) returns (s': Sys)
    requires Reachable(s) && n !in s.calls && s.counters == map["a" := 7] && s.cells == map[7 := 1]
    ensures Reachable(s') && s' == s.(calls := s.calls[n := Call("a", 0, true, Decrement(7))])
  {
    var s1 := Do(s, BeginStrayRelease(n, "a"));
    ReachableStep(s, BeginStrayRelease(n, "a"));
    var s2 := Do(s1, LookUp(n));
    ReachableStep(s1, LookUp(n));
    s' := Do(s2, ReadCounter(n));
    ReachableStep(s2, ReadCounter(n));
  }

  /** Two unmatched releases that interleave drive the counter below zero while a slot is still held. */
  lemma StrayReleasesCanGoNegative()
    ensures exists s :: Reachable(s) && Count(s, "a") == -1 && Holders(s, "a") == 1
  {
    var s := BothDecrement();
    assert Those(s.calls, HolderOf("a")) == {0};
    assert Reachable(s) && Count(s, "a") == -1 && Holders(s, "a") == 1;
  }

  lemma BothDecrement() returns (s: Sys)
    ensures Reachable(s) && s.counters == map["a" := 7] && s.cells == map[7 := -1]
    ensures s.calls == map[0 := Call("a", 1, false, Holding(7)),
                           1 := Call("a", 0, true, Released),
                           2 := Call("a", 0, true, Released)]
  {
    var s0 := TwoStrayReleases();
    TwoStrayReleasesReachable();
    var s1 := Do(s0, SubtractOne(1));
    ReachableStep(s0, SubtractOne(1));
    s := Do(s1, SubtractOne(2));
    ReachableStep(s1, SubtractOne(2));
  }

  // ---------- When releases can bring a counter below zero ----------

  /** The calls of tenant t that are between their load and their decrement. */
  function DecrementOf(t: string): Call -> bool {
    (c: Call) => c.tenant == t && c.pc.Decrement?
  }

  ghost function Decrementing(s: Sys, t: string): nat {
    Num(s.calls, DecrementOf(t))
  }

  /** No Acquire begins, adds or rolls back; releases, matched or not, pending or new, go on as they like. */
  ghost predicate ReleasesOnly(steps: seq<Step>) {
    forall i :: 0 <= i < |steps| ==> !steps[i].BeginAcquire? && !steps[i].AddOne? && !steps[i].TakeBack?
  }

  ghost predicate GoesNegative(s: Sys, t: string, steps: seq<Step>, end: Sys) {
    ReleasesOnly(steps) && Runs(s, steps, end) && Count(end, t) < 0
  }

  /**
   Release is documented as safe when the counter is already zero. From any reachable state, releases
   can bring a tenant's counter below zero if and only if the counter is not zero or some release of
   the tenant stands between its load and its decrement: at zero they are safe exactly when every one of
   them still has its load ahead.
   */
  lemma ReleasesGoNegativeExactly(s: Sys, t: string)
    requires Reachable(s)
    ensures (exists steps, end :: GoesNegative(s, t, steps, end)) <==> Count(s, t) != 0 || Decrementing(s, t) > 0
  {
    InvAlways(s);
    if Count(s, t) == 0 && Decrementing(s, t) == 0 {
      forall steps, end | ReleasesOnly(steps) && Runs(s, steps, end) ensures Count(end, t) == 0 {
        ReleasesStayAtZero(s, steps, end, t);
      }
    } else if Count(s, t) < 0 {
      assert GoesNegative(s, t, [], s);
    } else {
      var steps1, s1 := LoadMore(s, t);
      var steps2, end := DecrementAll(s1, t);
      RunsBoth(s, steps1, s1, steps2, end);
      assert GoesNegative(s, t, steps1 + steps2, end);
    }
  }

  lemma {:induction false} ReleasesStayAtZero(s: Sys, steps: seq<Step>, end: Sys, t: string)
    requires OneCounterEach(s) && ReleasesOnly(steps) && Runs(s, steps, end)
    requires Count(s, t) == 0 && Decrementing(s, t) == 0
    ensures Count(end, t) == 0 && Decrementing(end, t) == 0
    decreases |steps|
  {
    if steps != [] {
      OneCounterEachStep(s, steps[0]);
      ReleaseStaysAtZero(s, steps[0], t);
      ReleasesStayAtZero(Do(s, steps[0]), steps[1..], end, t);
    }
  }

  lemma ReleaseStaysAtZero(s: Sys, step: Step, t: string)
    requires OneCounterEach(s) && Enabled(s, step)
    requires !step.BeginAcquire? && !step.AddOne? && !step.TakeBack?
    requires Count(s, t) == 0 && Decrementing(s, t) == 0
    ensures Count(Do(s, step), t) == 0 && Decrementing(Do(s, step), t) == 0
  {
    if step.n in s.calls && DecrementOf(t)(s.calls[step.n]) {
      NumPositive(s.calls, step.n, DecrementOf(t));
    }
    CountAfter(s, step, t);
    NumAfter(s, step, DecrementOf(t));
  }

  /** A new release without a matching Acquire passes its load, the counter being positive. */
  lemma StrayLoads(s: Sys, t: string) returns (steps: seq<Step>, end: Sys)
    requires OneCounterEach(s) && Count(s, t) > 0
    ensures ReleasesOnly(steps) && Runs(s, steps, end) && OneCounterEach(end)
    ensures Count(end, t) == Count(s, t) && Decrementing(end, t) == Decrementing(s, t) + 1
  {
    var n := Unused(s.calls.Keys);
    var s1 := Do(s, BeginStrayRelease(n, t));
    var s2 := Do(s1, LookUp(n));
    OneCounterEachStep(s, BeginStrayRelease(n, t));
    OneCounterEachStep(s1, LookUp(n));
    var last;
    last, end := LoadRun(s2, n, t);
    NumAfter(s, BeginStrayRelease(n, t), DecrementOf(t));
    NumAfter(s1, LookUp(n), DecrementOf(t));
    StepFirst(s1, LookUp(n), last, end);
    StepFirst(s, BeginStrayRelease(n, t), [LookUp(n)] + last, end);
    steps := [BeginStrayRelease(n, t)] + ([LookUp(n)] + last);
  }

  lemma LoadRun(s: Sys, n: nat, t: string) returns (steps: seq<Step>, end: Sys)
    requires OneCounterEach(s) && n in s.calls && s.calls[n].pc.Load? && s.calls[n].tenant == t && Count(s, t) > 0
    ensures ReleasesOnly(steps) && Runs(s, steps, end) && OneCounterEach(end)
    ensures Count(end, t) == Count(s, t) && Decrementing(end, t) == Decrementing(s, t) + 1
  {
    end, steps := Do(s, ReadCounter(n)), [ReadCounter(n)] + [];
    OneCounterEachStep(s, ReadCounter(n));
    CountAfter(s, ReadCounter(n), t);
    NumAfter(s, ReadCounter(n), DecrementOf(t));
    StepFirst(s, ReadCounter(n), [], end);
  }

  /** Releases pass their loads until more of them are to decrement than the counter counts. */
  lemma {:induction false} LoadMore(s: Sys, t: string) returns (steps: seq<Step>, end: Sys)
    requires OneCounterEach(s) && Count(s, t) >= 0 && (Count(s, t) == 0 ==> Decrementing(s, t) > 0)
    ensures ReleasesOnly(steps) && Runs(s, steps, end) && OneCounterEach(end)
    ensures Decrementing(end, t) > Count(end, t) >= 0
    decreases Count(s, t) - Decrementing(s, t)
  {
    if Decrementing(s, t) > Count(s, t) {
      steps, end := [], s;
    } else {
      var steps1, s1 := StrayLoads(s, t);
      var rest;
      rest, end := LoadMore(s1, t);
      RunsBoth(s, steps1, s1, rest, end);
      steps := steps1 + rest;
    }
  }

  /** All of them decrement. */
  lemma {:induction false} DecrementAll(s: Sys, t: string) returns (steps: seq<Step>, end: Sys)
    requires OneCounterEach(s) && Decrementing(s, t) > Count(s, t) >= 0
    ensures GoesNegative(s, t, steps, end)
    decreases Count(s, t)
  {
    var n :| n in Those(s.calls, DecrementOf(t));
    var step := SubtractOne(n);
    var s1 := Do(s, step);
    OneCounterEachStep(s, step);
    CountAfter(s, step, t);
    NumAfter(s, step, DecrementOf(t));
    if Count(s1, t) < 0 {
      steps, end := [step] + [], s1;
      StepFirst(s, step, [], end);
    } else {
      var rest;
      rest, end := DecrementAll(s1, t);
      StepFirst(s, step, rest, end);
      steps := [step] + rest;
    }
  }

  // ---------- What a call does when it runs alone, on values ----------

  /** Every tenant's count; a tenant without a counter is not in it. */
  type Counts = map<string, int>

  function CountIn(counts: Counts, t: string): int {
    if t in counts then counts[t] else 0
  }

  function Ensured(counts: Counts, t: string): (c: Counts)
    ensures t in c && forall u :: CountIn(c, u) == CountIn(counts, u)
  {
    if t in counts then counts else counts[t := 0]
  }

  /** Admitted exactly below the limit, and then counted; no other tenant is concerned. */
  function AcquireIn(counts: Counts, t: string, limit: int): (r: (Counts, bool))
    ensures r.1 <==> CountIn(counts, t) < limit
    ensures CountIn(r.0, t) == CountIn(counts, t) + if r.1 then 1 else 0
    ensures forall u :: u != t ==> CountIn(r.0, u) == CountIn(counts, u)
  {
    var c := Ensured(counts, t);
    if c[t] + 1 > limit then (c, false) else (c[t := c[t] + 1], true)
  }

  /** Counts one less, but never below zero; no other tenant is concerned. */
  function ReleaseIn(counts: Counts, t: string): (c': Counts)
    ensures CountIn(c', t) == if CountIn(counts, t) > 0 then CountIn(counts, t) - 1 else CountIn(counts, t)
    ensures forall u :: u != t ==> CountIn(c', u) == CountIn(counts, u)
  {
    var c := Ensured(counts, t);
    if c[t] > 0 then c[t := c[t] - 1] else c
  }

  lemma PutTwice(calls: map<nat, Call>, n: nat, first: Call, second: Call)
    ensures calls[n := first][n := second] == calls[n := second]
  {
  }

  lemma EnsuredOnce(counts: Counts, t: string, limit: int)
    ensures AcquireIn(Ensured(counts, t), t, limit) == AcquireIn(counts, t, limit)
    ensures ReleaseIn(Ensured(counts, t), t) == ReleaseIn(counts, t)
  {
  }

  // ---------- Calls run alone are runs of the system ----------

  function ViewOf(s: Sys): Counts {
    map t | t in s.counters && s.counters[t] in s.cells :: s.cells[s.counters[t]]
  }

  lemma StepFirst(s: Sys, step: Step, rest: seq<Step>, end: Sys)
    requires Enabled(s, step) && Runs(Do(s, step), rest, end)
    ensures Runs(s, [step] + rest, end)
  {
    assert ([step] + rest)[1..] == rest;
  }

  lemma {:induction false} RunsBoth(s: Sys, first: seq<Step>, mid: Sys, second: seq<Step>, end: Sys)
    requires Runs(s, first, mid) && Runs(mid, second, end)
    ensures Runs(s, first + second, end)
    decreases |first|
  {
    if first == [] {
      assert first + second == second;
    } else {
      RunsBoth(Do(s, first[0]), first[1..], mid, second, end);
      assert (first + second)[1..] == first[1..] + second;
    }
  }

  /** getOrCreate, with nothing in between: the tenant has a counter afterwards, and the call has that one. */
  lemma GetOrCreateIsRun(s: Sys, n: nat) returns (steps: seq<Step>, end: Sys)
    requires OneCounterEach(s) && n in s.calls && s.calls[n].pc.ReadMap?
    ensures Runs(s, steps, end) && OneCounterEach(end) && end.maxLimit == s.maxLimit
    ensures ViewOf(end) == Ensured(ViewOf(s), s.calls[n].tenant)
    ensures
      var c := s.calls[n];
      && c.tenant in end.counters && end.counters[c.tenant] in end.cells
      && end.calls == s.calls[n := c.(pc := AfterLookUp(c.pc.op, end.counters[c.tenant]))]
  {
    var c := s.calls[n];
    var s1 := Do(s, LookUp(n));
    OneCounterEachStep(s, LookUp(n));
    var rest;
    if c.tenant in s.counters {
      rest, end := [], s1;
    } else {
      rest, end := InsertIsRun(s1, n);
    }
    StepFirst(s, LookUp(n), rest, end);
    steps := [LookUp(n)] + rest;
  }

  lemma InsertIsRun(s: Sys, n: nat) returns (steps: seq<Step>, end: Sys)
    requires OneCounterEach(s) && n in s.calls && s.calls[n].pc.WriteMap? && s.calls[n].tenant !in s.counters
    ensures Runs(s, steps, end) && OneCounterEach(end) && end.maxLimit == s.maxLimit
    ensures ViewOf(end) == ViewOf(s)[s.calls[n].tenant := 0]
    ensures
      var c := s.calls[n];
      && c.tenant in end.counters && end.counters[c.tenant] in end.cells
      && end.calls == s.calls[n := c.(pc := AfterLookUp(c.pc.op, end.counters[c.tenant]))]
  {
    var spare := Unused(s.cells.Keys);
    end := Do(s, Insert(n, spare));
    OneCounterEachStep(s, Insert(n, spare));
    StepFirst(s, Insert(n, spare), [], end);
    steps := [Insert(n, spare)] + [];
  }

  /** A change of a tenant's counter changes that tenant's count and no other. */
  lemma BumpedView(s: Sys, t: string, delta: int)
    requires OneCounterEach(s) && t in s.counters
    ensures ViewOf(Bumped(s, s.counters[t], delta)) == ViewOf(s)[t := ViewOf(s)[t] + delta]
  {
  }

  /** Acquire run alone: the add and, past the limit, the roll-back. */
  lemma AcquireIsRun(s: Sys, n: nat, t: string, limit: int) returns (steps: seq<Step>, end: Sys)
    requires OneCounterEach(s) && n !in s.calls && limit <= s.maxLimit
    ensures Runs(s, steps, end) && n in end.calls && end.calls == s.calls[n := end.calls[n]]
    ensures (ViewOf(end), end.calls[n].pc.Holding?) == AcquireIn(ViewOf(s), t, limit)
    ensures end.calls[n].tenant == t && (end.calls[n].pc.Holding? || end.calls[n].pc.Rejected?)
  {
    var s1 := Do(s, BeginAcquire(n, t, limit));
    OneCounterEachStep(s, BeginAcquire(n, t, limit));
    assert ViewOf(s1) == ViewOf(s);
    var rest;
    rest, end := FindThenAdd(s1, n);
    StepFirst(s, BeginAcquire(n, t, limit), rest, end);
    steps := [BeginAcquire(n, t, limit)] + rest;
  }

  lemma FindThenAdd(s: Sys, n: nat) returns (steps: seq<Step>, end: Sys)
    requires OneCounterEach(s) && n in s.calls && s.calls[n].pc == ReadMap(Acquire)
    ensures Runs(s, steps, end) && n in end.calls && end.calls == s.calls[n := end.calls[n]]
    ensures
      var t, limit := s.calls[n].tenant, s.calls[n].limit;
      && (ViewOf(end), end.calls[n].pc.Holding?) == AcquireIn(ViewOf(s), t, limit)
      && end.calls[n].tenant == t && (end.calls[n].pc.Holding? || end.calls[n].pc.Rejected?)
  {
    var steps1, s1 := GetOrCreateIsRun(s, n);
    var rest;
    rest, end := AddIsRun(s1, n);
    EnsuredOnce(ViewOf(s), s.calls[n].tenant, s.calls[n].limit);
    PutTwice(s.calls, n, s1.calls[n], end.calls[n]);
    RunsBoth(s, steps1, s1, rest, end);
    steps := steps1 + rest;
  }

  lemma AddIsRun(s: Sys, n: nat) returns (steps: seq<Step>, end: Sys)
    requires OneCounterEach(s) && n in s.calls && s.calls[n].pc.Add?
    ensures Runs(s, steps, end) && n in end.calls && end.calls == s.calls[n := end.calls[n]]
    ensures
      var t, limit := s.calls[n].tenant, s.calls[n].limit;
      && (ViewOf(end), end.calls[n].pc.Holding?) == AcquireIn(ViewOf(s), t, limit)
      && end.calls[n].tenant == t && (end.calls[n].pc.Holding? || end.calls[n].pc.Rejected?)
  {
    var t := s.calls[n].tenant;
    var s1 := Do(s, AddOne(n));
    OneCounterEachStep(s, AddOne(n));
    BumpedView(s, t, 1);
    assert ViewOf(s1) == ViewOf(Bumped(s, s.counters[t], 1));
    if s1.calls[n].pc.Holding? {
      end, steps := s1, [AddOne(n)] + [];
      StepFirst(s, AddOne(n), [], end);
    } else {
      end := Do(s1, TakeBack(n));
      BumpedView(s1, t, -1);
      assert ViewOf(end) == ViewOf(Bumped(s1, s1.counters[t], -1)) == ViewOf(s);
      StepFirst(s1, TakeBack(n), [], end);
      StepFirst(s, AddOne(n), [TakeBack(n)] + [], end);
      steps := [AddOne(n)] + ([TakeBack(n)] + []);
    }
  }

  /** Release run alone, from the moment the call begins it, whether it holds a slot or not. */
  lemma ReleaseIsRun(s: Sys, n: nat) returns (steps: seq<Step>, end: Sys)
    requires OneCounterEach(s) && n in s.calls && s.calls[n].pc == ReadMap(Release)
    ensures Runs(s, steps, end) && n in end.calls && end.calls == s.calls[n := end.calls[n]]
    ensures ViewOf(end) == ReleaseIn(ViewOf(s), s.calls[n].tenant)
    ensures end.calls[n].pc.Released? || end.calls[n].pc.Skipped?
  {
    var steps1, s1 := GetOrCreateIsRun(s, n);
    var rest;
    rest, end := LoadIsRun(s1, n);
    RunsBoth(s, steps1, s1, rest, end);
    steps := steps1 + rest;
  }

  lemma LoadIsRun(s: Sys, n: nat) returns (steps: seq<Step>, end: Sys)
    requires OneCounterEach(s) && n in s.calls && s.calls[n].pc.Load?
    ensures Runs(s, steps, end) && n in end.calls && end.calls == s.calls[n := end.calls[n]]
    ensures ViewOf(end) == ReleaseIn(ViewOf(s), s.calls[n].tenant)
    ensures end.calls[n].pc.Released? || end.calls[n].pc.Skipped?
  {
    var t := s.calls[n].tenant;
    var s1 := Do(s, ReadCounter(n));
    OneCounterEachStep(s, ReadCounter(n));
    assert ViewOf(s1) == ViewOf(s);
    if s1.calls[n].pc.Skipped? {
      end, steps := s1, [ReadCounter(n)] + [];
      StepFirst(s, ReadCounter(n), [], end);
    } else {
      end := Do(s1, SubtractOne(n));
      BumpedView(s1, t, -1);
      assert ViewOf(end) == ViewOf(Bumped(s1, s1.counters[t], -1));
      StepFirst(s1, SubtractOne(n), [], end);
      StepFirst(s, ReadCounter(n), [SubtractOne(n)] + [], end);
      steps := [ReadCounter(n)] + ([SubtractOne(n)] + []);
    }
  }

  // ---------- The store ----------

  class Counter {
    var value: int

    constructor ()
      ensures value == 0
    {
      value := 0;
    }
  }

  class MemoryStore {
    var counters: map<string, Counter>

    /** No two tenants share a counter. */
    ghost predicate Valid()
      reads this
    {
      forall t, u :: t in counters && u in counters && t != u ==> counters[t] != counters[u]
    }

    ghost function View(): Counts
      reads this, counters.Values
    {
      map t | t in counters :: counters[t].value
    }

    constructor ()
      ensures Valid() && View() == map[]
    {
      counters := map[];
    }

    method GetOrCreate(tenantID: string) returns (c: Counter)
      requires Valid()
      modifies this
      ensures Valid() && tenantID in counters && counters[tenantID] == c
      ensures tenantID in old(counters) ==> counters == old(counters)
      ensures tenantID !in old(counters) ==> fresh(c) && counters == old(counters)[tenantID := c]
      ensures View() == Ensured(old(View()), tenantID)
    {
      if tenantID in counters {
        return counters[tenantID];
      }
      c := new Counter();
      counters := counters[tenantID := c];
      assert View() == old(View())[tenantID := 0];
    }

    method Acquire(tenantID: string, limit: int) returns (ok: bool)
      requires Valid()
      modifies this, counters.Values
      ensures Valid()
      ensures (View(), ok) == AcquireIn(old(View()), tenantID, limit)
    {
      var c := GetOrCreate(tenantID);
      ghost var before := View();
      c.value := c.value + 1;
      if c.value > limit {
        c.value := c.value - 1;
        assert View() == before;
        return false;
      }
      assert View() == before[tenantID := before[tenantID] + 1];
      return true;
    }

    method Release(tenantID: string)
      requires Valid()
      modifies this, counters.Values
      ensures Valid()
      ensures View() == ReleaseIn(old(View()), tenantID)
    {
      var c := GetOrCreate(tenantID);
      ghost var before := View();
      if c.value > 0 {
        c.value := c.value - 1;
        assert View() == before[tenantID := before[tenantID] - 1];
      }
    }

    method Current(tenantID: string) returns (n: int)
      requires Valid()
      modifies this
      ensures Valid() && View() == Ensured(old(View()), tenantID) && n == View()[tenantID]
    {
      var c := GetOrCreate(tenantID);
      n := c.value;
    }
  }

  /** An Acquire that succeeds and its Release, with nothing in between, leave every count as it was. */
  lemma ReleaseUndoesAcquire(counts: Counts, t: string, limit: int)
    requires AcquireIn(counts, t, limit).1 && (t in counts ==> counts[t] >= 0)
    ensures ReleaseIn(AcquireIn(counts, t, limit).0, t) == Ensured(counts, t)
  {
  }
}

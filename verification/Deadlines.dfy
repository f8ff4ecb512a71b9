/**
 What a request's timeout means in every run: a request fails as late only after its timeout has passed,
 and is placed only before.
 */
module Deadlines {
  import opened SandboxState
  import opened PendingHeap
  import opened ControlPlane
  import Ownership
  import PlacementSafety

  ghost predicate Extends<K, V>(a: map<K, V>, b: map<K, V>) {
    forall k :: k in a ==> k in b && b[k] == a[k]
  }

  /** The create request behind a record is known, and so is the timeout it carried. */
  predicate HasTimeout(s: Sys, id: string) {
    id in s.hist.asked.creators && s.hist.asked.creators[id] in s.hist.asked.timeouts
  }

  function TimeoutOf(s: Sys, id: string): nat
    requires HasTimeout(s, id)
  {
    s.hist.asked.timeouts[s.hist.asked.creators[id]]
  }

  /** The item carries its record's deadline: the timeout, from a moment after the record was created. */
  ghost predicate Due(s: Sys, item: Item) {
    && item.id in s.db && HasTimeout(s, item.id) && item.id in s.hist.asked.queuedAt
    && s.db[item.id].createdAt <= s.hist.asked.queuedAt[item.id] <= s.clock
    && item.key.deadline == s.hist.asked.queuedAt[item.id] + TimeoutOf(s, item.id)
    && item.key.priority == 1
  }

  ghost predicate Carries(s: Sys, n: nat, timeoutMs: nat) {
    n in s.hist.asked.timeouts && s.hist.asked.timeouts[n] == timeoutMs
  }

  ghost predicate CallFact(s: Sys, n: nat) {
    n in s.calls ==>
      match s.calls[n]
      case CreateAdd(_, ms) => Carries(s, n, ms)
      case CreateInsert(_, ms) => Carries(s, n, ms)
      case CreateDeadline(id, ms) =>
        && Carries(s, n, ms) && id in s.hist.asked.creators && s.hist.asked.creators[id] == n
        && id in s.db && s.db[id].createdAt <= s.clock && id !in s.hist.asked.queuedAt
      case CreatePush(item) => Due(s, item)
      case _ => true
  }

  /** The history is about records and calls that exist. */
  ghost predicate Known(s: Sys) {
    && (forall n :: n in s.hist.asked.timeouts ==> n in s.calls)
    && (forall id :: id in s.hist.asked.creators ==> id in s.db)
    && (forall id :: id in s.hist.asked.queuedAt ==> id in s.db)
  }

  ghost predicate InHandFact(s: Sys) {
    !s.dispatcher.Idle? ==>
      Due(s, s.dispatcher.item) && (s.dispatcher.Expire? ==> s.clock > s.dispatcher.item.key.deadline)
  }

  ghost predicate Timely(s: Sys) {
    && Known(s)
    && (forall n :: CallFact(s, n))
    && (forall item :: item in s.queue ==> Due(s, item))
    && InHandFact(s)
  }

  // ---------- What no step takes back ----------

  /** Time has passed, and what was known still is. */
  ghost predicate Later(s: Sys, s': Sys) {
    && s.clock <= s'.clock
    && (forall id :: id in s.db ==> id in s'.db && s'.db[id].createdAt == s.db[id].createdAt)
    && Extends(s.hist.asked.timeouts, s'.hist.asked.timeouts)
    && Extends(s.hist.asked.creators, s'.hist.asked.creators)
    && Extends(s.hist.asked.queuedAt, s'.hist.asked.queuedAt)
  }

  lemma StillDue(s: Sys, s': Sys, item: Item)
    requires Due(s, item) && Later(s, s')
    ensures Due(s', item)
  {
  }

  /** The same history, and the same records at the same times of creation. */
  ghost predicate SameAsked(s: Sys, s': Sys) {
    && s'.clock == s.clock && SameCreation(s.db, s'.db)
    && s'.hist.asked == s.hist.asked
  }

  lemma DeleteSame(s: Sys, n: nat, step: DeleteStep)
    requires DeleteEnabled(s, n, step)
    ensures SameAsked(s, DoDelete(s, n, step)) && DoDelete(s, n, step).queue == s.queue
    ensures DoDelete(s, n, step).dispatcher == s.dispatcher
  {
  }

  lemma DispatchSame(s: Sys, step: DispatchStep)
    requires DispatchEnabled(s, step)
    ensures SameAsked(s, DoDispatch(s, step))
  {
    match step
    case SaveHost => SavingSame(s);
    case MarkExpired => ExpiringSame(s);
    case MarkProvisioning(n) => CommittingSame(s, n);
    case _ =>
  }

  lemma SavingSame(s: Sys)
    requires DispatchEnabled(s, SaveHost)
    ensures SameAsked(s, DoDispatch(s, SaveHost))
  {
    HostKeepsCreation(s.db, s.dispatcher.item.id, s.dispatcher.host, s.clock);
  }

  lemma ExpiringSame(s: Sys)
    requires DispatchEnabled(s, MarkExpired)
    ensures SameAsked(s, DoDispatch(s, MarkExpired))
  {
    MoveKeepsCreation(s.db, s.dispatcher.item.id, Queued, Failed, "deadline exceeded", s.clock);
  }

  lemma CommittingSame(s: Sys, n: nat)
    requires DispatchEnabled(s, MarkProvisioning(n))
    ensures SameAsked(s, DoDispatch(s, MarkProvisioning(n)))
  {
    var s' := DoDispatch(s, MarkProvisioning(n));
    assert s'.db == MoveIn(s.db, s.dispatcher.item.id, Queued, Provisioning, "", s.clock).0;
    assert s'.clock == s.clock && s'.hist.asked == s.hist.asked;
    MoveKeepsCreation(s.db, s.dispatcher.item.id, Queued, Provisioning, "", s.clock);
  }

  ghost predicate SameCreation(db: Db, db': Db) {
    db'.Keys == db.Keys && forall id :: id in db ==> db'[id].createdAt == db[id].createdAt
  }

  lemma HostKeepsCreation(db: Db, id: string, host: string, now: int)
    ensures SameCreation(db, SetHostIn(db, id, host, now).0)
  {
  }

  lemma MoveKeepsCreation(db: Db, id: string, expected: State, to: State, reason: string, now: int)
    ensures SameCreation(db, MoveIn(db, id, expected, to, reason, now).0)
  {
  }

  lemma PlacementSame(s: Sys, n: nat, step: PlacementStep)
    requires PlacementEnabled(s, n, step)
    ensures SameAsked(s, DoPlacement(s, n, step)) && DoPlacement(s, n, step).queue == s.queue
    ensures DoPlacement(s, n, step).dispatcher == s.dispatcher
  {
  }

  // ---------- Steps keep the facts ----------

  lemma CallStays(s: Sys, s': Sys, n: nat)
    requires CallFact(s, n) && SameAsked(s, s') && (n in s'.calls ==> n in s.calls && s'.calls[n] == s.calls[n])
    ensures CallFact(s', n)
  {
  }

  /** A step of call n that ends up outside a create, and leaves the queue and the dispatch loop alone. */
  lemma BystanderKeepsTimely(s: Sys, s': Sys, n: nat)
    requires Timely(s) && SameAsked(s, s') && s'.queue == s.queue && s'.dispatcher == s.dispatcher
    requires n in s'.calls && s'.calls == s.calls[n := s'.calls[n]]
    requires !PostCall(s'.calls[n])
    ensures Timely(s')
  {
    forall m ensures CallFact(s', m) {
      if m != n {
        assert CallFact(s, m);
        CallStays(s, s', m);
      }
    }
  }

  predicate PostCall(c: Call) {
    c.CreateAdd? || c.CreateInsert? || c.CreateDeadline? || c.CreatePush?
  }

  lemma DeleteCalls(s: Sys, n: nat, step: DeleteStep)
    requires DeleteEnabled(s, n, step)
    ensures
      var s' := DoDelete(s, n, step);
      n in s'.calls && s'.calls == s.calls[n := s'.calls[n]] && !PostCall(s'.calls[n])
  {
  }

  lemma PlacementCalls(s: Sys, n: nat, step: PlacementStep)
    requires PlacementEnabled(s, n, step)
    ensures
      var s' := DoPlacement(s, n, step);
      n in s'.calls && s'.calls == s.calls[n := s'.calls[n]] && !PostCall(s'.calls[n])
  {
  }

  lemma ExecKeepsTimely(s: Sys, n: nat, step: ExecStep)
    requires Timely(s) && ExecEnabled(s, n, step)
    ensures Timely(DoExec(s, n, step))
  {
    BystanderKeepsTimely(s, DoExec(s, n, step), n);
  }

  lemma EnvKeepsTimely(s: Sys, step: EnvStep)
    requires Timely(s)
    ensures Timely(DoEnv(s, step))
  {
    var s' := DoEnv(s, step);
    forall n ensures CallFact(s', n) {
      assert CallFact(s, n);
    }
  }

  lemma DispatchKeepsTimely(s: Sys, step: DispatchStep)
    requires Timely(s) && DispatchEnabled(s, step)
    ensures Timely(DoDispatch(s, step))
  {
    var s' := DoDispatch(s, step);
    DispatchSame(s, step);
    forall n ensures CallFact(s', n) {
      assert CallFact(s, n);
      DispatchKeepsCall(s, step, n);
    }
    DispatchItems(s, step);
    ItemsStayDue(s, s');
  }

  /** The items of a later state that were waiting before. */
  lemma ItemsStayDue(s: Sys, s': Sys)
    requires Timely(s) && SameAsked(s, s')
    requires forall item :: item in s'.queue ==> item in s.queue || (!s.dispatcher.Idle? && item == s.dispatcher.item)
    requires !s'.dispatcher.Idle? ==>
               || s'.dispatcher.item in s.queue
               || (!s.dispatcher.Idle? && s'.dispatcher.item == s.dispatcher.item)
    requires s'.dispatcher.Expire? ==> s'.clock > s'.dispatcher.item.key.deadline
    ensures forall item :: item in s'.queue ==> Due(s', item)
    ensures InHandFact(s')
  {
    forall item | item in s'.queue ensures Due(s', item) {
      StillDue(s, s', item);
    }
    if !s'.dispatcher.Idle? {
      StillDue(s, s', s'.dispatcher.item);
    }
  }

  lemma DispatchKeepsCall(s: Sys, step: DispatchStep, n: nat)
    requires CallFact(s, n) && DispatchEnabled(s, step) && SameAsked(s, DoDispatch(s, step))
    ensures CallFact(DoDispatch(s, step), n)
  {
    DispatchItems(s, step);
    if !(step.MarkProvisioning? && step.n == n) {
      CallStays(s, DoDispatch(s, step), n);
    }
  }

  /** Items only move between the queue and the dispatch loop, which gives up only on late ones. */
  lemma DispatchItems(s: Sys, step: DispatchStep)
    requires DispatchEnabled(s, step)
    ensures
      var s' := DoDispatch(s, step);
      && (forall item :: item in s'.queue ==> item in s.queue || (!s.dispatcher.Idle? && item == s.dispatcher.item))
      && (!s'.dispatcher.Idle? ==>
            s'.dispatcher.item in s.queue || (!s.dispatcher.Idle? && s'.dispatcher.item == s.dispatcher.item))
      && (s'.dispatcher.Expire? ==> s'.clock > s'.dispatcher.item.key.deadline)
      && (forall n :: n in s'.calls ==> (n in s.calls && s'.calls[n] == s.calls[n])
                                        || (step.MarkProvisioning? && step.n == n && s'.calls[n].Place?))
  {
    match step
    case PopFirst(item) =>
    case MarkExpired =>
    case PushBack =>
    case SaveHost =>
    case MarkProvisioning(n) =>
    case _ =>
  }

  // ---------- Create requests ----------

  lemma PostLater(s: Sys, n: nat, step: PostStep)
    requires Known(s) && CallFact(s, n) && PostEnabled(s, n, step)
    ensures Later(s, DoPost(s, n, step)) && Known(DoPost(s, n, step))
  {
    match step
    case BeginPost(t, ms) =>
    case PostInsert(id) =>
    case PostReadClock =>
    case _ =>
  }

  /** The call that moves keeps its fact. */
  lemma PostMoves(s: Sys, n: nat, step: PostStep)
    requires Known(s) && CallFact(s, n) && PostEnabled(s, n, step)
    ensures CallFact(DoPost(s, n, step), n)
  {
    match step
    case BeginPost(t, ms) =>
    case PostAddOne =>
    case PostInsert(id) =>
    case PostReadClock =>
    case _ =>
  }

  lemma PostOthers(s: Sys, n: nat, step: PostStep, m: nat)
    requires Known(s) && CallFact(s, n) && CallFact(s, m) && PostEnabled(s, n, step) && m != n
    ensures CallFact(DoPost(s, n, step), m)
  {
    var s' := DoPost(s, n, step);
    PostLater(s, n, step);
    assert m in s'.calls ==> m in s.calls && s'.calls[m] == s.calls[m];
    if m in s.calls && s.calls[m].CreateDeadline? {
      NotStamped(s, n, step, m);
    } else if m in s.calls && s.calls[m].CreatePush? {
      StillDue(s, s', s.calls[m].item);
    }
  }

  lemma NotStamped(s: Sys, n: nat, step: PostStep, m: nat)
    requires CallFact(s, n) && CallFact(s, m) && PostEnabled(s, n, step) && m != n
    requires m in s.calls && s.calls[m].CreateDeadline?
    ensures s.calls[m].id !in DoPost(s, n, step).hist.asked.queuedAt
  {
    if step.PostReadClock? {
      assert s.hist.asked.creators[s.calls[n].id] == n && s.hist.asked.creators[s.calls[m].id] == m;
    }
  }

  lemma PostItems(s: Sys, n: nat, step: PostStep)
    requires PostEnabled(s, n, step)
    ensures DoPost(s, n, step).dispatcher == s.dispatcher
    ensures forall item :: item in DoPost(s, n, step).queue ==>
              item in s.queue || (n in s.calls && s.calls[n] == CreatePush(item))
  {
  }

  lemma PostKeepsTimely(s: Sys, n: nat, step: PostStep)
    requires Timely(s) && PostEnabled(s, n, step)
    ensures Timely(DoPost(s, n, step))
  {
    var s' := DoPost(s, n, step);
    assert CallFact(s, n);
    PostLater(s, n, step);
    PostItems(s, n, step);
    forall m ensures CallFact(s', m) {
      assert CallFact(s, m);
      if m == n {
        PostMoves(s, n, step);
      } else {
        PostOthers(s, n, step, m);
      }
    }
    forall item | item in s'.queue ensures Due(s', item) {
      StillDue(s, s', item);
    }
    if !s.dispatcher.Idle? {
      StillDue(s, s', s.dispatcher.item);
    }
  }

  // ---------- Runs ----------

  lemma StepKeepsTimely(s: Sys, step: Step)
    requires Timely(s) && Enabled(s, step)
    ensures Timely(Do(s, step))
  {
    match step
    case Post(n, p) => PostKeepsTimely(s, n, p);
    case Delete(n, d) =>
      DeleteSame(s, n, d);
      DeleteCalls(s, n, d);
      BystanderKeepsTimely(s, DoDelete(s, n, d), n);
    case Dispatch(d) => DispatchKeepsTimely(s, d);
    case Placing(n, p) =>
      PlacementSame(s, n, p);
      PlacementCalls(s, n, p);
      BystanderKeepsTimely(s, DoPlacement(s, n, p), n);
    case Exec(n, e) => ExecKeepsTimely(s, n, e);
    case Env(e) => EnvKeepsTimely(s, e);
  }

  lemma {:induction false} RunKeepsTimely(s: Sys, steps: seq<Step>, end: Sys)
    requires Timely(s) && Runs(s, steps, end)
    ensures Timely(end)
    decreases |steps|
  {
    if steps != [] {
      StepKeepsTimely(s, steps[0]);
      RunKeepsTimely(Do(s, steps[0]), steps[1..], end);
    }
  }

  lemma AlwaysTimely(s: Sys)
    requires Reachable(s)
    ensures Timely(s)
  {
    var init, steps :| Init(init) && Runs(init, steps, s);
    RunKeepsTimely(init, steps, s);
  }

  lemma StepIsLater(s: Sys, step: Step)
    requires Timely(s) && Enabled(s, step)
    ensures Later(s, Do(s, step))
  {
    match step
    case Post(n, p) =>
      assert CallFact(s, n);
      PostLater(s, n, p);
    case _ => OtherStepIsLater(s, step);
  }

  lemma OtherStepIsLater(s: Sys, step: Step)
    requires Enabled(s, step) && !step.Post?
    ensures Later(s, Do(s, step))
  {
    match step
    case Delete(n, d) => DeleteSame(s, n, d);
    case Dispatch(d) => DispatchSame(s, d);
    case Placing(n, p) => PlacementSame(s, n, p);
    case Exec(n, e) =>
    case Env(e) =>
  }

  lemma {:induction false} RunIsLater(s: Sys, steps: seq<Step>, end: Sys)
    requires Timely(s) && Runs(s, steps, end)
    ensures Later(s, end)
    decreases |steps|
  {
    if steps != [] {
      var s1 := Do(s, steps[0]);
      StepKeepsTimely(s, steps[0]);
      StepIsLater(s, steps[0]);
      RunIsLater(s1, steps[1..], end);
      LaterStill(s, s1, end);
    }
  }

  lemma LaterStill(a: Sys, b: Sys, c: Sys)
    requires Later(a, b) && Later(b, c)
    ensures Later(a, c)
  {
    ExtendsFurther(a.hist.asked.timeouts, b.hist.asked.timeouts, c.hist.asked.timeouts);
    ExtendsFurther(a.hist.asked.creators, b.hist.asked.creators, c.hist.asked.creators);
    ExtendsFurther(a.hist.asked.queuedAt, b.hist.asked.queuedAt, c.hist.asked.queuedAt);
    forall id | id in a.db ensures id in c.db && c.db[id].createdAt == a.db[id].createdAt {
      assert id in b.db;
    }
  }

  lemma ExtendsFurther<K, V>(a: map<K, V>, b: map<K, V>, c: map<K, V>)
    requires Extends(a, b) && Extends(b, c)
    ensures Extends(a, c)
  {
  }

  // ---------- Main results ----------

  /** Every request that waits carries the deadline that its own timeout sets, and priority 1. */
  lemma WaitingRequestsAreDue(s: Sys, item: Item)
    requires Reachable(s) && (item in s.queue || (!s.dispatcher.Idle? && item == s.dispatcher.item))
    ensures item.id in s.db && HasTimeout(s, item.id) && item.id in s.hist.asked.queuedAt
    ensures item.key.deadline == s.hist.asked.queuedAt[item.id] + TimeoutOf(s, item.id) && item.key.priority == 1
    ensures s.db[item.id].createdAt <= s.hist.asked.queuedAt[item.id] <= s.clock
  {
    AlwaysTimely(s);
  }

  /** A popped request is given up if and only if the clock has passed its deadline. */
  lemma GivenUpExactly(s: Sys)
    requires Reachable(s) && s.dispatcher.Popped?
    ensures
      var id := s.dispatcher.item.id;
      && HasTimeout(s, id) && id in s.hist.asked.queuedAt
      && var late := s.clock > s.hist.asked.queuedAt[id] + TimeoutOf(s, id);
         && (DoDispatch(s, CheckDeadline).dispatcher.Expire? <==> late)
         && (DoDispatch(s, CheckDeadline).dispatcher == Choose(s.dispatcher.item, s.clock) <==> !late)
  {
    AlwaysTimely(s);
  }

  /**
   From the arrival of a create request on, in any run: the dispatch loop fails the request's sandbox
   only at a clock past the record's creation plus the timeout that the request carried.
   */
  lemma ExpiresOnlyLate(s0: Sys, n: nat, t: string, timeoutMs: nat, steps: seq<Step>, s: Sys)
    requires Reachable(s0) && PostEnabled(s0, n, BeginPost(t, timeoutMs))
    requires Runs(DoPost(s0, n, BeginPost(t, timeoutMs)), steps, s)
    requires s.dispatcher.Expire? && s.dispatcher.item.id in s.hist.asked.creators
    requires s.hist.asked.creators[s.dispatcher.item.id] == n
    ensures
      var id, s' := s.dispatcher.item.id, DoDispatch(s, MarkExpired);
      && id in s.db && s.db[id].state == Queued
      && s.clock > s.db[id].createdAt + timeoutMs
      && id in s'.db && s'.db[id].state == Failed && s'.db[id].failReason == "deadline exceeded"
  {
    var s1 := DoPost(s0, n, BeginPost(t, timeoutMs));
    assert s1 == Do(s0, Post(n, BeginPost(t, timeoutMs)));
    ReachableStep(s0, Post(n, BeginPost(t, timeoutMs)));
    RunStaysReachable(s1, steps, s);
    AlwaysTimely(s1);
    RunIsLater(s1, steps, s);
    assert Carries(s1, n, timeoutMs);
    LateAndQueued(s);
  }

  lemma LateAndQueued(s: Sys)
    requires Reachable(s) && s.dispatcher.Expire?
    ensures
      var id := s.dispatcher.item.id;
      && id in s.db && s.db[id].state == Queued && HasTimeout(s, id)
      && s.clock > s.db[id].createdAt + TimeoutOf(s, id)
  {
    AlwaysTimely(s);
    Ownership.AlwaysOwned(s);
    PlacementSafety.DispatcherHoldsQueued(s);
  }

  /** A record enters Provisioning only on a clock reading no later than its deadline. */
  lemma ProvisionedInTime(s: Sys, step: Step, id: string)
    requires Reachable(s) && Enabled(s, step)
    requires id in Do(s, step).db && Do(s, step).db[id].state == Provisioning
    requires id !in s.db || s.db[id].state != Provisioning
    ensures s.dispatcher.Commit? && HasTimeout(s, id) && id in s.hist.asked.queuedAt
    ensures s.dispatcher.reading <= s.hist.asked.queuedAt[id] + TimeoutOf(s, id)
  {
    PlacementSafety.ProvisioningOnlyInTime(s, step, id);
    AlwaysTimely(s);
  }
}

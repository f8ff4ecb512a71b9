/**
 Who is responsible for each sandbox, in every reachable state of the control plane.

 A queued record's request is held in exactly one place: by its submitter, by the heap, or by the
 dispatch loop; a provisioning record has exactly one placement in flight.
 */
module Ownership {
  import opened Results
  import opened SandboxState
  import opened ControlPlane

  function Submits(c: Call): Option<string> {
    match c
    case CreateDeadline(id, _) => Some(id)
    case CreatePush(item) => Some(item.id)
    case _ => None
  }

  function Places(c: Call): Option<string> {
    match c
    case Place(item, _, _) => Some(item.id)
    case PlaceWait(item, _, _) => Some(item.id)
    case PlaceSave(item, _, _, _) => Some(item.id)
    case PlaceRun(item, _, _, _) => Some(item.id)
    case PlaceFail(item, _, _, _) => Some(item.id)
    case _ => None
  }

  function InHand(d: Dispatcher): Option<Item> {
    if d.Idle? then None else Some(d.item)
  }

  /** The part of the state that decides ownership. */
  datatype Roles = Roles(
    states: map<string, State>,
    submitters: map<nat, string>,
    placers: map<nat, string>,
    queue: multiset<Item>,
    hand: Option<Item>,
    owner: map<string, Owner>)

  function RoleMap(calls: map<nat, Call>, role: Call -> Option<string>): map<nat, string> {
    map n | n in calls && role(calls[n]).Some? :: role(calls[n]).value
  }

  function StatesOf(db: Db): map<string, State> {
    map id | id in db :: db[id].state
  }

  function RolesOf(s: Sys): Roles {
    Roles(StatesOf(s.db), RoleMap(s.calls, Submits), RoleMap(s.calls, Places), s.queue, InHand(s.dispatcher),
          s.hist.owner)
  }

  ghost predicate OwnerFits(r: Roles, id: string, owner: Owner)
    requires id in r.states
  {
    match owner
    case Submitter(n) => r.states[id] == Queued && n in r.submitters && r.submitters[n] == id
    case InHeap(item) => r.states[id] == Queued && item in r.queue && item.id == id
    case AtDispatcher => r.states[id] == Queued && r.hand.Some? && r.hand.value.id == id
    case Placement(n) => r.states[id] == Provisioning && n in r.placers && r.placers[n] == id
    case Nobody => r.states[id] != Queued && r.states[id] != Provisioning
  }

  /** Every queued item owns its record, and is queued once. */
  ghost predicate QueueOwned(queue: multiset<Item>, owner: map<string, Owner>) {
    forall x :: x in queue ==> x.id in owner && owner[x.id] == InHeap(x) && queue[x] == 1
  }

  lemma QueueOwnedAfterPush(queue: multiset<Item>, owner: map<string, Owner>, item: Item)
    requires QueueOwned(queue, owner) && item.id in owner && !owner[item.id].InHeap?
    ensures QueueOwned(queue + multiset{item}, owner[item.id := InHeap(item)])
  {
    assert forall x :: x in queue ==> x.id != item.id;
    assert item !in queue;
  }

  lemma QueueOwnedAfterHandover(queue: multiset<Item>, owner: map<string, Owner>, id: string, o: Owner)
    requires QueueOwned(queue, owner) && (id in owner ==> !owner[id].InHeap?)
    ensures QueueOwned(queue, owner[id := o])
  {
  }

  /** Each record has the owner that its state calls for, and whoever holds a request owns its record. */
  ghost predicate Own(r: Roles) {
    && (forall id :: id in r.states <==> id in r.owner)
    && (forall id :: id in r.states ==> OwnerFits(r, id, r.owner[id]))
    && (forall n :: n in r.submitters ==> r.submitters[n] in r.owner && r.owner[r.submitters[n]] == Submitter(n))
    && (forall n :: n in r.placers ==> r.placers[n] in r.owner && r.owner[r.placers[n]] == Placement(n))
    && QueueOwned(r.queue, r.owner)
    && (r.hand.Some? ==> r.hand.value.id in r.owner && r.owner[r.hand.value.id] == AtDispatcher)
  }

  ghost predicate Owned(s: Sys) {
    Own(RolesOf(s))
  }

  // ---------- The ownership transfers that steps are made of ----------

  /** A record is created in the hands of its submitter. */
  lemma RecordCreated(r: Roles, n: nat, id: string)
    requires Own(r) && id !in r.states && n !in r.submitters
    ensures Own(r.(states := r.states[id := Queued], submitters := r.submitters[n := id],
                   owner := r.owner[id := Submitter(n)]))
  {
    QueueOwnedAfterHandover(r.queue, r.owner, id, Submitter(n));
  }

  /** An item enters the heap from its submitter. */
  lemma ItemSubmitted(r: Roles, n: nat, item: Item)
    requires Own(r) && n in r.submitters && r.submitters[n] == item.id
    ensures Own(r.(submitters := r.submitters - {n}, queue := r.queue + multiset{item},
                   owner := r.owner[item.id := InHeap(item)]))
  {
    QueueOwnedAfterPush(r.queue, r.owner, item);
  }

  lemma ItemPopped(r: Roles, item: Item)
    requires Own(r) && r.hand.None? && item in r.queue
    ensures Own(r.(queue := r.queue - multiset{item}, hand := Some(item), owner := r.owner[item.id := AtDispatcher]))
  {
  }

  /** An item returns to the heap from the dispatch loop. */
  lemma ItemReturned(r: Roles, item: Item)
    requires Own(r) && r.hand == Some(item)
    ensures Own(r.(queue := r.queue + multiset{item}, hand := None, owner := r.owner[item.id := InHeap(item)]))
  {
    QueueOwnedAfterPush(r.queue, r.owner, item);
  }

  /** The dispatch loop drops an item whose record has failed. */
  lemma ItemExpired(r: Roles)
    requires Own(r) && r.hand.Some?
    ensures
      var id := r.hand.value.id;
      && id in r.states && r.states[id] == Queued
      && Own(r.(states := r.states[id := Failed], hand := None, owner := r.owner[id := Nobody]))
  {
    QueueOwnedAfterHandover(r.queue, r.owner, r.hand.value.id, Nobody);
  }

  /** The dispatch loop hands its item over to a new placement. */
  lemma ItemLaunched(r: Roles, n: nat)
    requires Own(r) && r.hand.Some? && n !in r.placers
    ensures
      var id := r.hand.value.id;
      && id in r.states && r.states[id] == Queued
      && Own(r.(states := r.states[id := Provisioning], placers := r.placers[n := id], hand := None,
                owner := r.owner[id := Placement(n)]))
  {
    QueueOwnedAfterHandover(r.queue, r.owner, r.hand.value.id, Placement(n));
  }

  lemma PlacementEnds(r: Roles, n: nat, to: State)
    requires Own(r) && n in r.placers && to != Queued && to != Provisioning
    ensures
      var id := r.placers[n];
      && id in r.states && r.states[id] == Provisioning
      && Own(r.(states := r.states[id := to], placers := r.placers - {n}, owner := r.owner[id := Nobody]))
  {
  }

  /** Terminate can move a record only from Running, which nobody owns, to Draining. */
  lemma Drained(r: Roles, id: string)
    requires Own(r) && id in r.states && r.states[id] == Running
    ensures Own(r.(states := r.states[id := Draining]))
  {
  }

  // ---------- How the roles change with one call or one record ----------

  lemma RoleMapAfter(calls: map<nat, Call>, n: nat, c: Call, role: Call -> Option<string>)
    ensures RoleMap(calls[n := c], role) ==
            if role(c).Some? then RoleMap(calls, role)[n := role(c).value] else RoleMap(calls, role) - {n}
    ensures role(c) == (if n in calls then role(calls[n]) else None) ==>
              RoleMap(calls[n := c], role) == RoleMap(calls, role)
  {
  }

  lemma StatesAfter(db: Db, id: string, rec: Record)
    ensures StatesOf(db[id := rec]) == StatesOf(db)[id := rec.state]
    ensures id in db && db[id].state == rec.state ==> StatesOf(db[id := rec]) == StatesOf(db)
  {
  }

  /** A call that takes over or hands over no request leaves the roles alone. */
  lemma CallMoves(s: Sys, n: nat, c: Call)
    requires Submits(c) == if n in s.calls then Submits(s.calls[n]) else None
    requires Places(c) == if n in s.calls then Places(s.calls[n]) else None
    ensures RolesOf(At(s, n, c)) == RolesOf(s)
  {
    RoleMapAfter(s.calls, n, c, Submits);
    RoleMapAfter(s.calls, n, c, Places);
  }

  // ---------- Every step keeps the ownership invariant and succeeds where its error is discarded ----------

  lemma PostRoles(s: Sys, n: nat, step: PostStep)
    requires PostEnabled(s, n, step)
    ensures
      var r := RolesOf(s);
      RolesOf(DoPost(s, n, step)) ==
        if step.PostInsert? && step.id !in s.db then
          r.(states := r.states[step.id := Queued], submitters := r.submitters[n := step.id],
             owner := r.owner[step.id := Submitter(n)])
        else if step.PostPush? then
          var item := s.calls[n].item;
          r.(submitters := r.submitters - {n}, queue := r.queue + multiset{item},
             owner := r.owner[item.id := InHeap(item)])
        else r
    ensures DoPost(s, n, step).hist.discarded == s.hist.discarded
  {
    var s' := DoPost(s, n, step);
    RoleMapAfter(s.calls, n, s'.calls[n], Submits);
    RoleMapAfter(s.calls, n, s'.calls[n], Places);
    if step.PostInsert? && step.id !in s.db {
      StatesAfter(s.db, step.id, s'.db[step.id]);
    }
  }

  lemma PostKeepsOwned(s: Sys, n: nat, step: PostStep)
    requires Owned(s) && PostEnabled(s, n, step)
    ensures Owned(DoPost(s, n, step))
    ensures DoPost(s, n, step).hist.discarded == s.hist.discarded
  {
    PostRoles(s, n, step);
    if step.PostInsert? && step.id !in s.db {
      RecordCreated(RolesOf(s), n, step.id);
    } else if step.PostPush? {
      ItemSubmitted(RolesOf(s), n, s.calls[n].item);
    }
  }

  /** Terminate changes the state of a record only when it moves a Running one to Draining. */
  lemma DeleteRoles(s: Sys, n: nat, step: DeleteStep)
    requires DeleteEnabled(s, n, step)
    ensures
      var r := RolesOf(s);
      RolesOf(DoDelete(s, n, step)) ==
        if step.DeleteDrain? && s.calls[n].id in s.db && s.db[s.calls[n].id].state == s.calls[n].seen == Running
        then r.(states := r.states[s.calls[n].id := Draining])
        else r
    ensures DoDelete(s, n, step).hist.discarded == s.hist.discarded
  {
    if step.DeleteDrain? {
      DrainRoles(s, n);
    } else {
      DeleteMovesCall(s, n, step);
    }
  }

  lemma DeleteMovesCall(s: Sys, n: nat, step: DeleteStep)
    requires DeleteEnabled(s, n, step) && !step.DeleteDrain?
    ensures RolesOf(DoDelete(s, n, step)) == RolesOf(s)
    ensures DoDelete(s, n, step).hist.discarded == s.hist.discarded
  {
    CallMoves(s, n, DoDelete(s, n, step).calls[n]);
  }

  lemma DrainRoles(s: Sys, n: nat)
    requires DeleteEnabled(s, n, DeleteDrain)
    ensures
      var r, s' := RolesOf(s), DoDelete(s, n, DeleteDrain);
      && RolesOf(s') ==
         (if s.calls[n].id in s.db && s.db[s.calls[n].id].state == s.calls[n].seen == Running
          then r.(states := r.states[s.calls[n].id := Draining])
          else r)
      && s'.hist.discarded == s.hist.discarded
  {
    var s', id := DoDelete(s, n, DeleteDrain), s.calls[n].id;
    RoleMapAfter(s.calls, n, s'.calls[n], Submits);
    RoleMapAfter(s.calls, n, s'.calls[n], Places);
    if id in s.db && s.db[id].state == s.calls[n].seen == Running {
      StatesAfter(s.db, id, s'.db[id]);
    } else if id in s.db && Legal(s.db[id].state, Draining) {
      LegalClimbs(s.db[id].state, Draining);
    }
  }

  lemma DeleteKeepsOwned(s: Sys, n: nat, step: DeleteStep)
    requires Owned(s) && DeleteEnabled(s, n, step)
    ensures Owned(DoDelete(s, n, step))
    ensures DoDelete(s, n, step).hist.discarded == s.hist.discarded
  {
    DeleteRoles(s, n, step);
    if step.DeleteDrain? && s.calls[n].id in s.db && s.db[s.calls[n].id].state == s.calls[n].seen == Running {
      Drained(RolesOf(s), s.calls[n].id);
    }
  }

  /** Given that the dispatch loop's record is Queued, none of its registry calls fails. */
  lemma DispatchRoles(s: Sys, step: DispatchStep)
    requires DispatchEnabled(s, step)
    requires !s.dispatcher.Idle? ==> s.dispatcher.item.id in s.db && s.db[s.dispatcher.item.id].state == Queued
    ensures
      var r := RolesOf(s);
      RolesOf(DoDispatch(s, step)) ==
        match step
        case PopFirst(item) =>
          r.(queue := r.queue - multiset{item}, hand := Some(item), owner := r.owner[item.id := AtDispatcher])
        case PushBack =>
          var item := s.dispatcher.item;
          r.(queue := r.queue + multiset{item}, hand := None, owner := r.owner[item.id := InHeap(item)])
        case MarkExpired =>
          var id := s.dispatcher.item.id;
          r.(states := r.states[id := Failed], hand := None, owner := r.owner[id := Nobody])
        case MarkProvisioning(n) =>
          var id := s.dispatcher.item.id;
          r.(states := r.states[id := Provisioning], placers := r.placers[n := id], hand := None,
             owner := r.owner[id := Placement(n)])
        case _ => r
    ensures DoDispatch(s, step).hist.discarded == s.hist.discarded
  {
    var s' := DoDispatch(s, step);
    if step.MarkProvisioning? {
      LaunchRoles(s, step.n);
    } else if step.SaveHost? || step.MarkExpired? {
      StatesAfter(s.db, s.dispatcher.item.id, s'.db[s.dispatcher.item.id]);
    }
  }

  lemma LaunchRoles(s: Sys, n: nat)
    requires DispatchEnabled(s, MarkProvisioning(n))
    requires s.dispatcher.item.id in s.db && s.db[s.dispatcher.item.id].state == Queued
    ensures
      var r, id, s' := RolesOf(s), s.dispatcher.item.id, DoDispatch(s, MarkProvisioning(n));
      && RolesOf(s') == r.(states := r.states[id := Provisioning], placers := r.placers[n := id], hand := None,
                           owner := r.owner[id := Placement(n)])
      && s'.hist.discarded == s.hist.discarded
  {
    var s', id := DoDispatch(s, MarkProvisioning(n)), s.dispatcher.item.id;
    StatesAfter(s.db, id, s'.db[id]);
    RoleMapAfter(s.calls, n, s'.calls[n], Submits);
    RoleMapAfter(s.calls, n, s'.calls[n], Places);
  }

  lemma DispatchKeepsOwned(s: Sys, step: DispatchStep)
    requires Owned(s) && DispatchEnabled(s, step)
    ensures Owned(DoDispatch(s, step))
    ensures DoDispatch(s, step).hist.discarded == s.hist.discarded
  {
    var r := RolesOf(s);
    if !s.dispatcher.Idle? {
      assert OwnerFits(r, s.dispatcher.item.id, AtDispatcher);
    }
    DispatchRoles(s, step);
    match step
    case PopFirst(item) => ItemPopped(r, item);
    case PushBack => ItemReturned(r, s.dispatcher.item);
    case MarkExpired => ItemExpired(r);
    case MarkProvisioning(n) => ItemLaunched(r, n);
    case _ =>
  }

  /** Given that the placement's record is Provisioning, none of its registry calls fails. */
  lemma PlacementRoles(s: Sys, n: nat, step: PlacementStep)
    requires PlacementEnabled(s, n, step)
    requires s.calls[n].item.id in s.db && s.db[s.calls[n].item.id].state == Provisioning
    ensures
      var r := RolesOf(s);
      var id := s.calls[n].item.id;
      RolesOf(DoPlacement(s, n, step)) ==
        if step.MarkRunning? || step.MarkFailed? then
          r.(states := r.states[id := if step.MarkRunning? then Running else Failed], placers := r.placers - {n},
             owner := r.owner[id := Nobody])
        else r
    ensures DoPlacement(s, n, step).hist.discarded == s.hist.discarded
  {
    var s' := DoPlacement(s, n, step);
    var id := s.calls[n].item.id;
    CallAfterPlacementStep(s, n, step);
    RoleMapAfter(s.calls, n, s'.calls[n], Submits);
    RoleMapAfter(s.calls, n, s'.calls[n], Places);
    StatesAfter(s.db, id, s'.db[id]);
    assert !(step.MarkRunning? || step.MarkFailed?) ==> RolesOf(s') == RolesOf(s);
  }

  lemma CallAfterPlacementStep(s: Sys, n: nat, step: PlacementStep)
    requires PlacementEnabled(s, n, step)
    ensures
      var c, c' := s.calls[n], DoPlacement(s, n, step).calls[n];
      && Submits(c) == None && Submits(c') == None && Places(c) == Some(c.item.id)
      && Places(c') == (if step.MarkRunning? || step.MarkFailed? then None else Places(c))
      && DoPlacement(s, n, step).calls == s.calls[n := c']
  {
  }

  lemma PlacementKeepsOwned(s: Sys, n: nat, step: PlacementStep)
    requires Owned(s) && PlacementEnabled(s, n, step)
    ensures Owned(DoPlacement(s, n, step))
    ensures DoPlacement(s, n, step).hist.discarded == s.hist.discarded
  {
    var r := RolesOf(s);
    PlacementEnds(r, n, if step.MarkRunning? then Running else Failed);
    PlacementRoles(s, n, step);
  }

  lemma ExecKeepsOwned(s: Sys, n: nat, step: ExecStep)
    requires Owned(s) && ExecEnabled(s, n, step)
    ensures Owned(DoExec(s, n, step))
    ensures DoExec(s, n, step).hist.discarded == s.hist.discarded
  {
    ExecRoles(s, n, step);
  }

  lemma ExecRoles(s: Sys, n: nat, step: ExecStep)
    requires ExecEnabled(s, n, step)
    ensures RolesOf(DoExec(s, n, step)) == RolesOf(s)
    ensures DoExec(s, n, step).hist.discarded == s.hist.discarded
  {
    CallMoves(s, n, DoExec(s, n, step).calls[n]);
  }

  lemma EnvKeepsOwned(s: Sys, step: EnvStep)
    requires Owned(s)
    ensures Owned(DoEnv(s, step))
    ensures DoEnv(s, step).hist.discarded == s.hist.discarded
  {
    assert RolesOf(DoEnv(s, step)) == RolesOf(s);
  }

  lemma StepKeepsOwned(s: Sys, step: Step)
    requires Owned(s) && Enabled(s, step)
    ensures Owned(Do(s, step))
    ensures Do(s, step).hist.discarded == s.hist.discarded
  {
    match step
    case Post(n, p) => PostKeepsOwned(s, n, p);
    case Delete(n, d) => DeleteKeepsOwned(s, n, d);
    case Dispatch(d) => DispatchKeepsOwned(s, d);
    case Placing(n, p) => PlacementKeepsOwned(s, n, p);
    case Exec(n, e) => ExecKeepsOwned(s, n, e);
    case Env(e) => EnvKeepsOwned(s, e);
  }

  lemma {:induction false} RunKeepsOwned(s: Sys, steps: seq<Step>, end: Sys)
    requires Owned(s) && Runs(s, steps, end)
    ensures Owned(end) && end.hist.discarded == s.hist.discarded
    decreases |steps|
  {
    if steps != [] {
      StepKeepsOwned(s, steps[0]);
      RunKeepsOwned(Do(s, steps[0]), steps[1..], end);
    }
  }

  lemma AlwaysOwned(s: Sys)
    requires Reachable(s)
    ensures Owned(s) && s.hist.discarded == 0
  {
    var init, steps :| Init(init) && Runs(init, steps, s);
    assert RolesOf(init) == Roles(map[], map[], map[], multiset{}, None, map[]);
    RunKeepsOwned(init, steps, s);
  }

  // ---------- Main results ----------

  /** Everyone who holds the placement request of sandbox id, told from the shared state alone. */
  ghost function RequestHolders(s: Sys, id: string): set<Owner> {
    (set n | n in s.calls && Submits(s.calls[n]) == Some(id) :: Submitter(n))
    + (set item | item in s.queue && item.id == id :: InHeap(item))
    + (if InHand(s.dispatcher).Some? && InHand(s.dispatcher).value.id == id then {AtDispatcher} else {})
  }

  /** The placement goroutines of sandbox id that have not finished. */
  ghost function PlacementsInFlight(s: Sys, id: string): set<nat> {
    set n | n in s.calls && Places(s.calls[n]) == Some(id)
  }

  /**
   In every reachable state: a record is Queued exactly when its request is held in exactly one
   place, and is otherwise held nowhere; it is Provisioning exactly when exactly one placement is in
   flight; and the heap holds no item twice. So no admitted request is lost or duplicated.
   */
  lemma EveryRequestHasOneHolder(s: Sys, id: string)
    requires Reachable(s)
    ensures |RequestHolders(s, id)| == if id in s.db && s.db[id].state == Queued then 1 else 0
    ensures |PlacementsInFlight(s, id)| == if id in s.db && s.db[id].state == Provisioning then 1 else 0
    ensures forall item :: item in s.queue ==> s.queue[item] == 1
  {
    AlwaysOwned(s);
    HoldersByRole(s, id);
    OneHolder(RolesOf(s), id);
    OnePlacement(RolesOf(s), id);
    forall item | item in s.queue ensures s.queue[item] == 1 {
      assert item in RolesOf(s).queue;
    }
  }

  ghost function HoldersIn(r: Roles, id: string): set<Owner> {
    (set n | n in r.submitters && r.submitters[n] == id :: Submitter(n))
    + (set x | x in r.queue && x.id == id :: InHeap(x))
    + (if r.hand.Some? && r.hand.value.id == id then {AtDispatcher} else {})
  }

  ghost function PlacersIn(r: Roles, id: string): set<nat> {
    set n | n in r.placers && r.placers[n] == id
  }

  lemma HoldersByRole(s: Sys, id: string)
    ensures RequestHolders(s, id) == HoldersIn(RolesOf(s), id)
    ensures PlacementsInFlight(s, id) == PlacersIn(RolesOf(s), id)
  {
  }

  lemma HolderOwns(r: Roles, id: string, o: Owner)
    requires Own(r) && o in HoldersIn(r, id)
    ensures id in r.states && r.owner[id] == o && r.states[id] == Queued
  {
    assert id in r.owner && r.owner[id] == o;
    assert OwnerFits(r, id, o);
  }

  lemma OneHolder(r: Roles, id: string)
    requires Own(r)
    ensures |HoldersIn(r, id)| == if id in r.states && r.states[id] == Queued then 1 else 0
  {
    forall o | o in HoldersIn(r, id) ensures id in r.states && r.owner[id] == o && r.states[id] == Queued {
      HolderOwns(r, id, o);
    }
    if id in r.states && r.states[id] == Queued {
      assert OwnerFits(r, id, r.owner[id]);
      assert r.owner[id] in HoldersIn(r, id);
      assert HoldersIn(r, id) == {r.owner[id]};
    } else {
      assert HoldersIn(r, id) == {};
    }
  }

  lemma OnePlacement(r: Roles, id: string)
    requires Own(r)
    ensures |PlacersIn(r, id)| == if id in r.states && r.states[id] == Provisioning then 1 else 0
  {
    forall n | n in PlacersIn(r, id) ensures id in r.states && r.owner[id] == Placement(n) {
      assert OwnerFits(r, id, r.owner[id]);
    }
    if id in r.states && r.states[id] == Provisioning {
      assert OwnerFits(r, id, r.owner[id]);
      assert PlacersIn(r, id) == {r.owner[id].n};
    } else if id in r.states {
      assert OwnerFits(r, id, r.owner[id]);
      assert PlacersIn(r, id) == {};
    } else {
      assert PlacersIn(r, id) == {};
    }
  }

  /** Every registry result that the dispatch loop and the placement goroutines discard is a success. */
  lemma DiscardedErrorsAreNil(s: Sys)
    requires Reachable(s)
    ensures s.hist.discarded == 0
  {
    AlwaysOwned(s);
  }
}

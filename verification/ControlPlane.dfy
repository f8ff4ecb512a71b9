/**
 The sandbox control plane as a closed protocol (cmd/api/handlers.go, cmd/api/scheduler.go).

 Actors: any number of create, delete and exec requests, the dispatch loop, and the placement
 goroutines it starts. They share the registry, the deadline queue, the per-tenant quota counters
 and the host registry. Each step is one critical section or one atomic access of the source;
 everything between two of them can be interleaved.
 */
module ControlPlane {
  import opened Results
  import opened SandboxState
  import opened PendingHeap
  import opened Scheduling

  /** A queued request as a value; the heap's choice among items depends on `key` only. */
  datatype Item = Item(id: string, key: Urgency)

  /** What a host agent returns for a successful placement. */
  datatype Reply = Reply(cid: uint32, socket: string)

  datatype Outcome =
    | QuotaExceeded
    | Created
    | NoSuchSandbox
    | Forbidden
    | KillFailed
    | Killed(tenant: string, id: string)
    | PlacementOver
    | Conflict
    | NotRunning
    | NoAssignedHost
    | HostNotFound

  /** The point that a request or a placement goroutine has reached. */
  datatype Call =
    // handleCreateSandbox, Submit and Enqueue
    | CreateAdd(tenant: string, timeoutMs: nat)
    | CreateRollBack(tenant: string)
    | CreateInsert(tenant: string, timeoutMs: nat)
    | CreateLeaked(tenant: string)
    | CreateDeadline(id: string, timeoutMs: nat)
    | CreatePush(item: Item)
    // handleDeleteSandbox, Terminate and Release
    | DeleteFind(tenant: string, id: string)
    | TerminateGet(tenant: string, id: string)
    | TerminateTell(tenant: string, id: string, seen: State, host: string)
    | TerminateMove(tenant: string, id: string, seen: State)
    | ReleaseLoad(tenant: string, id: string)
    | ReleaseDecrement(tenant: string, id: string)
    // the placement goroutine
    | Place(item: Item, host: string, reading: int)
    | PlaceWait(item: Item, host: string, reading: int)
    | PlaceSave(item: Item, host: string, reading: int, reply: Reply)
    | PlaceRun(item: Item, host: string, reading: int, reply: Reply)
    | PlaceFail(item: Item, host: string, reading: int, reason: string)
    // handleExec and Exec
    | ExecCheck(tenant: string, id: string)
    | ExecGet(tenant: string, id: string)
    | ExecFind(tenant: string, id: string, host: string)
    | ExecSend(tenant: string, id: string, host: string)
    | Done(outcome: Outcome)

  /** The dispatch loop; from Choose on it carries the clock reading that passed the deadline check. */
  datatype Dispatcher =
    | Idle
    | Popped(item: Item)
    | Expire(item: Item)
    | Choose(item: Item, reading: int)
    | PutBack(item: Item)
    | Assign(item: Item, host: string, reading: int)
    | Commit(item: Item, host: string, reading: int)

  datatype Owner =
    | Submitter(n: nat)
    | InHeap(item: Item)
    | AtDispatcher
    | Placement(n: nat)
    | Nobody

  datatype Answer = Answer(host: string, reply: Reply)

  /** What the Release at the end of a successful delete did. */
  datatype Verdict =
    | Returned                  // it decremented, and gave the sandbox's slot back
    | Repeated(tenant: string)  // it decremented, and the slot had been given back before
    | Missed(tenant: string)    // it found the counter at zero, with the slot still held
    | Nothing                   // it found the counter at zero, with no slot to give back

  /**
   History variables. No guard and no other field reads them.
   owner: who is responsible for each record; slots: the sandboxes whose quota slot is still held;
   verdicts: what the releases of the delete requests did; placed: the calls of PlaceSandbox so far;
   answers: the successful answers; discarded: how many discarded registry results were errors; asked: what
   the create requests asked for.
   */
  datatype History = History(
    owner: map<string, Owner>,
    slots: map<string, string>,
    verdicts: map<nat, Verdict>,
    placed: multiset<string>,
    answers: map<string, Answer>,
    discarded: nat,
    asked: Asked)

  /** The timeouts that requests carried; the request behind each record; the clock when its deadline was set. */
  datatype Asked = Asked(timeouts: map<nat, nat>, creators: map<string, nat>, queuedAt: map<string, int>)

  const NO_HISTORY := History(map[], map[], map[], multiset{}, map[], 0, Asked(map[], map[], map[]))

  datatype Sys = Sys(
    clock: int,
    db: Db,
    queue: multiset<Item>,
    dispatcher: Dispatcher,
    calls: map<nat, Call>,
    hosts: map<string, Host>,
    quota: map<string, int>,
    configuredLimit: int,
    hist: History)

  ghost predicate Init(s: Sys) {
    && s.db == map[] && s.queue == multiset{} && s.dispatcher == Idle
    && s.calls == map[] && s.hosts == map[] && s.quota == map[]
    && s.hist == NO_HISTORY
  }

  function EffectiveLimit(configured: int): int {
    if configured <= 0 then 20 else configured
  }

  function Count(quota: map<string, int>, t: string): int {
    if t in quota then quota[t] else 0
  }

  function Bump(quota: map<string, int>, t: string, delta: int): map<string, int> {
    quota[t := Count(quota, t) + delta]
  }

  /** A registry call whose result the source throws away. */
  function Discarding(s: Sys, result: (Db, Result<(), Error>)): Sys {
    s.(db := result.0,
       hist := s.hist.(discarded := s.hist.discarded + if result.1.Err? then 1 else 0))
  }

  function At(s: Sys, n: nat, c: Call): Sys {
    s.(calls := s.calls[n := c])
  }

  function HandTo(s: Sys, id: string, owner: Owner): Sys {
    s.(hist := s.hist.(owner := s.hist.owner[id := owner]))
  }

  // ---------- POST /v1/sandboxes ----------

  datatype PostStep =
    | BeginPost(tenant: string, timeoutMs: nat)
    | PostAddOne
    | PostRollBack
    | PostInsert(id: string)
    | PostReadClock
    | PostPush

  predicate PostEnabled(s: Sys, n: nat, step: PostStep) {
    match step
    case BeginPost(_, _) => n !in s.calls
    case PostAddOne => n in s.calls && s.calls[n].CreateAdd?
    case PostRollBack => n in s.calls && s.calls[n].CreateRollBack?
    case PostInsert(_) => n in s.calls && s.calls[n].CreateInsert?
    case PostReadClock => n in s.calls && s.calls[n].CreateDeadline?
    case PostPush => n in s.calls && s.calls[n].CreatePush?
  }

  function NewRecord(tenant: string): Record {
    Record(tenant, Other(""), "", 0, "", 0, 0, "")
  }

  /** Call n has created record id, with a slot of its tenant. */
  function NoteCreation(h: History, n: nat, id: string, tenant: string): History {
    h.(owner := h.owner[id := Submitter(n)], slots := h.slots[id := tenant],
       asked := h.asked.(creators := h.asked.creators[id := n]))
  }

  function DoPost(s: Sys, n: nat, step: PostStep): Sys
    requires PostEnabled(s, n, step)
  {
    match step
    case BeginPost(tenant, timeoutMs) =>
      var asked := s.hist.asked;
      At(s, n, CreateAdd(tenant, timeoutMs))
      .(hist := s.hist.(asked := asked.(timeouts := asked.timeouts[n := timeoutMs])))
    case PostAddOne =>
      var t := s.calls[n].tenant;
      var s' := s.(quota := Bump(s.quota, t, 1));
      At(s', n, if Count(s'.quota, t) > EffectiveLimit(s.configuredLimit) then CreateRollBack(t)
                else CreateInsert(t, s.calls[n].timeoutMs))
    case PostRollBack => At(s.(quota := Bump(s.quota, s.calls[n].tenant, -1)), n, Done(QuotaExceeded))
    case PostInsert(id) =>
      var t := s.calls[n].tenant;
      var (db', r) := CreateIn(s.db, id, NewRecord(t), s.clock);
      if r.Err? then At(s, n, CreateLeaked(t))
      else
        At(s.(db := db', hist := NoteCreation(s.hist, n, id, t)), n, CreateDeadline(id, s.calls[n].timeoutMs))
    case PostReadClock =>
      var asked := s.hist.asked;
      At(s, n, CreatePush(Item(s.calls[n].id, Urgency(s.clock + s.calls[n].timeoutMs, 1))))
      .(hist := s.hist.(asked := asked.(queuedAt := asked.queuedAt[s.calls[n].id := s.clock])))
    case PostPush =>
      var item := s.calls[n].item;
      At(HandTo(s, item.id, InHeap(item)).(queue := s.queue + multiset{item}), n, Done(Created))
  }

  // ---------- DELETE /v1/sandboxes/{id} ----------

  datatype DeleteStep =
    | BeginDelete(tenant: string, id: string)
    | DeleteLookUp
    | DeleteReadState
    | DeleteTellHost
    | DeleteDrain
    | DeleteReadCounter
    | DeleteSubtractOne

  predicate DeleteEnabled(s: Sys, n: nat, step: DeleteStep) {
    match step
    case BeginDelete(_, _) => n !in s.calls
    case DeleteLookUp => n in s.calls && s.calls[n].DeleteFind?
    case DeleteReadState => n in s.calls && s.calls[n].TerminateGet?
    case DeleteTellHost => n in s.calls && s.calls[n].TerminateTell?
    case DeleteDrain => n in s.calls && s.calls[n].TerminateMove?
    case DeleteReadCounter => n in s.calls && s.calls[n].ReleaseLoad?
    case DeleteSubtractOne => n in s.calls && s.calls[n].ReleaseDecrement?
  }

  /** Call n is done with releasing sandbox id. */
  function Freed(s: Sys, n: nat, id: string, verdict: Verdict): Sys {
    s.(hist := s.hist.(slots := s.hist.slots - {id}, verdicts := s.hist.verdicts[n := verdict]))
  }

  function DoDelete(s: Sys, n: nat, step: DeleteStep): Sys
    requires DeleteEnabled(s, n, step)
  {
    match step
    case BeginDelete(tenant, id) => At(s, n, DeleteFind(tenant, id))
    case DeleteLookUp =>
      var (t, id) := (s.calls[n].tenant, s.calls[n].id);
      At(s, n, if id !in s.db then Done(NoSuchSandbox)
               else if s.db[id].tenant != t then Done(Forbidden)
               else TerminateGet(t, id))
    case DeleteReadState =>
      var (t, id) := (s.calls[n].tenant, s.calls[n].id);
      At(s, n, if id !in s.db then Done(KillFailed)
               else if IsTerminal(s.db[id].state) then ReleaseLoad(t, id)
               else TerminateTell(t, id, s.db[id].state, s.db[id].hostID))
    // The kill sent to the host agent, whose result is ignored, changes nothing here; see module Fleet.
    case DeleteTellHost => At(s, n, TerminateMove(s.calls[n].tenant, s.calls[n].id, s.calls[n].seen))
    case DeleteDrain =>
      var (t, id) := (s.calls[n].tenant, s.calls[n].id);
      var (db', r) := MoveIn(s.db, id, s.calls[n].seen, Draining, "client requested kill", s.clock);
      At(s.(db := db'), n, if r.Err? then Done(KillFailed) else ReleaseLoad(t, id))
    case DeleteReadCounter =>
      var (t, id) := (s.calls[n].tenant, s.calls[n].id);
      if Count(s.quota, t) > 0 then At(s, n, ReleaseDecrement(t, id))
      else At(Freed(s, n, id, if id in s.hist.slots then Missed(t) else Nothing), n, Done(Killed(t, id)))
    case DeleteSubtractOne =>
      var (t, id) := (s.calls[n].tenant, s.calls[n].id);
      var freed := Freed(s, n, id, if id in s.hist.slots then Returned else Repeated(t));
      At(freed.(quota := Bump(s.quota, t, -1)), n, Done(Killed(t, id)))
  }

  // ---------- The dispatch loop ----------

  datatype DispatchStep =
    | PopFirst(item: Item)
    | CheckDeadline
    | MarkExpired
    | ChooseHost(host: string)
    | FindNoHost
    | PushBack
    | SaveHost
    | MarkProvisioning(n: nat)

  predicate DispatchEnabled(s: Sys, step: DispatchStep) {
    match step
    case PopFirst(item) => s.dispatcher.Idle? && item in s.queue
    case CheckDeadline => s.dispatcher.Popped?
    case MarkExpired => s.dispatcher.Expire?
    case ChooseHost(host) => s.dispatcher.Choose? && host in s.hosts
    case FindNoHost => s.dispatcher.Choose? && s.hosts == map[]
    case PushBack => s.dispatcher.PutBack?
    case SaveHost => s.dispatcher.Assign?
    case MarkProvisioning(n) => s.dispatcher.Commit? && n !in s.calls
  }

  /** The heap hands out an item with the earliest deadline, and bestHost a host of maximum score. */
  ghost predicate DispatchChoiceRight(s: Sys, step: DispatchStep) {
    match step
    case PopFirst(item) =>
      forall x :: x in s.queue ==>
        item.key.deadline <= x.key.deadline
        && (item.key.deadline == x.key.deadline ==> item.key.priority >= x.key.priority)
    case ChooseHost(host) => IsBest(s.hosts, host)
    case _ => true
  }

  function DoDispatch(s: Sys, step: DispatchStep): Sys
    requires DispatchEnabled(s, step)
  {
    var d := s.dispatcher;
    match step
    case PopFirst(item) =>
      HandTo(s, item.id, AtDispatcher).(queue := s.queue - multiset{item}, dispatcher := Popped(item))
    case CheckDeadline =>
      s.(dispatcher := if s.clock > d.item.key.deadline then Expire(d.item) else Choose(d.item, s.clock))
    case MarkExpired =>
      HandTo(Discarding(s, MoveIn(s.db, d.item.id, Queued, Failed, "deadline exceeded", s.clock)), d.item.id, Nobody)
      .(dispatcher := Idle)
    case ChooseHost(host) => s.(dispatcher := Assign(d.item, host, d.reading))
    case FindNoHost => s.(dispatcher := PutBack(d.item))
    case PushBack =>
      HandTo(s, d.item.id, InHeap(d.item)).(queue := s.queue + multiset{d.item}, dispatcher := Idle)
    case SaveHost =>
      Discarding(s, SetHostIn(s.db, d.item.id, d.host, s.clock)).(dispatcher := Commit(d.item, d.host, d.reading))
    case MarkProvisioning(n) =>
      var result := MoveIn(s.db, d.item.id, Queued, Provisioning, "", s.clock);
      var moved := Discarding(s, result).(dispatcher := Idle);
      if result.1.Err? then HandTo(moved, d.item.id, Nobody)
      else At(HandTo(moved, d.item.id, Placement(n)), n, Place(d.item, d.host, d.reading))
  }

  // ---------- Placement goroutines ----------

  datatype PlacementStep =
    | CallHost
    | HostAnswers(reply: Reply)
    | HostRefuses(reason: string)
    | SaveReply
    | MarkRunning
    | MarkFailed

  predicate PlacementEnabled(s: Sys, n: nat, step: PlacementStep) {
    n in s.calls &&
    match step
    case CallHost => s.calls[n].Place?
    case HostAnswers(_) => s.calls[n].PlaceWait?
    case HostRefuses(_) => s.calls[n].PlaceWait?
    case SaveReply => s.calls[n].PlaceSave?
    case MarkRunning => s.calls[n].PlaceRun?
    case MarkFailed => s.calls[n].PlaceFail?
  }

  function DoPlacement(s: Sys, n: nat, step: PlacementStep): Sys
    requires PlacementEnabled(s, n, step)
  {
    var c := s.calls[n];
    match step
    case CallHost =>
      At(s, n, PlaceWait(c.item, c.host, c.reading)).(hist := s.hist.(placed := s.hist.placed + multiset{c.item.id}))
    case HostAnswers(reply) =>
      At(s, n, PlaceSave(c.item, c.host, c.reading, reply))
      .(hist := s.hist.(answers := s.hist.answers[c.item.id := Answer(c.host, reply)]))
    case HostRefuses(reason) => At(s, n, PlaceFail(c.item, c.host, c.reading, reason))
    case SaveReply =>
      At(Discarding(s, SetVsockIn(s.db, c.item.id, c.reply.cid, c.reply.socket, s.clock)), n,
         PlaceRun(c.item, c.host, c.reading, c.reply))
    case MarkRunning =>
      At(HandTo(Discarding(s, MoveIn(s.db, c.item.id, Provisioning, Running, "", s.clock)), c.item.id, Nobody),
         n, Done(PlacementOver))
    case MarkFailed =>
      At(HandTo(Discarding(s, MoveIn(s.db, c.item.id, Provisioning, Failed, c.reason, s.clock)), c.item.id, Nobody),
         n, Done(PlacementOver))
  }

  // ---------- POST /v1/sandboxes/{id}/exec ----------

  datatype ExecStep =
    | BeginExec(tenant: string, id: string)
    | ExecLookUp
    | ExecReadRecord
    | ExecLookUpHost

  predicate ExecEnabled(s: Sys, n: nat, step: ExecStep) {
    match step
    case BeginExec(_, _) => n !in s.calls
    case ExecLookUp => n in s.calls && s.calls[n].ExecCheck?
    case ExecReadRecord => n in s.calls && s.calls[n].ExecGet?
    case ExecLookUpHost => n in s.calls && s.calls[n].ExecFind?
  }

  function DoExec(s: Sys, n: nat, step: ExecStep): Sys
    requires ExecEnabled(s, n, step)
  {
    match step
    case BeginExec(tenant, id) => At(s, n, ExecCheck(tenant, id))
    case ExecLookUp =>
      var (t, id) := (s.calls[n].tenant, s.calls[n].id);
      At(s, n, if id !in s.db then Done(NoSuchSandbox)
               else if s.db[id].tenant != t then Done(Forbidden)
               else if s.db[id].state != Running then Done(Conflict)
               else ExecGet(t, id))
    case ExecReadRecord =>
      var (t, id) := (s.calls[n].tenant, s.calls[n].id);
      At(s, n, if id !in s.db then Done(NoSuchSandbox)
               else if s.db[id].state != Running then Done(NotRunning)
               else if s.db[id].hostID == "" then Done(NoAssignedHost)
               else ExecFind(t, id, s.db[id].hostID))
    case ExecLookUpHost =>
      var (t, id, host) := (s.calls[n].tenant, s.calls[n].id, s.calls[n].host);
      At(s, n, if host !in s.hosts then Done(HostNotFound) else ExecSend(t, id, host))
  }

  // ---------- The environment ----------

  datatype EnvStep =
    | Tick(elapsed: nat)
    | RegisterHost(host: Host)
    | ChangeHost(host: Host)

  /** Registered host IDs are not empty. */
  predicate EnvEnabled(s: Sys, step: EnvStep) {
    match step
    case Tick(_) => true
    case RegisterHost(host) => host.id != ""
    case ChangeHost(host) => host.id in s.hosts
  }

  function DoEnv(s: Sys, step: EnvStep): Sys {
    match step
    case Tick(elapsed) => s.(clock := s.clock + elapsed)
    case RegisterHost(host) => s.(hosts := s.hosts[host.id := host.(lastSeen := s.clock, healthy := true)])
    case ChangeHost(host) => s.(hosts := s.hosts[host.id := host])
  }

  // ---------- Runs ----------

  datatype Step =
    | Post(n: nat, post: PostStep)
    | Delete(n: nat, delete: DeleteStep)
    | Dispatch(dispatch: DispatchStep)
    | Placing(n: nat, placement: PlacementStep)
    | Exec(n: nat, exec: ExecStep)
    | Env(env: EnvStep)

  ghost predicate Enabled(s: Sys, step: Step) {
    match step
    case Post(n, p) => PostEnabled(s, n, p)
    case Delete(n, d) => DeleteEnabled(s, n, d)
    case Dispatch(d) => DispatchEnabled(s, d) && DispatchChoiceRight(s, d)
    case Placing(n, p) => PlacementEnabled(s, n, p)
    case Exec(n, e) => ExecEnabled(s, n, e)
    case Env(e) => EnvEnabled(s, e)
  }

  ghost function Do(s: Sys, step: Step): Sys
    requires Enabled(s, step)
  {
    match step
    case Post(n, p) => DoPost(s, n, p)
    case Delete(n, d) => DoDelete(s, n, d)
    case Dispatch(d) => DoDispatch(s, d)
    case Placing(n, p) => DoPlacement(s, n, p)
    case Exec(n, e) => DoExec(s, n, e)
    case Env(e) => DoEnv(s, e)
  }

  ghost predicate Runs(s: Sys, steps: seq<Step>, end: Sys)
    decreases |steps|
  {
    if steps == [] then end == s
    else Enabled(s, steps[0]) && Runs(Do(s, steps[0]), steps[1..], end)
  }

  ghost predicate Reachable(s: Sys) {
    exists init, steps :: Init(init) && Runs(init, steps, s)
  }

  lemma {:induction false} RunsThenStep(s: Sys, steps: seq<Step>, mid: Sys, step: Step)
    requires Runs(s, steps, mid) && Enabled(mid, step)
    ensures Runs(s, steps + [step], Do(mid, step))
    decreases |steps|
  {
    if steps == [] {
      assert Runs(Do(s, step), [step][1..], Do(mid, step));
    } else {
      RunsThenStep(Do(s, steps[0]), steps[1..], mid, step);
      assert (steps + [step])[1..] == steps[1..] + [step];
    }
  }

  lemma ReachableStep(s: Sys, step: Step)
    requires Reachable(s) && Enabled(s, step)
    ensures Reachable(Do(s, step))
  {
    var init, steps :| Init(init) && Runs(init, steps, s);
    RunsThenStep(init, steps, s, step);
  }

  lemma {:induction false} RunStaysReachable(s: Sys, steps: seq<Step>, end: Sys)
    requires Reachable(s) && Runs(s, steps, end)
    ensures Reachable(end)
    decreases |steps|
  {
    if steps != [] {
      ReachableStep(s, steps[0]);
      RunStaysReachable(Do(s, steps[0]), steps[1..], end);
    }
  }

  lemma {:induction false} RunsBoth(s: Sys, first: seq<Step>, mid: Sys, second: seq<Step>, end: Sys)
    requires Runs(s, first, mid) && Runs(mid, second, end)
    ensures Runs(s, first + second, end)
    decreases |first|
  {
    if first == [] {
      assert first + second == second;
    } else {
      RunsBoth(Do(s, first[0]), first[1..], mid, second, end);
      assert (first + second)[1..] == first[1..] + second;
    }
  }
}

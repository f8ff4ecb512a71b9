/**
 The sandbox lifecycle state machine and its in-memory registry (internal/state/state.go).

 The transition table and the effect of each registry call are given first as functions on
 values; the class `Store` is proved to compute exactly these functions, and the control plane
 protocol (module `ControlPlane`) uses the same functions as its atomic steps.
 */
module SandboxState {
  import opened Results

  type uint32 = x: int | 0 <= x < 0x1_0000_0000

  /** The source's states are strings; `Other` stands for every string that is not one of the six. */
  datatype State =
    | Queued
    | Provisioning
    | Running
    | Draining
    | Terminated
    | Failed
    | Other(name: string)

  datatype Error =
    | UnknownSource(state: State)
    | IllegalMove(from: State, to: State)
    | NotFound(id: string)
    | WrongState(actual: State, expected: State)
    | AlreadyExists(id: string)

  function ValidTransitions(s: State): Option<seq<State>> {
    match s
    case Queued => Some([Provisioning, Failed])
    case Provisioning => Some([Running, Failed])
    case Running => Some([Draining, Failed])
    case Draining => Some([Terminated])
    case Terminated => Some([])
    case Failed => Some([])
    case Other(_) => None
  }

  function CheckTransition(from: State, to: State): Result<(), Error> {
    match ValidTransitions(from)
    case None => Err(UnknownSource(from))
    case Some(allowed) => if to in allowed then Ok(()) else Err(IllegalMove(from, to))
  }

  predicate Legal(from: State, to: State) {
    CheckTransition(from, to).Ok?
  }

  predicate IsTerminal(s: State) {
    var allowed := ValidTransitions(s);
    allowed.Some? && |allowed.value| == 0
  }

  /** A sandbox that still occupies, or is about to occupy, a host. */
  predicate IsLive(s: State) {
    s == Queued || s == Provisioning || s == Running
  }

  /** The value of a stored record at one moment. */
  datatype Record = Record(
    tenant: string,
    state: State,
    hostID: string,
    vsockCID: uint32,
    vmAgentSocket: string,
    createdAt: int,
    updatedAt: int,
    failReason: string)

  type Db = map<string, Record>

  // ---------- Effect of each registry call on the registry's value ----------

  function CreateIn(db: Db, id: string, rec: Record, now: int): (Db, Result<(), Error>) {
    if id in db then (db, Err(AlreadyExists(id)))
    else (db[id := rec.(state := Queued, createdAt := now, updatedAt := now)], Ok(()))
  }

  function MoveIn(db: Db, id: string, expected: State, to: State, reason: string, now: int)
    : (Db, Result<(), Error>)
  {
    if id !in db then (db, Err(NotFound(id)))
    else if db[id].state != expected then (db, Err(WrongState(db[id].state, expected)))
    else
      match CheckTransition(db[id].state, to)
      case Err(e) => (db, Err(e))
      case Ok(_) =>
        var moved := db[id].(state := to, updatedAt := now);
        (db[id := if to == Failed then moved.(failReason := reason) else moved], Ok(()))
  }

  function SetHostIn(db: Db, id: string, hostID: string, now: int): (Db, Result<(), Error>) {
    if id !in db then (db, Err(NotFound(id)))
    else (db[id := db[id].(hostID := hostID, updatedAt := now)], Ok(()))
  }

  function SetVsockIn(db: Db, id: string, cid: uint32, socket: string, now: int): (Db, Result<(), Error>) {
    if id !in db then (db, Err(NotFound(id)))
    else (db[id := db[id].(vsockCID := cid, vmAgentSocket := socket, updatedAt := now)], Ok(()))
  }

  // ---------- Histories: any sequence of competing registry calls ----------

  datatype Op =
    | Create(id: string, rec: Record, now: int)
    | Move(id: string, expected: State, to: State, reason: string, now: int)
    | SetHost(id: string, hostID: string, now: int)
    | SetVsock(id: string, cid: uint32, socket: string, now: int)

  function Apply(db: Db, op: Op): (Db, Result<(), Error>) {
    match op
    case Create(id, rec, now) => CreateIn(db, id, rec, now)
    case Move(id, expected, to, reason, now) => MoveIn(db, id, expected, to, reason, now)
    case SetHost(id, hostID, now) => SetHostIn(db, id, hostID, now)
    case SetVsock(id, cid, socket, now) => SetVsockIn(db, id, cid, socket, now)
  }

  function Run(db: Db, ops: seq<Op>): Db
    decreases |ops|
  {
    if ops == [] then db else Run(Apply(db, ops[0]).0, ops[1..])
  }

  datatype Edge = Edge(from: State, to: State)

  /** The successful moves of sandbox `id` while `ops` run, in order. */
  function Moves(db: Db, ops: seq<Op>, id: string): seq<Edge>
    decreases |ops|
  {
    if ops == [] then []
    else
      var (next, r) := Apply(db, ops[0]);
      var rest := Moves(next, ops[1..], id);
      if ops[0].Move? && ops[0].id == id && r.Ok?
      then [Edge(ops[0].expected, ops[0].to)] + rest
      else rest
  }

  ghost predicate IsPath(from: State, edges: seq<Edge>, to: State)
    decreases |edges|
  {
    if edges == [] then from == to
    else edges[0].from == from && Legal(from, edges[0].to) && IsPath(edges[0].to, edges[1..], to)
  }

  function Rank(s: State): nat {
    match s
    case Queued => 0
    case Provisioning => 1
    case Running => 2
    case Draining => 3
    case _ => 4
  }

  lemma LegalClimbs(from: State, to: State)
    requires Legal(from, to)
    ensures Rank(from) < Rank(to) <= 4
    ensures !IsTerminal(from)
    ensures to == Draining ==> from == Running
    ensures to == Running ==> from == Provisioning
  {
    assert to in ValidTransitions(from).value;
  }

  /** The table in words: a live sandbox may fail, and otherwise a state moves on only to its successor. */
  lemma LegalExactly(from: State, to: State)
    ensures Legal(from, to) <==>
            || (IsLive(from) && to == Failed)
            || (!from.Other? && !to.Other? && to != Failed && Rank(to) == Rank(from) + 1)
    ensures CheckTransition(from, to).Err? ==>
              CheckTransition(from, to).error == if from.Other? then UnknownSource(from) else IllegalMove(from, to)
  {
    var allowed := ValidTransitions(from);
    if allowed.Some? {
      assert to in allowed.value <==> exists i :: 0 <= i < |allowed.value| && allowed.value[i] == to;
    }
  }

  /**
   Compare-and-move succeeds exactly from the expected state along a legal edge, and then changes the
   state, the time and, for Failed only, the reason of that one record; otherwise it changes nothing.
   */
  lemma MoveExactly(db: Db, id: string, expected: State, to: State, reason: string, now: int)
    ensures
      var (after, res) := MoveIn(db, id, expected, to, reason, now);
      && after.Keys == db.Keys
      && (res.Ok? <==> id in db && db[id].state == expected && Legal(expected, to))
      && (forall x :: x in db && (x != id || res.Err?) ==> after[x] == db[x])
      && (res.Ok? ==>
            && after[id].state == to && after[id].updatedAt == now
            && after[id].failReason == (if to == Failed then reason else db[id].failReason)
            && after[id].tenant == db[id].tenant && after[id].hostID == db[id].hostID
            && after[id].vsockCID == db[id].vsockCID && after[id].vmAgentSocket == db[id].vmAgentSocket
            && after[id].createdAt == db[id].createdAt)
  {
  }

  /** A creation files the given record under a new ID, Queued and stamped; a taken ID changes nothing. */
  lemma CreateExactly(db: Db, id: string, rec: Record, now: int)
    ensures
      var (after, res) := CreateIn(db, id, rec, now);
      && (res.Ok? <==> id !in db)
      && (res.Err? ==> after == db && res.error == AlreadyExists(id))
      && (res.Ok? ==>
            && after.Keys == db.Keys + {id} && (forall x :: x in db ==> after[x] == db[x])
            && after[id] == Record(rec.tenant, Queued, rec.hostID, rec.vsockCID, rec.vmAgentSocket, now, now,
                                   rec.failReason))
  {
  }

  /** Recording a host or a socket changes that and the time of an existing record, and nothing else. */
  lemma SettingExactly(db: Db, id: string, host: string, cid: uint32, socket: string, now: int)
    ensures
      var (hosted, r) := SetHostIn(db, id, host, now);
      var (wired, q) := SetVsockIn(db, id, cid, socket, now);
      && (id !in db ==> r == Err(NotFound(id)) && q == Err(NotFound(id)) && hosted == wired == db)
      && (id in db ==>
            var was := db[id];
            && r.Ok? && q.Ok?
            && hosted == db[id := Record(was.tenant, was.state, host, was.vsockCID, was.vmAgentSocket,
                                         was.createdAt, now, was.failReason)]
            && wired == db[id := Record(was.tenant, was.state, was.hostID, cid, socket,
                                        was.createdAt, now, was.failReason)])
  {
  }

  /** Of two competing moves of one record from the same state, the second fails whenever the first succeeds. */
  lemma OnlyOneMoverWins(db: Db, id: string, expected: State, to: State, other: State, reason: string, now: int)
    requires MoveIn(db, id, expected, to, reason, now).1.Ok?
    ensures MoveIn(MoveIn(db, id, expected, to, reason, now).0, id, expected, other, reason, now).1
         == Err(WrongState(to, expected))
  {
    LegalClimbs(expected, to);
  }

  /** Along a path the edges are ordered by rank, so no edge repeats. */
  lemma {:induction false} PathClimbs(from: State, edges: seq<Edge>, to: State)
    requires IsPath(from, edges, to)
    ensures Rank(to) >= Rank(from) + |edges|
    ensures forall i :: 0 <= i < |edges| ==>
              Legal(edges[i].from, edges[i].to) && Rank(edges[i].from) >= Rank(from) + i
    ensures forall i, j :: 0 <= i < j < |edges| ==> Rank(edges[i].from) < Rank(edges[j].from)
    decreases |edges|
  {
    if edges != [] {
      LegalClimbs(from, edges[0].to);
      PathClimbs(edges[0].to, edges[1..], to);
      assert forall i :: 1 <= i < |edges| ==> edges[i] == edges[1..][i - 1];
    }
  }

  /** A record, once present, is never removed, and its successful moves form a path. */
  lemma {:induction false} MovesFollowTable(db: Db, ops: seq<Op>, id: string)
    requires id in db
    ensures id in Run(db, ops)
    ensures IsPath(db[id].state, Moves(db, ops, id), Run(db, ops)[id].state)
    decreases |ops|
  {
    if ops != [] {
      var (next, r) := Apply(db, ops[0]);
      MovesFollowTable(next, ops[1..], id);
      var rest := Moves(next, ops[1..], id);
      if ops[0].Move? && ops[0].id == id && r.Ok? {
        assert ([Edge(ops[0].expected, ops[0].to)] + rest)[1..] == rest;
      }
    }
  }

  /** Before a record is created no move of it succeeds; afterwards its history starts at Queued. */
  lemma {:induction false} MovesBeforeCreation(db: Db, ops: seq<Op>, id: string)
    requires id !in db
    ensures id !in Run(db, ops) ==> Moves(db, ops, id) == []
    ensures id in Run(db, ops) ==> IsPath(Queued, Moves(db, ops, id), Run(db, ops)[id].state)
    decreases |ops|
  {
    if ops != [] {
      var next := Apply(db, ops[0]).0;
      if id in next {
        MovesFollowTable(next, ops[1..], id);
      } else {
        MovesBeforeCreation(next, ops[1..], id);
      }
    }
  }

  /**
   Safety of whole runs, from an empty registry and for any sequence of competing calls: each
   sandbox's history is a path of the transition table that starts at Queued, at most four of its
   moves succeed, each edge succeeds at most once, and Draining is entered only from Running.
   */
  lemma HistoryIsSafe(ops: seq<Op>, id: string)
    ensures
      var moves := Moves(map[], ops, id);
      && (id in Run(map[], ops) ==> IsPath(Queued, moves, Run(map[], ops)[id].state))
      && |moves| <= 4
      && (forall i :: 0 <= i < |moves| ==> Legal(moves[i].from, moves[i].to))
      && (forall i, j :: 0 <= i < j < |moves| ==> moves[i] != moves[j])
      && (forall i :: 0 <= i < |moves| && moves[i].to == Draining ==> moves[i].from == Running)
  {
    MovesBeforeCreation(map[], ops, id);
    if id in Run(map[], ops) {
      PathClimbs(Queued, Moves(map[], ops, id), Run(map[], ops)[id].state);
    }
  }

  /** A terminal record keeps its state through every later call, and every later move of it fails. */
  lemma TerminalAbsorbs(db: Db, ops: seq<Op>, id: string)
    requires id in db && IsTerminal(db[id].state)
    ensures id in Run(db, ops) && Run(db, ops)[id].state == db[id].state
    ensures Moves(db, ops, id) == []
  {
    MovesFollowTable(db, ops, id);
  }

  // ---------- What a record remembers ----------

  /** Call k is the last that records a host for the sandbox. */
  ghost predicate LastHost(ops: seq<Op>, id: string, k: nat) {
    k < |ops| && ops[k].SetHost? && ops[k].id == id
    && forall j :: k < j < |ops| ==> !(ops[j].SetHost? && ops[j].id == id)
  }

  ghost predicate NoHost(ops: seq<Op>, id: string) {
    forall j :: 0 <= j < |ops| ==> !(ops[j].SetHost? && ops[j].id == id)
  }

  /** Call k is the last that records socket data for the sandbox. */
  ghost predicate LastSocket(ops: seq<Op>, id: string, k: nat) {
    k < |ops| && ops[k].SetVsock? && ops[k].id == id
    && forall j :: k < j < |ops| ==> !(ops[j].SetVsock? && ops[j].id == id)
  }

  /**
   Under any later calls an existing record keeps its tenant and its time of creation, and names the host
   and the socket that were recorded last; if no host is recorded it keeps the one it names.
   */
  lemma RecordRemembers(db: Db, ops: seq<Op>, id: string)
    requires id in db
    ensures id in Run(db, ops)
    ensures Run(db, ops)[id].tenant == db[id].tenant && Run(db, ops)[id].createdAt == db[id].createdAt
    ensures forall k: nat :: LastHost(ops, id, k) ==> Run(db, ops)[id].hostID == ops[k].hostID
    ensures NoHost(ops, id) ==> Run(db, ops)[id].hostID == db[id].hostID
    ensures forall k: nat :: LastSocket(ops, id, k) ==>
              Run(db, ops)[id].vsockCID == ops[k].cid && Run(db, ops)[id].vmAgentSocket == ops[k].socket
  {
    HostRemembered(db, ops, id);
    SocketRemembered(db, ops, id);
  }

  lemma {:induction false} HostRemembered(db: Db, ops: seq<Op>, id: string)
    requires id in db
    ensures id in Run(db, ops)
    ensures Run(db, ops)[id].tenant == db[id].tenant && Run(db, ops)[id].createdAt == db[id].createdAt
    ensures forall k: nat :: LastHost(ops, id, k) ==> Run(db, ops)[id].hostID == ops[k].hostID
    ensures NoHost(ops, id) ==> Run(db, ops)[id].hostID == db[id].hostID
    decreases |ops|
  {
    if ops != [] {
      var next, rest := Apply(db, ops[0]).0, ops[1..];
      HostRemembered(next, rest, id);
      forall k: nat | LastHost(ops, id, k) ensures Run(db, ops)[id].hostID == ops[k].hostID {
        if k == 0 {
          assert NoHost(rest, id);
        } else {
          assert LastHost(rest, id, k - 1);
        }
      }
      if NoHost(ops, id) {
        assert NoHost(rest, id) && next[id].hostID == db[id].hostID;
      }
    }
  }

  ghost predicate NoSocket(ops: seq<Op>, id: string) {
    forall j :: 0 <= j < |ops| ==> !(ops[j].SetVsock? && ops[j].id == id)
  }

  lemma {:induction false} SocketRemembered(db: Db, ops: seq<Op>, id: string)
    requires id in db
    ensures id in Run(db, ops)
    ensures forall k: nat :: LastSocket(ops, id, k) ==>
              Run(db, ops)[id].vsockCID == ops[k].cid && Run(db, ops)[id].vmAgentSocket == ops[k].socket
    ensures NoSocket(ops, id) ==>
              Run(db, ops)[id].vsockCID == db[id].vsockCID && Run(db, ops)[id].vmAgentSocket == db[id].vmAgentSocket
    decreases |ops|
  {
    if ops != [] {
      var next, rest := Apply(db, ops[0]).0, ops[1..];
      SocketRemembered(next, rest, id);
      forall k: nat | LastSocket(ops, id, k)
        ensures Run(db, ops)[id].vsockCID == ops[k].cid && Run(db, ops)[id].vmAgentSocket == ops[k].socket
      {
        if k == 0 {
          assert NoSocket(rest, id);
        } else {
          assert LastSocket(rest, id, k - 1);
        }
      }
      if NoSocket(ops, id) {
        assert NoSocket(rest, id);
      }
    }
  }

  // ---------- The registry ----------

  class SandboxRecord {
    const ID: string
    var TenantID: string
    var State: State
    var HostID: string
    var VsockCID: uint32
    var VMAgentSocket: string
    var CreatedAt: int
    var UpdatedAt: int
    var FailReason: string

    constructor (id: string, rec: Record)
      ensures ID == id && Value() == rec
    {
      ID := id;
      TenantID, State, HostID := rec.tenant, rec.state, rec.hostID;
      VsockCID, VMAgentSocket := rec.vsockCID, rec.vmAgentSocket;
      CreatedAt, UpdatedAt, FailReason := rec.createdAt, rec.updatedAt, rec.failReason;
    }

    /** The assignments of a successful transition. */
    method Enter(newState: State, reason: string, now: int)
      modifies this
      ensures
        var moved := old(Value()).(state := newState, updatedAt := now);
        Value() == if newState == Failed then moved.(failReason := reason) else moved
    {
      State := newState;
      UpdatedAt := now;
      if newState == Failed {
        FailReason := reason;
      }
    }

    function Value(): Record
      reads this
    {
      Record(TenantID, State, HostID, VsockCID, VMAgentSocket, CreatedAt, UpdatedAt, FailReason)
    }
  }

  class Store {
    var records: map<string, SandboxRecord>

    /** Every record is filed under its own ID, so two keys never share a record. */
    ghost predicate Valid()
      reads this, records.Values
    {
      forall id :: id in records ==> records[id].ID == id
    }

    ghost function View(): Db
      reads this, records.Values
    {
      map id | id in records :: records[id].Value()
    }

    constructor ()
      ensures Valid() && View() == map[]
    {
      records := map[];
    }

    /** Inserts the caller's record itself, rewriting its state and times in place. */
    method Create(r: SandboxRecord, now: int) returns (res: Result<(), Error>)
      requires Valid()
      modifies this, r
      ensures Valid()
      ensures (View(), res) == CreateIn(old(View()), r.ID, old(r.Value()), now)
      ensures records.Values <= old(records.Values) + {r}
      ensures res.Err? ==> r.Value() == old(r.Value())
    {
      if r.ID in records {
        return Err(AlreadyExists(r.ID));
      }
      assert r !in records.Values;
      r.State := Queued;
      r.CreatedAt := now;
      r.UpdatedAt := r.CreatedAt;
      records := records[r.ID := r];
      assert View() == old(View())[r.ID := r.Value()];
      return Ok(());
    }

    method Transition(id: string, expectedCurrent: State, newState: State, reason: string, now: int)
      returns (res: Result<(), Error>)
      requires Valid()
      modifies records.Values
      ensures Valid() && records == old(records)
      ensures (View(), res) == MoveIn(old(View()), id, expectedCurrent, newState, reason, now)
    {
      if id !in records {
        return Err(NotFound(id));
      }
      var r := records[id];
      if r.State != expectedCurrent {
        return Err(WrongState(r.State, expectedCurrent));
      }
      var verdict := CheckTransition(r.State, newState);
      if verdict.Err? {
        return verdict;
      }
      EnterState(id, newState, reason, now);
      return Ok(());
    }

    /** The assignments of a successful transition, in the registry. */
    method EnterState(id: string, newState: State, reason: string, now: int)
      requires Valid() && id in records
      modifies records[id]
      ensures Valid()
      ensures
        var moved := old(View())[id].(state := newState, updatedAt := now);
        View() == old(View())[id := if newState == Failed then moved.(failReason := reason) else moved]
    {
      var r := records[id];
      r.Enter(newState, reason, now);
      assert View() == old(View())[id := r.Value()];
    }

    /** Returns a fresh copy: changing it cannot change the registry. */
    method Get(id: string) returns (res: Result<SandboxRecord, Error>)
      requires Valid()
      ensures res.Ok? <==> id in records
      ensures res.Ok? ==> fresh(res.value) && res.value.ID == id && res.value.Value() == View()[id]
      ensures res.Err? ==> res.error == NotFound(id)
    {
      if id !in records {
        return Err(NotFound(id));
      }
      var copy := new SandboxRecord(id, records[id].Value());
      return Ok(copy);
    }

    method SetHostID(id: string, hostID: string, now: int) returns (res: Result<(), Error>)
      requires Valid()
      modifies records.Values
      ensures Valid() && records == old(records)
      ensures (View(), res) == SetHostIn(old(View()), id, hostID, now)
    {
      if id !in records {
        return Err(NotFound(id));
      }
      var r := records[id];
      r.HostID := hostID;
      r.UpdatedAt := now;
      assert View() == old(View())[id := r.Value()];
      return Ok(());
    }

    method SetVsockCID(id: string, cid: uint32, unixSocket: string, now: int) returns (res: Result<(), Error>)
      requires Valid()
      modifies records.Values
      ensures Valid() && records == old(records)
      ensures (View(), res) == SetVsockIn(old(View()), id, cid, unixSocket, now)
    {
      if id !in records {
        return Err(NotFound(id));
      }
      var r := records[id];
      r.VsockCID := cid;
      r.VMAgentSocket := unixSocket;
      r.UpdatedAt := now;
      assert View() == old(View())[id := r.Value()];
      return Ok(());
    }
  }
}

/**
 The scheduler: host registry, host scoring, and the dispatch of queued requests
 (cmd/orchestrator/scheduler.go; cmd/api/scheduler.go is a near copy).
 */
module Scheduling {
  import opened Results
  import opened SandboxState
  import opened PendingHeap

  // ---------- Host scores, on values ----------

  datatype Host = Host(id: string, activeVMs: nat, idlePool: nat, cpuUsagePct: real, lastSeen: int, healthy: bool)

  function Score(h: Host): real {
    if !h.healthy then -1.0
    else
      var fit := 1.0 - h.cpuUsagePct / 100.0;
      0.4 * (if fit < 0.0 then 0.0 else fit) + 0.35 * (if h.idlePool > 0 then 1.0 else 0.0) + 0.25
  }

  /** The cpu fit that the comment above scoreHost documents: full below 50%, then falling to 0 at 100%. */
  function DocumentedFit(usage: real): real {
    if usage < 50.0 then 1.0 else if usage <= 100.0 then (100.0 - usage) / 50.0 else 0.0
  }

  function DocumentedScore(h: Host): real {
    0.4 * DocumentedFit(h.cpuUsagePct) + 0.35 * (if h.idlePool > 0 then 1.0 else 0.0) + 0.25
  }

  /** For reported usage of 0% or more, the code's score of a healthy host is the documented one only at the ends. */
  lemma ScoreMatchesDocumentExactly(h: Host)
    requires h.healthy && h.cpuUsagePct >= 0.0
    ensures Score(h) == DocumentedScore(h) <==> h.cpuUsagePct == 0.0 || h.cpuUsagePct >= 100.0
  {
    var u := h.cpuUsagePct;
    if u < 50.0 {
      assert 1.0 - u / 100.0 == DocumentedFit(u) <==> u == 0.0;
    } else if u <= 100.0 {
      assert (100.0 - u) / 50.0 == 2.0 * (1.0 - u / 100.0);
    }
  }

  lemma HealthyOutscoresUnhealthy(h: Host)
    ensures Score(h) > -2.0
    ensures h.healthy <==> Score(h) > 0.0
    ensures !h.healthy ==> Score(h) == -1.0
  {
    if h.healthy {
      var fit := 1.0 - h.cpuUsagePct / 100.0;
      assert Score(h) >= 0.25;
    }
  }

  /** What bestHost may return: some host of maximum score, in whatever order the registry is read. */
  ghost predicate IsBest(hosts: map<string, Host>, id: string) {
    id in hosts && forall k :: k in hosts ==> Score(hosts[k]) <= Score(hosts[id])
  }

  /** For healthy hosts up to 100% a percentage point of cpu usage costs 0.004, and a warm pool is worth 0.35. */
  lemma ScoreGap(h: Host, g: Host)
    requires h.healthy && g.healthy && h.cpuUsagePct <= 100.0 && g.cpuUsagePct <= 100.0
    ensures
      var warm := (if h.idlePool > 0 then 1.0 else 0.0) - (if g.idlePool > 0 then 1.0 else 0.0);
      Score(h) - Score(g) == 0.004 * (g.cpuUsagePct - h.cpuUsagePct) + 0.35 * warm
  {
    assert 0.4 * (1.0 - h.cpuUsagePct / 100.0) == 0.4 - 0.004 * h.cpuUsagePct;
    assert 0.4 * (1.0 - g.cpuUsagePct / 100.0) == 0.4 - 0.004 * g.cpuUsagePct;
  }

  /** What a host has against it, in points of cpu usage: usage counts up to 100%, no warm pool as much as 87.5%. */
  function Burden(h: Host): real {
    (if h.cpuUsagePct > 100.0 then 100.0 else h.cpuUsagePct) + (if h.idlePool > 0 then 0.0 else 87.5)
  }

  lemma ScoreIsBurden(h: Host)
    requires h.healthy
    ensures Score(h) == 1.0 - 0.004 * Burden(h)
  {
    assert 0.4 * (1.0 - h.cpuUsagePct / 100.0) == 0.4 - 0.004 * h.cpuUsagePct;
  }

  /** bestHost's choice on what hosts report: a healthy host if there is one, and then one of least burden. */
  lemma ChoiceExactly(hosts: map<string, Host>, id: string)
    ensures IsBest(hosts, id) <==>
              && id in hosts
              && forall k :: k in hosts && hosts[k].healthy ==>
                   hosts[id].healthy && Burden(hosts[id]) <= Burden(hosts[k])
  {
    if id in hosts {
      forall k | k in hosts
        ensures Score(hosts[k]) <= Score(hosts[id]) <==>
                (hosts[k].healthy ==> hosts[id].healthy && Burden(hosts[id]) <= Burden(hosts[k]))
      {
        Compared(hosts[id], hosts[k]);
      }
    }
  }

  /**
   No healthy host is to be preferred to h: h is healthy if any is, and among hosts up to 100% h has the
   least cpu usage of those alike in warm pool; a warm pool outweighs up to 87.5 points of usage.
   */
  ghost predicate LeastLoaded(h: Host, hosts: map<string, Host>) {
    forall k :: k in hosts && hosts[k].healthy ==>
      && h.healthy
      && (h.cpuUsagePct <= 100.0 && hosts[k].cpuUsagePct <= 100.0 ==>
            && ((h.idlePool > 0 <==> hosts[k].idlePool > 0) ==> h.cpuUsagePct <= hosts[k].cpuUsagePct)
            && (h.idlePool == 0 && hosts[k].idlePool > 0 ==> h.cpuUsagePct + 87.5 <= hosts[k].cpuUsagePct)
            && (h.idlePool > 0 && hosts[k].idlePool == 0 ==> h.cpuUsagePct <= hosts[k].cpuUsagePct + 87.5))
  }

  lemma BestIsLeastLoaded(hosts: map<string, Host>, id: string)
    requires IsBest(hosts, id)
    ensures LeastLoaded(hosts[id], hosts)
  {
    ChoiceExactly(hosts, id);
  }

  lemma Compared(h: Host, g: Host)
    ensures Score(g) <= Score(h) <==> (g.healthy ==> h.healthy && Burden(h) <= Burden(g))
  {
    HealthyOutscoresUnhealthy(h);
    HealthyOutscoresUnhealthy(g);
    if h.healthy {
      ScoreIsBurden(h);
    }
    if g.healthy {
      ScoreIsBurden(g);
    }
  }

  lemma {:induction false} BestExists(hosts: map<string, Host>)
    requires hosts != map[]
    ensures exists id :: IsBest(hosts, id)
    decreases |hosts|
  {
    var k :| k in hosts;
    var rest := hosts - {k};
    if rest == map[] {
      assert forall j :: j in hosts && j != k ==> j in rest;
      assert IsBest(hosts, k);
    } else {
      assert |rest.Keys| < |hosts.Keys| by { assert rest.Keys == hosts.Keys - {k}; }
      BestExists(rest);
      var b :| IsBest(rest, b);
      assert forall j :: j in hosts && j != k ==> j in rest;
      assert IsBest(hosts, if Score(hosts[k]) > Score(hosts[b]) then k else b);
    }
  }

  /** A best host is healthy exactly when the registry holds any healthy host. */
  lemma BestIsHealthyIfAnyIs(hosts: map<string, Host>, id: string)
    requires IsBest(hosts, id)
    ensures hosts[id].healthy <==> exists k :: k in hosts && hosts[k].healthy
  {
    HealthyOutscoresUnhealthy(hosts[id]);
    if k :| k in hosts && hosts[k].healthy {
      HealthyOutscoresUnhealthy(hosts[k]);
    }
  }

  /**
   bestHost is documented to report an error when no healthy host is available. As written it
   reports one exactly when the registry is empty, so it meets its documentation exactly when the
   registry is empty or holds a healthy host; otherwise it returns an unhealthy host.
   */
  lemma ErrorMatchesDocumentExactly(hosts: map<string, Host>)
    ensures
      var reportsError := !exists id :: IsBest(hosts, id);
      var noneHealthy := forall k :: k in hosts ==> !hosts[k].healthy;
      && (reportsError <==> hosts == map[])
      && ((reportsError <==> noneHealthy) <==> (hosts == map[] || !noneHealthy))
      && (!reportsError && noneHealthy ==> forall id :: IsBest(hosts, id) ==> !hosts[id].healthy)
  {
    if hosts != map[] {
      BestExists(hosts);
    }
  }

  // ---------- The scheduler ----------

  class HostInfo {
    const ID: string
    const Addr: string
    var ActiveVMs: nat
    var IdlePool: nat
    var CPUUsagePct: real
    var LastSeen: int
    var Healthy: bool

    constructor (id: string, addr: string)
      ensures ID == id && Addr == addr && Value() == Host(id, 0, 0, 0.0, 0, false)
    {
      ID, Addr := id, addr;
      ActiveVMs, IdlePool, CPUUsagePct, LastSeen, Healthy := 0, 0, 0.0, 0, false;
    }

    function Value(): Host
      reads this
    {
      Host(ID, ActiveVMs, IdlePool, CPUUsagePct, LastSeen, Healthy)
    }
  }

  datatype Dispatched =
    | NothingQueued
    | Expired(item: PendingItem)
    | Requeued(item: PendingItem)
    | Abandoned(item: PendingItem, host: HostInfo)
    | Launched(item: PendingItem, host: HostInfo)

  /** What a pass does to the registry with the item it took from the queue, outcome by outcome. */
  ghost predicate PlaceEffect(out: Dispatched, item: PendingItem, now: int, db: Db, db': Db, hosts: map<string, Host>)
  {
    match out
    case NothingQueued => false
    case Expired(x) =>
      && x == item && now > item.deadline
      && db' == MoveIn(db, item.sandboxID, Queued, Failed, "deadline exceeded", now).0
    case Requeued(x) =>
      && x == item && now <= item.deadline
      && hosts == map[] && db' == db
    case Abandoned(x, host) =>
      && x == item && now <= item.deadline
      && IsBest(hosts, host.ID)
      && (item.sandboxID in db ==> db[item.sandboxID].state != Queued)
      && db' == SetHostIn(db, item.sandboxID, host.ID, now).0
    case Launched(x, host) =>
      && x == item && now <= item.deadline
      && IsBest(hosts, host.ID)
      && MoveIn(SetHostIn(db, item.sandboxID, host.ID, now).0, item.sandboxID, Queued, Provisioning, "", now)
         == (db', Ok(()))
  }

  /**
   What one pass does to queue and registry: an item with the earliest deadline and, among those, the
   highest priority leaves the queue, or stays when it is requeued.
   */
  ghost predicate PassEffect(out: Dispatched, now: int, before: seq<PendingItem>, after: seq<PendingItem>,
                             db: Db, db': Db, hosts: map<string, Host>)
  {
    if out.NothingQueued? then before == [] && after == [] && db' == db
    else
      && PlaceEffect(out, out.item, now, db, db', hosts)
      && out.item in before
      && (forall x :: x in before ==>
            out.item.deadline <= x.deadline
            && (out.item.deadline == x.deadline ==> out.item.priority >= x.priority))
      && multiset(before) == multiset(after) + if out.Requeued? then multiset{} else multiset{out.item}
  }

  class Scheduler {
    const store: Store
    const queue: PendingQueue
    var hosts: map<string, HostInfo>

    ghost predicate Valid()
      reads this, store, store.records.Values, queue, queue.items, hosts.Values
    {
      store.Valid() && queue.Valid() && forall id :: id in hosts ==> hosts[id].ID == id
    }

    ghost function Hosts(): map<string, Host>
      reads this, hosts.Values
    {
      map id | id in hosts :: hosts[id].Value()
    }

    constructor (store: Store)
      requires store.Valid()
      ensures Valid() && this.store == store && fresh(queue) && queue.items == [] && hosts == map[]
    {
      this.store := store;
      queue := new PendingQueue();
      hosts := map[];
    }

    method RegisterHost(h: HostInfo, now: int)
      requires Valid()
      modifies this, h
      ensures Valid()
      ensures Hosts() == old(Hosts())[h.ID := old(h.Value()).(lastSeen := now, healthy := true)]
      ensures hosts == old(hosts)[h.ID := h]
    {
      h.LastSeen := now;
      h.Healthy := true;
      hosts := hosts[h.ID := h];
      assert forall id :: id in old(hosts) && id != h.ID ==> old(hosts)[id] != h;
      assert Hosts() == old(Hosts())[h.ID := h.Value()];
    }

    method UpdateHostHealth(hostID: string, healthy: bool)
      requires Valid()
      modifies hosts.Values
      ensures Valid()
      ensures Hosts() == if hostID in old(Hosts())
                         then old(Hosts())[hostID := old(Hosts())[hostID].(healthy := healthy)]
                         else old(Hosts())
    {
      if hostID in hosts {
        var h := hosts[hostID];
        h.Healthy := healthy;
        assert Hosts() == old(Hosts())[hostID := h.Value()];
      }
    }

    method Enqueue(sandboxID: string, sp: SandboxSpec, timeoutMs: nat, now: int) returns (item: PendingItem)
      requires Valid()
      modifies queue, queue.items
      ensures Valid() && fresh(item)
      ensures item.sandboxID == sandboxID && item.spec == sp
      ensures item.deadline == now + timeoutMs && item.priority == 1
      ensures multiset(queue.items) == old(multiset(queue.items)) + multiset{item}
    {
      item := new PendingItem(sandboxID, sp, now + timeoutMs, 1);
      queue.HeapPush(item);
    }

    /** Go's map iteration order is arbitrary, so the loop takes the hosts in any order. */
    method BestHost() returns (best: HostInfo?)
      requires Valid()
      ensures best == null <==> hosts == map[]
      ensures best != null ==> best in hosts.Values && IsBest(Hosts(), best.ID)
      ensures best != null ==> LeastLoaded(best.Value(), Hosts())
    {
      best := null;
      var bestScore := -2.0;
      var left := hosts.Keys;
      while left != {}
        invariant left <= hosts.Keys
        invariant best == null ==> bestScore == -2.0 && left == hosts.Keys
        invariant best != null ==> best in hosts.Values && bestScore == Score(best.Value())
        invariant forall k :: k in hosts && k !in left ==> Score(hosts[k].Value()) <= bestScore
        decreases |left|
      {
        var k :| k in left;
        var h := hosts[k];
        var sc := Score(h.Value());
        HealthyOutscoresUnhealthy(h.Value());
        if sc > bestScore {
          bestScore := sc;
          best := h;
        }
        left := left - {k};
      }
      if best == null {
        assert hosts == map[];
      } else {
        BestIsLeastLoaded(Hosts(), best.ID);
      }
    }

    /**
     One pass of the dispatch loop. `now` is the clock reading of the pass. The goroutine that places
     the sandbox starts after the pass; `Launched` says with which item and host.
     */
    method DispatchPending(now: int) returns (out: Dispatched)
      requires Valid()
      modifies queue, queue.items, store.records.Values
      ensures Valid() && store.records == old(store.records)
      ensures PassEffect(out, now, old(queue.items), queue.items, old(store.View()), store.View(), old(Hosts()))
      ensures out.Launched? ==> out.host in hosts.Values
    {
      if queue.Len() == 0 {
        return NothingQueued;
      }
      var item := queue.HeapPop();
      assert item in old(queue.items);
      assert forall k :: 0 <= k < |queue.items| ==> queue.items[k] in old(queue.items);
      out := Place(item, now);
      assert out.item == item;
    }

    /** The rest of the pass, with the popped item in hand and the queue unlocked. */
    method Place(item: PendingItem, now: int) returns (out: Dispatched)
      requires Valid() && item !in queue.items
      modifies queue, queue.items, item, store.records.Values
      ensures Valid() && store.records == old(store.records)
      ensures PlaceEffect(out, item, now, old(store.View()), store.View(), old(Hosts()))
      ensures out.Launched? ==> out.host in hosts.Values
      ensures !out.Requeued? ==> queue.items == old(queue.items)
      ensures out.Requeued? ==> multiset(queue.items) == old(multiset(queue.items)) + multiset{item}
    {
      if now > item.deadline {
        var _ := store.Transition(item.sandboxID, Queued, Failed, "deadline exceeded", now);
        return Expired(item);
      }
      var host := BestHost();
      if host == null {
        queue.HeapPush(item);
        return Requeued(item);
      }
      var moved := Assign(item.sandboxID, host.ID, now);
      return if moved then Launched(item, host) else Abandoned(item, host);
    }

    /** The two registry calls that hand a popped request to a host. */
    method Assign(sandboxID: string, hostID: string, now: int) returns (moved: bool)
      requires Valid()
      modifies store.records.Values
      ensures store.Valid() && store.records == old(store.records)
      ensures moved <==> sandboxID in old(store.View()) && old(store.View())[sandboxID].state == Queued
      ensures
        var withHost := SetHostIn(old(store.View()), sandboxID, hostID, now).0;
        if moved
        then MoveIn(withHost, sandboxID, Queued, Provisioning, "", now) == (store.View(), Ok(()))
        else store.View() == withHost
    {
      var _ := store.SetHostID(sandboxID, hostID, now);
      var res := store.Transition(sandboxID, Queued, Provisioning, "", now);
      return res.Ok?;
    }

    /** While a host is registered and something is queued, a pass always serves an item with the earliest deadline. */
    method Serve(now: int) returns (item: PendingItem)
      requires Valid() && hosts != map[] && queue.items != []
      modifies queue, queue.items, store.records.Values
      ensures Valid() && store.records == old(store.records)
      ensures old(multiset(queue.items)) == multiset(queue.items) + multiset{item}
      ensures forall x :: x in old(queue.items) ==>
                && item.deadline <= x.deadline
                && (item.deadline == x.deadline ==> item.priority >= x.priority)
    {
      var out := DispatchPending(now);
      assert Hosts().Keys == hosts.Keys;
      return out.item;
    }

    /**
     Progress: while a host is registered and nothing arrives, one pass per queued item empties the
     queue, serving exactly the queued items, in order of their deadlines and, where those are equal, with
     priorities falling. `readings` are the clock readings of the passes.
     */
    method DispatchAll(readings: seq<int>) returns (served: seq<PendingItem>)
      requires Valid() && hosts != map[] && |readings| == |queue.items|
      modifies queue, queue.items, store.records.Values
      ensures Valid() && queue.items == []
      ensures multiset(served) == old(multiset(queue.items))
      ensures forall i, j :: 0 <= i < j < |served| ==>
                && served[i].deadline <= served[j].deadline
                && (served[i].deadline == served[j].deadline ==> served[i].priority >= served[j].priority)
    {
      served := [];
      for n := 0 to |readings|
        invariant Valid() && hosts == old(hosts) && store.records == old(store.records)
        invariant |served| == n && |queue.items| == |readings| - n
        invariant multiset(served) + multiset(queue.items) == old(multiset(queue.items))
        invariant forall k :: 0 <= k < |queue.items| ==> queue.items[k] in old(queue.items)
        invariant InServingOrder(served) && NonePrecedes(queue.items, served)
      {
        ghost var was := queue.items;
        var item := Serve(readings[n]);
        ServeNext(served, was, queue.items, item);
        served := served + [item];
      }
    }
  }

  ghost predicate InServingOrder(s: seq<PendingItem>) {
    forall i, j :: 0 <= i < j < |s| ==> !Before(s[j].Key(), s[i].Key())
  }

  ghost predicate NonePrecedes(waiting: seq<PendingItem>, served: seq<PendingItem>) {
    forall i, k :: 0 <= i < |waiting| && 0 <= k < |served| ==> !Before(waiting[i].Key(), served[k].Key())
  }

  lemma ServeNext(served: seq<PendingItem>, before: seq<PendingItem>, after: seq<PendingItem>, next: PendingItem)
    requires multiset(before) == multiset(after) + multiset{next}
    requires forall x :: x in before ==>
               next.deadline <= x.deadline && (next.deadline == x.deadline ==> next.priority >= x.priority)
    requires InServingOrder(served) && NonePrecedes(before, served)
    ensures |after| + 1 == |before|
    ensures forall k :: 0 <= k < |after| ==> after[k] in before
    ensures InServingOrder(served + [next]) && NonePrecedes(after, served + [next])
    ensures multiset(served + [next]) + multiset(after) == multiset(served) + multiset(before)
  {
    assert |multiset(before)| == |multiset(after)| + 1;
    assert next in multiset(before);
    forall k | 0 <= k < |after| ensures after[k] in before {
      assert after[k] in multiset(before);
    }
    var i :| 0 <= i < |before| && before[i] == next;
    forall k | 0 <= k < |served| ensures !Before(next.Key(), served[k].Key()) {
      assert !Before(before[i].Key(), served[k].Key());
    }
  }
}

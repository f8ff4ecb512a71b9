/**
 One pass of the imperative scheduler (Scheduling.Scheduler.DispatchPending) is a run of the protocol's
 dispatch steps, and Scheduler.Enqueue a run of the last steps of a create request. So what holds of every
 protocol run holds of the scheduler's passes over what it was given.
 */
module DispatchRefinement {
  import opened SandboxState
  import opened PendingHeap
  import opened Scheduling
  import opened ControlPlane

  /** A heap object as the value the protocol queues. */
  function ItemOf(x: PendingItem): Item {
    Item(x.sandboxID, x.Key())
  }

  function Items(queue: seq<PendingItem>): seq<Item> {
    seq(|queue|, k requires 0 <= k < |queue| => ItemOf(queue[k]))
  }

  function Bag(queue: seq<PendingItem>): multiset<Item> {
    multiset(Items(queue))
  }

  lemma BagWithout(queue: seq<PendingItem>, i: nat) returns (rest: seq<PendingItem>)
    requires i < |queue|
    ensures |rest| == |queue| - 1
    ensures multiset(queue) == multiset(rest) + multiset{queue[i]}
    ensures Bag(queue) == Bag(rest) + multiset{ItemOf(queue[i])}
  {
    var before, after := queue[..i], queue[i + 1..];
    rest := before + after;
    assert queue == before + [queue[i]] + after;
    assert Items(queue) == Items(before) + [ItemOf(queue[i])] + Items(after);
    assert Items(rest) == Items(before) + Items(after);
  }

  lemma {:induction false} BagOfRearranged(queue: seq<PendingItem>, other: seq<PendingItem>)
    requires multiset(queue) == multiset(other)
    ensures Bag(queue) == Bag(other)
    decreases |queue|
  {
    if queue == [] {
      assert |multiset(other)| == 0;
    } else {
      var i := PositionOf(queue[0], queue, other);
      var rest := BagWithout(queue, 0);
      var otherRest := BagWithout(other, i);
      SameRest(multiset(rest), multiset(otherRest), queue[0]);
      BagOfRearranged(rest, otherRest);
    }
  }

  lemma PositionOf(x: PendingItem, queue: seq<PendingItem>, other: seq<PendingItem>) returns (i: nat)
    requires x in queue && multiset(queue) == multiset(other)
    ensures i < |other| && other[i] == x
  {
    assert x in multiset(queue);
    assert x in multiset(other);
    i :| i < |other| && other[i] == x;
  }

  lemma SameRest(a: multiset<PendingItem>, b: multiset<PendingItem>, x: PendingItem)
    requires a + multiset{x} == b + multiset{x}
    ensures a == b
  {
    assert a == a + multiset{x} - multiset{x};
    assert b == b + multiset{x} - multiset{x};
  }

  lemma BagAfterPop(before: seq<PendingItem>, after: seq<PendingItem>, x: PendingItem)
    requires multiset(before) == multiset(after) + multiset{x}
    ensures Bag(before) == Bag(after) + multiset{ItemOf(x)}
  {
    assert multiset(after + [x]) == multiset(before);
    BagOfRearranged(before, after + [x]);
    assert Items(after + [x]) == Items(after) + [ItemOf(x)];
  }

  lemma BagHolds(queue: seq<PendingItem>, it: Item) returns (x: PendingItem)
    requires it in Bag(queue)
    ensures x in queue && ItemOf(x) == it
  {
    assert it in Items(queue);
    var k :| 0 <= k < |queue| && Items(queue)[k] == it;
    x := queue[k];
  }

  /** The item that left the heap may be popped from the protocol's queue. */
  lemma MayPop(s: Sys, before: seq<PendingItem>, x: PendingItem)
    requires s.dispatcher.Idle? && s.queue == Bag(before) && x in before
    requires forall y :: y in before ==>
               x.deadline <= y.deadline && (x.deadline == y.deadline ==> x.priority >= y.priority)
    ensures Enabled(s, Dispatch(PopFirst(ItemOf(x))))
  {
    var i :| 0 <= i < |before| && before[i] == x;
    var rest := BagWithout(before, i);
    forall it | it in s.queue
      ensures x.deadline <= it.key.deadline && (x.deadline == it.key.deadline ==> x.priority >= it.key.priority)
    {
      var y := BagHolds(before, it);
    }
  }

  function Planned(out: Dispatched, n: nat): seq<Step> {
    match out
    case NothingQueued => []
    case Expired(x) => [Dispatch(PopFirst(ItemOf(x))), Dispatch(CheckDeadline), Dispatch(MarkExpired)]
    case Requeued(x) =>
      [Dispatch(PopFirst(ItemOf(x))), Dispatch(CheckDeadline), Dispatch(FindNoHost), Dispatch(PushBack)]
    case Abandoned(x, host) => Assigning(x, host.ID, n)
    case Launched(x, host) => Assigning(x, host.ID, n)
  }

  function Assigning(x: PendingItem, host: string, n: nat): seq<Step> {
    [Dispatch(PopFirst(ItemOf(x))), Dispatch(CheckDeadline), Dispatch(ChooseHost(host)), Dispatch(SaveHost),
     Dispatch(MarkProvisioning(n))]
  }

  /**
   The pass: from an idle dispatcher with the same queue, registry and hosts, the planned steps end with
   the pass's queue and registry; a placement call is in flight exactly when the pass launched one.
   */
  lemma PassIsRun(s: Sys, out: Dispatched, before: seq<PendingItem>, after: seq<PendingItem>, db': Db, n: nat)
    returns (end: Sys)
    requires s.dispatcher.Idle? && s.queue == Bag(before) && n !in s.calls
    requires PassEffect(out, s.clock, before, after, s.db, db', s.hosts)
    ensures Runs(s, Planned(out, n), end)
    ensures end.db == db' && end.queue == Bag(after) && end.dispatcher.Idle?
    ensures end.hosts == s.hosts && end.clock == s.clock && end.quota == s.quota
    ensures end.calls == if out.Launched? then s.calls[n := Place(ItemOf(out.item), out.host.ID, s.clock)]
                         else s.calls
    ensures Reachable(s) ==> Reachable(end)
  {
    if out.NothingQueued? {
      end := s;
    } else {
      MayPop(s, before, out.item);
      BagAfterPass(before, after, out.item, out.Requeued?);
      end := PopThenRest(s, out, out.item, db', n);
    }
    if Reachable(s) {
      RunStaysReachable(s, Planned(out, n), end);
    }
  }

  lemma PopThenRest(s: Sys, out: Dispatched, x: PendingItem, db': Db, n: nat) returns (end: Sys)
    requires Enabled(s, Dispatch(PopFirst(ItemOf(x)))) && n !in s.calls
    requires PlaceEffect(out, x, s.clock, s.db, db', s.hosts)
    ensures Runs(s, Planned(out, n), end)
    ensures end.db == db' && end.dispatcher.Idle?
    ensures end.queue == s.queue - multiset{ItemOf(x)} + if out.Requeued? then multiset{ItemOf(x)} else multiset{}
    ensures end.hosts == s.hosts && end.clock == s.clock && end.quota == s.quota
    ensures end.calls == if out.Launched? then s.calls[n := Place(ItemOf(x), out.host.ID, s.clock)] else s.calls
  {
    var s1 := Popping(s, x);
    end := RestIsRun(s1, out, x, db', n);
    StartsWithPop(out, x, s.clock, s.db, db', s.hosts, n);
    Prepend(s, Dispatch(PopFirst(ItemOf(x))), Planned(out, n)[1..], end);
  }

  lemma StartsWithPop(out: Dispatched, x: PendingItem, now: int, db: Db, db': Db, hosts: map<string, Host>, n: nat)
    requires PlaceEffect(out, x, now, db, db', hosts)
    ensures Planned(out, n) != [] && Planned(out, n) == [Dispatch(PopFirst(ItemOf(x)))] + Planned(out, n)[1..]
  {
    assert Planned(out, n)[0] == Dispatch(PopFirst(ItemOf(x)));
  }

  lemma Popping(s: Sys, x: PendingItem) returns (next: Sys)
    requires Enabled(s, Dispatch(PopFirst(ItemOf(x))))
    ensures next == Do(s, Dispatch(PopFirst(ItemOf(x))))
    ensures next.dispatcher == Popped(ItemOf(x)) && next.queue == s.queue - multiset{ItemOf(x)}
    ensures next.clock == s.clock && next.db == s.db && next.hosts == s.hosts && next.quota == s.quota
    ensures next.calls == s.calls
  {
    next := Do(s, Dispatch(PopFirst(ItemOf(x))));
  }

  lemma Prepend(s: Sys, step: Step, rest: seq<Step>, end: Sys)
    requires Enabled(s, step) && Runs(Do(s, step), rest, end)
    ensures Runs(s, [step] + rest, end)
  {
    assert ([step] + rest)[1..] == rest;
  }

  /** A popped item is gone from the queue unless the pass put it back. */
  lemma BagAfterPass(before: seq<PendingItem>, after: seq<PendingItem>, x: PendingItem, putBack: bool)
    requires x in before
    requires multiset(before) == multiset(after) + if putBack then multiset{} else multiset{x}
    ensures Bag(after) == Bag(before) - multiset{ItemOf(x)} + if putBack then multiset{ItemOf(x)} else multiset{}
  {
    if putBack {
      var i :| 0 <= i < |before| && before[i] == x;
      var rest := BagWithout(before, i);
      BagOfRearranged(before, after);
    } else {
      BagAfterPop(before, after, x);
    }
  }

  /** The steps after the pop, with the item in the dispatcher's hand. */
  lemma RestIsRun(s: Sys, out: Dispatched, x: PendingItem, db': Db, n: nat) returns (end: Sys)
    requires s.dispatcher == Popped(ItemOf(x)) && n !in s.calls
    requires PlaceEffect(out, x, s.clock, s.db, db', s.hosts)
    ensures !out.NothingQueued? && Runs(s, Planned(out, n)[1..], end)
    ensures end.db == db' && end.dispatcher.Idle?
    ensures end.queue == s.queue + if out.Requeued? then multiset{ItemOf(x)} else multiset{}
    ensures end.hosts == s.hosts && end.clock == s.clock && end.quota == s.quota
    ensures end.calls == if out.Launched? then s.calls[n := Place(ItemOf(x), out.host.ID, s.clock)] else s.calls
  {
    var s1 := Do(s, Dispatch(CheckDeadline));
    if out.Expired? || out.Requeued? {
      end := EndingWithoutHost(s1, out, x, db');
      var last := Planned(out, 0)[2..];
      Prepend(s, Dispatch(CheckDeadline), last, end);
      assert Planned(out, n)[1..] == [Dispatch(CheckDeadline)] + last;
    } else {
      var host := out.host.ID;
      var s2 := s1.(dispatcher := Assign(ItemOf(x), host, s.clock));
      assert s2 == Do(s1, Dispatch(ChooseHost(host)));
      end := AssigningIsRun(s2, out, x, host, db', n);
      var last := [Dispatch(SaveHost), Dispatch(MarkProvisioning(n))];
      Prepend(s1, Dispatch(ChooseHost(host)), last, end);
      Prepend(s, Dispatch(CheckDeadline), [Dispatch(ChooseHost(host))] + last, end);
      assert Planned(out, n)[1..] == [Dispatch(CheckDeadline)] + ([Dispatch(ChooseHost(host))] + last);
    }
  }

  lemma EndingWithoutHost(s: Sys, out: Dispatched, x: PendingItem, db': Db) returns (end: Sys)
    requires PlaceEffect(out, x, s.clock, s.db, db', s.hosts)
    requires (out.Expired? && s.dispatcher == Expire(ItemOf(x)))
          || (out.Requeued? && s.dispatcher == Choose(ItemOf(x), s.clock))
    ensures Runs(s, Planned(out, 0)[2..], end)
    ensures end.db == db' && end.dispatcher.Idle? && end.calls == s.calls
    ensures end.queue == s.queue + if out.Requeued? then multiset{ItemOf(x)} else multiset{}
    ensures end.hosts == s.hosts && end.clock == s.clock && end.quota == s.quota
  {
    if out.Expired? {
      end := Do(s, Dispatch(MarkExpired));
      assert Planned(out, 0)[2..] == [Dispatch(MarkExpired)] && [Dispatch(MarkExpired)][1..] == [];
    } else {
      end := Do(Do(s, Dispatch(FindNoHost)), Dispatch(PushBack));
      TwoSteps(s, Dispatch(FindNoHost), Dispatch(PushBack));
      assert Planned(out, 0)[2..] == [Dispatch(FindNoHost), Dispatch(PushBack)];
    }
  }

  lemma AssigningIsRun(s: Sys, out: Dispatched, x: PendingItem, host: string, db': Db, n: nat) returns (end: Sys)
    requires s.dispatcher == Assign(ItemOf(x), host, s.clock) && n !in s.calls
    requires (out.Abandoned? || out.Launched?) && out.host.ID == host
    requires PlaceEffect(out, x, s.clock, s.db, db', s.hosts)
    ensures Runs(s, [Dispatch(SaveHost), Dispatch(MarkProvisioning(n))], end)
    ensures end.db == db' && end.dispatcher.Idle? && end.queue == s.queue
    ensures end.hosts == s.hosts && end.clock == s.clock && end.quota == s.quota
    ensures end.calls == if out.Launched? then s.calls[n := Place(ItemOf(x), host, s.clock)] else s.calls
  {
    var s1 := Do(s, Dispatch(SaveHost));
    end := Do(s1, Dispatch(MarkProvisioning(n)));
    TwoSteps(s, Dispatch(SaveHost), Dispatch(MarkProvisioning(n)));
  }

  /**
   Scheduler.Enqueue, run alone: from the point where Submit calls it, reading the clock and pushing have
   the effect that its contract states.
   */
  lemma EnqueueIsRun(s: Sys, n: nat, timeoutMs: nat, before: seq<PendingItem>, after: seq<PendingItem>,
                     item: PendingItem)
    returns (end: Sys)
    requires n in s.calls && s.calls[n] == CreateDeadline(item.sandboxID, timeoutMs) && s.queue == Bag(before)
    requires item.deadline == s.clock + timeoutMs && item.priority == 1
    requires multiset(after) == multiset(before) + multiset{item}
    ensures Runs(s, [Post(n, PostReadClock), Post(n, PostPush)], end)
    ensures end.queue == Bag(after) && end.calls == s.calls[n := Done(Created)]
    ensures end.db == s.db && end.quota == s.quota && end.hosts == s.hosts && end.dispatcher == s.dispatcher
    ensures Reachable(s) ==> Reachable(end)
  {
    var read, push := Post(n, PostReadClock), Post(n, PostPush);
    var s1 := ClockIsRead(s, n, timeoutMs, item);
    end := ItemIsPushed(s1, n, item);
    TwoSteps(s, read, push);
    BagAfterPop(after, before, item);
    if Reachable(s) {
      RunStaysReachable(s, [read, push], end);
    }
  }

  /** Scheduler.RegisterHost, by its contract, is a step of the environment. */
  lemma RegisterIsStep(s: Sys, h: Host, after: map<string, Host>)
    requires h.id != ""
    requires after == s.hosts[h.id := Host(h.id, h.activeVMs, h.idlePool, h.cpuUsagePct, s.clock, true)]
    ensures EnvEnabled(s, RegisterHost(h)) && DoEnv(s, RegisterHost(h)) == s.(hosts := after)
  {
  }

  lemma ClockIsRead(s: Sys, n: nat, timeoutMs: nat, item: PendingItem) returns (next: Sys)
    requires n in s.calls && s.calls[n] == CreateDeadline(item.sandboxID, timeoutMs)
    requires item.deadline == s.clock + timeoutMs && item.priority == 1
    ensures Enabled(s, Post(n, PostReadClock)) && next == Do(s, Post(n, PostReadClock))
    ensures next.calls == s.calls[n := CreatePush(ItemOf(item))] && next.queue == s.queue
    ensures next.db == s.db && next.quota == s.quota && next.hosts == s.hosts && next.dispatcher == s.dispatcher
  {
    next := Do(s, Post(n, PostReadClock));
  }

  lemma ItemIsPushed(s: Sys, n: nat, item: PendingItem) returns (next: Sys)
    requires n in s.calls && s.calls[n] == CreatePush(ItemOf(item))
    ensures Enabled(s, Post(n, PostPush)) && next == Do(s, Post(n, PostPush))
    ensures next.calls == s.calls[n := Done(Created)] && next.queue == s.queue + multiset{ItemOf(item)}
    ensures next.db == s.db && next.quota == s.quota && next.hosts == s.hosts && next.dispatcher == s.dispatcher
  {
    next := Do(s, Post(n, PostPush));
  }

  lemma TwoSteps(s: Sys, first: Step, second: Step)
    requires Enabled(s, first) && Enabled(Do(s, first), second)
    ensures Runs(s, [first, second], Do(Do(s, first), second))
  {
    assert [first, second][1..] == [second] && [second][1..] == [];
  }
}

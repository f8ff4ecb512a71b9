/**
 What can still happen: a sandbox can be brought to Running, and from every reachable state a Queued
 sandbox can still leave Queued, whoever holds its request.
 */
module Progress {
  import opened SandboxState
  import opened PendingHeap
  import opened Scheduling
  import opened ControlPlane
  import opened Ownership
  import PlacementSafety
  import QuotaLimit
  import opened Results
  import Tally

  ghost predicate Leads(s: Sys, end: Sys) {
    exists steps :: Runs(s, steps, end)
  }

  lemma StaysPut(s: Sys)
    ensures Leads(s, s)
  {
    assert Runs(s, [], s);
  }

  lemma LeadsByStep(s: Sys, step: Step, end: Sys)
    requires Enabled(s, step) && Do(s, step) == end
    ensures Leads(s, end) && (Reachable(s) ==> Reachable(end))
  {
    assert [step][1..] == [];
    assert Runs(s, [step], end);
    if Reachable(s) {
      ReachableStep(s, step);
    }
  }

  lemma LeadsOn(s: Sys, mid: Sys, end: Sys)
    requires Leads(s, mid) && Leads(mid, end)
    ensures Leads(s, end)
  {
    var first :| Runs(s, first, mid);
    var second :| Runs(mid, second, end);
    RunsBoth(s, first, mid, second, end);
  }

  // ---------- One sandbox comes to run ----------

  /** With one host and nothing else going on, a queued sandbox gets its placement. */
  lemma DispatchRun(s: Sys, id: string, key: Urgency, host: Host, n: nat) returns (end: Sys)
    requires Reachable(s) && s.dispatcher.Idle? && s.queue == multiset{Item(id, key)} && s.clock <= key.deadline
    requires s.hosts == map[host.id := host] && n !in s.calls && id in s.db && s.db[id].state == Queued
    ensures Reachable(end) && n in end.calls && end.calls[n] == Place(Item(id, key), host.id, s.clock)
    ensures id in end.db && end.db[id].state == Provisioning && end.hist.placed == s.hist.placed
  {
    var item := Item(id, key);
    var s1 := HandTo(s, id, AtDispatcher).(queue := multiset{}, dispatcher := Popped(item));
    LeadsByStep(s, Dispatch(PopFirst(item)), s1);
    var s2 := s1.(dispatcher := Choose(item, s.clock));
    LeadsByStep(s1, Dispatch(CheckDeadline), s2);
    var s3 := s2.(dispatcher := Assign(item, host.id, s.clock));
    LeadsByStep(s2, Dispatch(ChooseHost(host.id)), s3);
    end := AssignRun(s3, item, host.id, n);
  }

  lemma AssignRun(s: Sys, item: Item, host: string, n: nat) returns (end: Sys)
    requires Reachable(s) && s.dispatcher == Assign(item, host, s.clock) && n !in s.calls
    requires item.id in s.db && s.db[item.id].state == Queued
    ensures Reachable(end) && n in end.calls && end.calls[n] == Place(item, host, s.clock)
    ensures item.id in end.db && end.db[item.id].state == Provisioning && end.hist.placed == s.hist.placed
  {
    var s1 := Do(s, Dispatch(SaveHost));
    LeadsByStep(s, Dispatch(SaveHost), s1);
    end := Do(s1, Dispatch(MarkProvisioning(n)));
    LeadsByStep(s1, Dispatch(MarkProvisioning(n)), end);
  }

  lemma ReplyRun(s: Sys, item: Item, host: string, n: nat, reply: Reply) returns (end: Sys)
    requires Reachable(s) && n in s.calls && s.calls[n].Place? && s.calls[n].item == item
    requires item.id in s.db && s.db[item.id].state == Provisioning
    ensures Reachable(end) && item.id in end.db && end.db[item.id].state == Running
  {
    var s1 := Do(s, Placing(n, CallHost));
    LeadsByStep(s, Placing(n, CallHost), s1);
    var s2 := Do(s1, Placing(n, HostAnswers(reply)));
    LeadsByStep(s1, Placing(n, HostAnswers(reply)), s2);
    end := SaveRun(s2, n, item.id);
  }

  lemma SaveRun(s: Sys, n: nat, id: string) returns (end: Sys)
    requires Reachable(s) && n in s.calls && s.calls[n].PlaceSave? && s.calls[n].item.id == id
    requires id in s.db && s.db[id].state == Provisioning
    ensures Reachable(end) && id in end.db && end.db[id].state == Running
  {
    var s1 := Do(s, Placing(n, SaveReply));
    LeadsByStep(s, Placing(n, SaveReply), s1);
    end := Do(s1, Placing(n, MarkRunning));
    LeadsByStep(s1, Placing(n, MarkRunning), end);
  }

  /** Running is reachable, so what is proved of Running sandboxes is about something. */
  lemma RunningIsReachable(t: string, id: string, host: Host, reply: Reply)
    requires host.id != ""
    ensures exists s :: Reachable(s) && id in s.db && s.db[id].state == Running
  {
    var s, n := PlacementIsSent(t, id, host);
    var end := ReplyRun(s, s.calls[n].item, host.id, n, reply);
  }

  /** A placement comes about before anything has been placed. */
  lemma PlacementIsSent(t: string, id: string, host: Host) returns (s: Sys, n: nat)
    requires host.id != ""
    ensures Reachable(s) && n in s.calls && s.calls[n].Place? && s.calls[n].item.id == id && s.calls[n].host == host.id
    ensures id in s.db && s.db[id].state == Provisioning && s.hist.placed == multiset{}
  {
    var s0 := Sys(0, map[], multiset{}, Idle, map[], map[], map[], 1, NO_HISTORY);
    assert Init(s0) && Runs(s0, [], s0);
    var registered := host.(lastSeen := 0, healthy := true);
    var s1 := s0.(hosts := map[host.id := registered]);
    LeadsByStep(s0, Env(RegisterHost(host)), s1);
    var s2 := QuotaLimit.PostRun(s1, 0, t, id);
    assert s2.hist.placed == multiset{} by {
      PlacementSafety.AlwaysFacts(s2);
      forall x ensures s2.hist.placed[x] == 0 {
        assert PlacementSafety.RecordFact(s2, x);
      }
    }
    n := 1;
    s := DispatchRun(s2, id, Urgency(0, 1), registered, n);
  }

  // ---------- A Queued sandbox can always leave Queued ----------

  /** Its submitter goes on and pushes its request. */
  lemma SubmitterPushes(s: Sys, n: nat, id: string) returns (end: Sys)
    requires Reachable(s) && n in s.calls && Submits(s.calls[n]) == Some(id)
    requires id in s.db && s.db[id].state == Queued
    ensures Leads(s, end) && Reachable(end) && end.db == s.db
    ensures exists item: Item :: item.id == id && item in end.queue
  {
    var s1 := s;
    StaysPut(s);
    if s.calls[n].CreateDeadline? {
      s1 := Do(s, Post(n, PostReadClock));
      LeadsByStep(s, Post(n, PostReadClock), s1);
    }
    end := Do(s1, Post(n, PostPush));
    LeadsByStep(s1, Post(n, PostPush), end);
    LeadsOn(s, s1, end);
    assert s1.calls[n].item in end.queue;
  }

  /** The end of a pass with the given item. */
  ghost predicate Finished(s: Sys, end: Sys, item: Item) {
    && Leads(s, end) && Reachable(end) && end.dispatcher.Idle?
    && (forall x :: x in s.queue ==> x in end.queue)
    && (item.id in s.db ==> item.id in end.db)
    && (forall x :: x in s.db && x != item.id ==> x in end.db && end.db[x] == s.db[x])
    && (item.id in s.db && s.db[item.id].state == Queued ==> end.db[item.id].state != Queued || item in end.queue)
  }

  /** The dispatch loop finishes its pass: what it holds fails, is placed, or goes back to the queue. */
  lemma DispatcherFinishes(s: Sys) returns (end: Sys)
    requires Reachable(s)
    ensures Leads(s, end) && Reachable(end) && end.dispatcher.Idle?
    ensures if s.dispatcher.Idle? then end == s else Finished(s, end, s.dispatcher.item)
  {
    match s.dispatcher
    case Idle =>
      end := s;
      StaysPut(s);
    case Popped(item) =>
      end := PoppedFinishes(s, item);
    case Expire(item) => end := ExpireFinishes(s, item);
    case Choose(item, reading) => end := ChooseFinishes(s, item, reading);
    case PutBack(item) => end := PutBackFinishes(s, item);
    case Assign(item, host, reading) => end := AssignFinishes(s, item, host, reading);
    case Commit(item, host, reading) => end := CommitFinishes(s, item, host, reading);
  }

  /** Its deadline passes before it is checked. */
  lemma PoppedFinishes(s: Sys, item: Item) returns (end: Sys)
    requires Reachable(s) && s.dispatcher == Popped(item)
    ensures Finished(s, end, item)
  {
    var late := if s.clock > item.key.deadline then 0 else item.key.deadline + 1 - s.clock;
    var s1 := s.(clock := s.clock + late);
    LeadsByStep(s, Env(Tick(late)), s1);
    var s2 := s1.(dispatcher := Expire(item));
    LeadsByStep(s1, Dispatch(CheckDeadline), s2);
    end := ExpireFinishes(s2, item);
    LeadsOn(s1, s2, end);
    LeadsOn(s, s1, end);
  }

  lemma ExpireFinishes(s: Sys, item: Item) returns (end: Sys)
    requires Reachable(s) && s.dispatcher == Expire(item)
    ensures Finished(s, end, item)
  {
    end := Do(s, Dispatch(MarkExpired));
    LeadsByStep(s, Dispatch(MarkExpired), end);
  }

  lemma PutBackFinishes(s: Sys, item: Item) returns (end: Sys)
    requires Reachable(s) && s.dispatcher == PutBack(item)
    ensures Finished(s, end, item)
  {
    end := Do(s, Dispatch(PushBack));
    LeadsByStep(s, Dispatch(PushBack), end);
  }

  lemma CommitFinishes(s: Sys, item: Item, host: string, reading: int) returns (end: Sys)
    requires Reachable(s) && s.dispatcher == Commit(item, host, reading)
    ensures Finished(s, end, item)
  {
    var n := Tally.Unused(s.calls.Keys);
    end := Do(s, Dispatch(MarkProvisioning(n)));
    LeadsByStep(s, Dispatch(MarkProvisioning(n)), end);
  }

  lemma AssignFinishes(s: Sys, item: Item, host: string, reading: int) returns (end: Sys)
    requires Reachable(s) && s.dispatcher == Assign(item, host, reading)
    ensures Finished(s, end, item)
  {
    var s1 := Do(s, Dispatch(SaveHost));
    LeadsByStep(s, Dispatch(SaveHost), s1);
    end := CommitFinishes(s1, item, host, reading);
    LeadsOn(s, s1, end);
  }

  lemma ChooseFinishes(s: Sys, item: Item, reading: int) returns (end: Sys)
    requires Reachable(s) && s.dispatcher == Choose(item, reading)
    ensures Finished(s, end, item)
  {
    if s.hosts == map[] {
      var s1 := s.(dispatcher := PutBack(item));
      LeadsByStep(s, Dispatch(FindNoHost), s1);
      end := PutBackFinishes(s1, item);
      LeadsOn(s, s1, end);
    } else {
      BestExists(s.hosts);
      var host :| IsBest(s.hosts, host);
      var s1 := s.(dispatcher := Assign(item, host, reading));
      LeadsByStep(s, Dispatch(ChooseHost(host)), s1);
      end := AssignFinishes(s1, item, host, reading);
      LeadsOn(s, s1, end);
    }
  }

  /** Some item of a queue is preceded by none. */
  lemma {:induction false} FirstExists(queue: multiset<Item>) returns (first: Item)
    requires queue != multiset{}
    ensures first in queue && forall x :: x in queue ==> !Before(x.key, first.key)
    decreases |queue|
  {
    var item :| item in queue;
    var rest := queue - multiset{item};
    first := item;
    if rest != multiset{} {
      var other := FirstExists(rest);
      if Before(other.key, item.key) {
        first := other;
      } else {
        forall x | x in queue ensures !Before(x.key, item.key) {
          if x in rest {
            NotBeforeTransitive(item.key, other.key, x.key);
          }
        }
      }
      forall x | x in queue ensures x == item || x in rest {
      }
    } else {
      forall x | x in queue ensures x == item {
        assert x !in rest;
      }
    }
  }

  /** Once every deadline has passed, the queue is served until the item's turn comes, and it fails. */
  lemma {:induction false} QueueDrains(s: Sys, item: Item) returns (end: Sys)
    requires Reachable(s) && s.dispatcher.Idle? && item in s.queue
    requires forall x :: x in s.queue ==> s.clock > x.key.deadline
    ensures Leads(s, end) && item.id in end.db && end.db[item.id].state == Failed
    decreases |s.queue|
  {
    var first := FirstExists(s.queue);
    var mid := HeadExpires(s, first);
    if first.id == item.id {
      end := mid;
    } else {
      assert item in mid.queue;
      end := QueueDrains(mid, item);
      LeadsOn(s, mid, end);
    }
  }

  lemma HeadExpires(s: Sys, first: Item) returns (end: Sys)
    requires Reachable(s) && s.dispatcher.Idle? && first in s.queue && s.clock > first.key.deadline
    requires forall x :: x in s.queue ==> !Before(x.key, first.key)
    ensures Leads(s, end) && Reachable(end) && end.dispatcher.Idle?
    ensures end.queue == s.queue - multiset{first} && end.clock == s.clock
    ensures first.id in end.db && end.db[first.id].state == Failed
  {
    AlwaysOwned(s);
    assert first in RolesOf(s).queue;
    assert first.id in s.db && s.db[first.id].state == Queued;
    var s1 := HandTo(s, first.id, AtDispatcher).(queue := s.queue - multiset{first}, dispatcher := Popped(first));
    LeadsByStep(s, Dispatch(PopFirst(first)), s1);
    var s2 := s1.(dispatcher := Expire(first));
    LeadsByStep(s1, Dispatch(CheckDeadline), s2);
    end := Do(s2, Dispatch(MarkExpired));
    LeadsByStep(s2, Dispatch(MarkExpired), end);
    LeadsOn(s, s1, s2);
    LeadsOn(s, s2, end);
  }

  /** The clock can pass every deadline in the queue. */
  lemma {:induction false} LateEnough(queue: multiset<Item>, now: int) returns (elapsed: nat)
    ensures forall x :: x in queue ==> now + elapsed > x.key.deadline
    decreases |queue|
  {
    elapsed := 0;
    if queue != multiset{} {
      var item :| item in queue;
      var rest := queue - multiset{item};
      var others := LateEnough(rest, now);
      elapsed := if now + others > item.key.deadline then others else item.key.deadline + 1 - now;
      forall x | x in queue ensures now + elapsed > x.key.deadline {
        assert x == item || x in rest;
      }
    }
  }

  lemma QueuedItemLeaves(s: Sys, item: Item) returns (end: Sys)
    requires Reachable(s) && s.dispatcher.Idle? && item in s.queue
    ensures Leads(s, end) && item.id in end.db && end.db[item.id].state == Failed
  {
    var elapsed := LateEnough(s.queue, s.clock);
    var s1 := s.(clock := s.clock + elapsed);
    LeadsByStep(s, Env(Tick(elapsed)), s1);
    end := QueueDrains(s1, item);
    LeadsOn(s, s1, end);
  }

  /**
   No request gets stuck: from every reachable state in which a sandbox is Queued, whoever holds its
   request, there is a run to a state in which it is not.
   */
  lemma CanAlwaysLeaveQueued(s: Sys, id: string) returns (end: Sys)
    requires Reachable(s) && id in s.db && s.db[id].state == Queued
    ensures Leads(s, end) && id in end.db && end.db[id].state != Queued
  {
    AlwaysOwned(s);
    var owner := s.hist.owner[id];
    assert OwnerFits(RolesOf(s), id, owner);
    var s1 := s;
    StaysPut(s);
    if owner.Submitter? {
      s1 := SubmitterPushes(s, owner.n, id);
    }
    end := HeldOutsideSubmitter(s1, id);
    LeadsOn(s, s1, end);
  }

  lemma HeldOutsideSubmitter(s: Sys, id: string) returns (end: Sys)
    requires Reachable(s) && id in s.db && s.db[id].state == Queued
    requires
      || (exists item: Item :: item.id == id && item in s.queue)
      || (!s.dispatcher.Idle? && s.dispatcher.item.id == id)
    ensures Leads(s, end) && id in end.db && end.db[id].state != Queued
  {
    var mid := DispatcherFinishes(s);
    end := mid;
    if item: Item :| item.id == id && item in s.queue {
      var last := QueuedItemLeaves(mid, item);
      LeadsOn(s, mid, last);
      end := last;
    } else if mid.db[id].state == Queued {
      var last := QueuedItemLeaves(mid, s.dispatcher.item);
      LeadsOn(s, mid, last);
      end := last;
    }
  }
}

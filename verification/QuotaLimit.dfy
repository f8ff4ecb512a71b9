/**
 When create requests, whether in flight or still to come, can take a tenant over its limit of live
 sandboxes: exactly when the sandboxes that are live or about to be inserted exceed the limit, or exceed
 the counter less its pending roll-backs. Either takes repeated deletes of Failed sandboxes.
 */
module QuotaLimit {
  import opened SandboxState
  import opened PendingHeap
  import opened ControlPlane
  import opened QuotaAccount
  import opened QuotaReleases
  import opened Tally

  /** Where a counter below the live sandboxes comes from: more repeated releases than anything held besides them. */
  lemma ShortCounterExactly(s: Sys, t: string)
    requires Reachable(s)
    ensures Count(s.quota, t) < Live(s, t) <==>
            Again(s, t) > Open(s, t) + Rolling(s, t) + Lost(s, t) + (Held(s, t) - Live(s, t))
    ensures Again(s, t) == 0 ==> Count(s.quota, t) >= Live(s, t)
  {
    AlwaysAccount(s, t);
    LiveWithinLimit(s, t);
  }

  /** A tenant over its limit has had one of its Failed sandboxes deleted twice. */
  lemma OverLimitNeedsRepeatedDelete(s: Sys, t: string) returns (n: nat, id: string)
    requires Reachable(s) && Live(s, t) > EffectiveLimit(s.configuredLimit)
    ensures DeletedTwice(s.calls, n, id)
    ensures id in s.db && s.db[id].tenant == t && s.db[id].state == Failed
  {
    LiveWithinLimit(s, t);
    n :| n in Those(s.hist.verdicts, AgainOf(t));
    id := RepeatedMeansDeletedTwice(s, n, t);
  }

  // ---------- Runs of create requests, in flight or new ----------

  function InsertingOf(t: string): Call -> bool {  // admitted, and about to insert its record
    (c: Call) => c.CreateInsert? && c.tenant == t
  }

  ghost function Inserting(s: Sys, t: string): nat {
    Num(s.calls, InsertingOf(t))
  }

  ghost predicate CreatesOnly(steps: seq<Step>) {
    forall i :: 0 <= i < |steps| ==> steps[i].Post?
  }

  /** A run of create steps, however they interleave, that leaves the tenant over its limit. */
  ghost predicate GoesOver(s: Sys, t: string, steps: seq<Step>, end: Sys) {
    CreatesOnly(steps) && Runs(s, steps, end) && Live(end, t) > EffectiveLimit(s.configuredLimit)
  }

  /**
   Create steps alone, of requests in flight or new, can leave a tenant over its limit if and only if its
   live sandboxes and pending insertions exceed the limit, or exceed the counter less the pending
   roll-backs.
   */
  lemma CreatesExceedExactly(s: Sys, t: string)
    ensures (exists steps, end :: GoesOver(s, t, steps, end)) <==>
            || Live(s, t) + Inserting(s, t) > EffectiveLimit(s.configuredLimit)
            || Count(s.quota, t) - Rolling(s, t) < Live(s, t) + Inserting(s, t)
  {
    if Safe(s, t) {
      forall steps, end | CreatesOnly(steps) && Runs(s, steps, end)
        ensures Live(end, t) <= EffectiveLimit(s.configuredLimit)
      {
        CreatesKeepSafe(s, steps, end, t);
      }
    } else {
      var steps, end := OverrunRun(s, t);
    }
  }

  /** In a reachable state that lets creates exceed the limit, some release of the tenant has been repeated. */
  lemma UnsafeNeedsRepeatedRelease(s: Sys, t: string)
    requires Reachable(s) && !Safe(s, t)
    ensures Again(s, t) > 0
  {
    AlwaysAccount(s, t);
    LiveWithinLimit(s, t);
    SubsetSize(Those(s.calls, InsertingOf(t)), Those(s.calls, OpenOf(t)));
  }

  ghost predicate Safe(s: Sys, t: string) {
    && Live(s, t) + Inserting(s, t) <= EffectiveLimit(s.configuredLimit)
    && Count(s.quota, t) - Rolling(s, t) >= Live(s, t) + Inserting(s, t)
  }

  lemma {:induction false} CreatesKeepSafe(s: Sys, steps: seq<Step>, end: Sys, t: string)
    requires Safe(s, t) && CreatesOnly(steps) && Runs(s, steps, end)
    ensures Safe(end, t) && end.configuredLimit == s.configuredLimit
    decreases |steps|
  {
    if steps != [] {
      CreateKeepsSafe(s, steps[0].n, steps[0].post, t);
      CreatesKeepSafe(Do(s, steps[0]), steps[1..], end, t);
    }
  }

  lemma CreateKeepsSafe(s: Sys, n: nat, step: PostStep, t: string)
    requires Safe(s, t) && PostEnabled(s, n, step)
    ensures Safe(DoPost(s, n, step), t) && DoPost(s, n, step).configuredLimit == s.configuredLimit
  {
    match step
    case PostAddOne => AddOneCounts(s, n, t);
    case PostRollBack => RollBackCounts(s, n, t);
    case PostInsert(id) => InsertionCounts(s, n, id, t);
    case _ => QuietCounts(s, n, step, t);
  }

  lemma PendingAfter(s: Sys, s': Sys, n: nat, t: string)
    requires n in s'.calls && s'.calls == s.calls[n := s'.calls[n]]
    ensures Inserting(s', t) ==
            Inserting(s, t) - Weight(s.calls, n, InsertingOf(t)) + Weight(s'.calls, n, InsertingOf(t))
    ensures Rolling(s', t) == Rolling(s, t) - Weight(s.calls, n, RollingOf(t)) + Weight(s'.calls, n, RollingOf(t))
  {
    NumAfterPut(s.calls, n, s'.calls[n], InsertingOf(t));
    NumAfterPut(s.calls, n, s'.calls[n], RollingOf(t));
  }

  lemma AddOneCounts(s: Sys, n: nat, t: string)
    requires PostEnabled(s, n, PostAddOne)
    ensures
      var s', own := DoPost(s, n, PostAddOne), s.calls[n].tenant == t;
      var admitted := Count(s.quota, t) < EffectiveLimit(s.configuredLimit);
      && s'.db == s.db && s'.configuredLimit == s.configuredLimit
      && Count(s'.quota, t) == Count(s.quota, t) + Bit(own)
      && Inserting(s', t) == Inserting(s, t) + Bit(own && admitted)
      && Rolling(s', t) == Rolling(s, t) + Bit(own && !admitted)
  {
    PendingAfter(s, DoPost(s, n, PostAddOne), n, t);
  }

  lemma RollBackCounts(s: Sys, n: nat, t: string)
    requires PostEnabled(s, n, PostRollBack)
    ensures
      var s', own := DoPost(s, n, PostRollBack), s.calls[n].tenant == t;
      && s'.db == s.db && s'.configuredLimit == s.configuredLimit
      && Count(s'.quota, t) == Count(s.quota, t) - Bit(own)
      && Inserting(s', t) == Inserting(s, t) && Rolling(s', t) == Rolling(s, t) - Bit(own)
  {
    PendingAfter(s, DoPost(s, n, PostRollBack), n, t);
  }

  lemma InsertionCounts(s: Sys, n: nat, id: string, t: string)
    requires PostEnabled(s, n, PostInsert(id))
    ensures
      var s', own := DoPost(s, n, PostInsert(id)), s.calls[n].tenant == t;
      && s'.quota == s.quota && s'.configuredLimit == s.configuredLimit
      && Inserting(s', t) == Inserting(s, t) - Bit(own) && Rolling(s', t) == Rolling(s, t)
      && Live(s', t) == Live(s, t) + Bit(own && id !in s.db)
  {
    var s' := DoPost(s, n, PostInsert(id));
    PendingAfter(s, s', n, t);
    if id !in s.db {
      NumAfterPut(s.db, id, s'.db[id], LiveOf(t));
    }
  }

  lemma QuietCounts(s: Sys, n: nat, step: PostStep, t: string)
    requires PostEnabled(s, n, step) && !step.PostAddOne? && !step.PostRollBack? && !step.PostInsert?
    ensures
      var s' := DoPost(s, n, step);
      && s'.db == s.db && s'.quota == s.quota && s'.configuredLimit == s.configuredLimit
      && Inserting(s', t) == Inserting(s, t) && Rolling(s', t) == Rolling(s, t)
  {
    PendingAfter(s, DoPost(s, n, step), n, t);
  }

  lemma StepThen(s: Sys, step: Step, rest: seq<Step>, end: Sys)
    requires Enabled(s, step) && Runs(Do(s, step), rest, end)
    ensures Runs(s, [step] + rest, end)
  {
    assert ([step] + rest)[1..] == rest;
  }

  /** All pending roll-backs of the tenant take place. */
  lemma {:induction false} DrainRollBacks(s: Sys, t: string) returns (steps: seq<Step>, end: Sys)
    ensures CreatesOnly(steps) && Runs(s, steps, end) && end.configuredLimit == s.configuredLimit
    ensures Live(end, t) == Live(s, t) && Inserting(end, t) == Inserting(s, t) && Rolling(end, t) == 0
    ensures Count(end.quota, t) == Count(s.quota, t) - Rolling(s, t)
    decreases Rolling(s, t)
  {
    if Rolling(s, t) == 0 {
      steps, end := [], s;
    } else {
      var n :| n in Those(s.calls, RollingOf(t));
      var step := Post(n, PostRollBack);
      RollBackCounts(s, n, t);
      assert Do(s, step) == DoPost(s, n, PostRollBack);
      var rest;
      rest, end := DrainRollBacks(Do(s, step), t);
      StepThen(s, step, rest, end);
      steps := [step] + rest;
    }
  }

  /** All pending insertions of the tenant take place, each under a new ID. */
  lemma {:induction false} InsertPending(s: Sys, t: string) returns (steps: seq<Step>, end: Sys)
    ensures CreatesOnly(steps) && Runs(s, steps, end) && end.configuredLimit == s.configuredLimit
    ensures Live(end, t) == Live(s, t) + Inserting(s, t) && end.quota == s.quota
    decreases Inserting(s, t)
  {
    if Inserting(s, t) == 0 {
      steps, end := [], s;
    } else {
      var n :| n in Those(s.calls, InsertingOf(t));
      var id := UnusedId(s.db.Keys);
      var step := Post(n, PostInsert(id));
      InsertionCounts(s, n, id, t);
      assert Do(s, step) == DoPost(s, n, PostInsert(id));
      var rest;
      rest, end := InsertPending(Do(s, step), t);
      StepThen(s, step, rest, end);
      steps := [step] + rest;
    }
  }

  /** Roll back, insert, and fill up with new creates: one of the two excesses ends over the limit. */
  lemma OverrunRun(s: Sys, t: string) returns (steps: seq<Step>, end: Sys)
    requires !Safe(s, t)
    ensures GoesOver(s, t, steps, end)
  {
    var steps1, s1 := DrainRollBacks(s, t);
    var steps2, s2 := InsertPending(s1, t);
    RunsBoth(s, steps1, s1, steps2, s2);
    steps, end := steps1 + steps2, s2;
    if Live(s2, t) <= EffectiveLimit(s.configuredLimit) {
      assert Runs(s2, [], s2);
      var more;
      more, end := FillUp(s2, [], s2, t);
      RunsBoth(s, steps, s2, more, end);
      steps := steps + more;
    }
  }

  /**
   The counter alone does not tell: with a limit of one, a live sandbox and a counter of one, a create
   that is already admitted makes a second sandbox live.
   */
  lemma AdmittedCreateExceeds()
    ensures exists s: Sys, n: nat ::
              && Reachable(s) && PostEnabled(s, n, PostInsert("c"))
              && EffectiveLimit(s.configuredLimit) == Live(s, "t") == Count(s.quota, "t") == 1
              && Live(DoPost(s, n, PostInsert("c")), "t") == 2
  {
    var s := AdmittedAfterDeletes();
    assert Those(s.db, LiveOf("t")) == {"b"};
    InsertionCounts(s, 4, "c", "t");
    assert PostEnabled(s, 4, PostInsert("c"));
  }

  lemma AdmittedAfterDeletes() returns (s: Sys)
    ensures Reachable(s) && s.configuredLimit == 1 && Count(s.quota, "t") == 1
    ensures s.db.Keys == {"a", "b"} && s.db["a"].state == Failed
    ensures s.db["b"].tenant == "t" && s.db["b"].state == Queued
    ensures 4 in s.calls && s.calls[4] == CreateInsert("t", 0)
  {
    var s1 := DeletedAgainRun();
    s := AdmitRun(s1, 4, "t", 0);
    RunStaysReachable(s1, [Post(4, BeginPost("t", 0)), Post(4, PostAddOne)], s);
  }

  // ---------- Runs of new create requests ----------

  /** The steps are those of create requests that were not there before. */
  ghost predicate ByNewCreates(known: set<nat>, steps: seq<Step>) {
    forall i :: 0 <= i < |steps| ==> steps[i].Post? && steps[i].n !in known
  }

  /** A run of new create requests, however they interleave, that leaves the tenant over its limit. */
  ghost predicate Exceeds(s: Sys, t: string, steps: seq<Step>, end: Sys) {
    ByNewCreates(s.calls.Keys, steps) && Runs(s, steps, end) && Live(end, t) > EffectiveLimit(s.configuredLimit)
  }

  /**
   From any reachable state, new create requests alone can leave a tenant over its limit if and only if
   it is over it already or its counter is below the number of its live sandboxes. At the limit, that
   is Acquire's own guard for the next request.
   */
  lemma NewCreatesExceedExactly(s: Sys, t: string)
    requires Reachable(s)
    ensures (exists steps, end :: Exceeds(s, t, steps, end)) <==>
            Live(s, t) > EffectiveLimit(s.configuredLimit) || Count(s.quota, t) < Live(s, t)
    ensures Live(s, t) == EffectiveLimit(s.configuredLimit) ==>
            ((exists steps, end :: Exceeds(s, t, steps, end)) <==>
             Count(s.quota, t) < EffectiveLimit(s.configuredLimit))
  {
    var limit := EffectiveLimit(s.configuredLimit);
    if Live(s, t) > limit {
      assert Exceeds(s, t, [], s);
    } else if Count(s.quota, t) < Live(s, t) {
      assert Runs(s, [], s);
      var steps, end := FillUp(s, [], s, t);
    } else {
      forall steps, end | Runs(s, steps, end) && ByNewCreates(s.calls.Keys, steps) ensures Live(end, t) <= limit {
        Within(s, t);
        NewCreatesStayWithin(s, s, steps, end, t);
      }
    }
  }

  // ---------- Enough creates exceed the limit when the counter is short ----------

  lemma {:induction false} FillUp(s: Sys, done: seq<Step>, mid: Sys, t: string) returns (steps: seq<Step>, end: Sys)
    requires Runs(s, done, mid) && ByNewCreates(s.calls.Keys, done)
    requires s.calls.Keys <= mid.calls.Keys && mid.configuredLimit == s.configuredLimit
    requires Count(mid.quota, t) < Live(mid, t) <= EffectiveLimit(s.configuredLimit)
    ensures Exceeds(s, t, steps, end)
    decreases EffectiveLimit(s.configuredLimit) - Live(mid, t)
  {
    steps, end := OneMore(s, done, mid, t);
    if Live(end, t) <= EffectiveLimit(s.configuredLimit) {
      steps, end := FillUp(s, steps, end, t);
    }
  }

  lemma OneMore(s: Sys, done: seq<Step>, mid: Sys, t: string) returns (steps: seq<Step>, end: Sys)
    requires Runs(s, done, mid) && ByNewCreates(s.calls.Keys, done)
    requires s.calls.Keys <= mid.calls.Keys && Count(mid.quota, t) < EffectiveLimit(mid.configuredLimit)
    ensures Runs(s, steps, end) && ByNewCreates(s.calls.Keys, steps)
    ensures s.calls.Keys <= end.calls.Keys && end.configuredLimit == mid.configuredLimit
    ensures Count(end.quota, t) == Count(mid.quota, t) + 1 && Live(end, t) == Live(mid, t) + 1
  {
    var n := Unused(mid.calls.Keys);
    var id := UnusedId(mid.db.Keys);
    end := CreateRun(mid, n, t, 0, id);
    RunsBoth(s, done, mid, CreateSteps(n, t, 0, id), end);
    NewLive(mid.db, id, end.db[id], t);
    steps := done + CreateSteps(n, t, 0, id);
    StillNewCreates(s.calls.Keys, done, CreateSteps(n, t, 0, id));
  }

  lemma StillNewCreates(known: set<nat>, first: seq<Step>, second: seq<Step>)
    requires ByNewCreates(known, first) && ByNewCreates(known, second)
    ensures ByNewCreates(known, first + second)
  {
  }

  lemma NewLive(db: Db, id: string, r: Record, t: string)
    requires id !in db && r.tenant == t && IsLive(r.state)
    ensures Num(db[id := r], LiveOf(t)) == Num(db, LiveOf(t)) + 1
  {
    NumAfterPut(db, id, r, LiveOf(t));
  }

  /** Some ID is longer than all of a finite set. */
  lemma UnusedId(taken: set<string>) returns (id: string)
    ensures id !in taken
  {
    var left, longest: nat := taken, 0;
    while left != {}
      invariant left <= taken && forall x :: x in taken && x !in left ==> |x| <= longest
      decreases |left|
    {
      var x :| x in left;
      left, longest := left - {x}, if |x| > longest then |x| else longest;
    }
    id := seq(longest + 1, _ => 'x');
  }

  function CreateSteps(n: nat, t: string, ms: nat, id: string): seq<Step> {
    [Post(n, BeginPost(t, ms)), Post(n, PostAddOne), Post(n, PostInsert(id)), Post(n, PostReadClock), Post(n, PostPush)]
  }

  /** One create request below the limit, from arrival to response, with nothing in between. */
  lemma CreateRun(s: Sys, n: nat, t: string, ms: nat, id: string) returns (s': Sys)
    requires n !in s.calls && id !in s.db && Count(s.quota, t) < EffectiveLimit(s.configuredLimit)
    ensures Runs(s, CreateSteps(n, t, ms, id), s')
    ensures s'.dispatcher == s.dispatcher && s'.hosts == s.hosts && s'.clock == s.clock
    ensures s'.configuredLimit == s.configuredLimit
    ensures s'.calls == s.calls[n := Done(Created)] && s'.quota == Bump(s.quota, t, 1)
    ensures id in s'.db && s'.db == s.db[id := s'.db[id]] && s'.db[id].tenant == t && s'.db[id].state == Queued
    ensures s'.queue == s.queue + multiset{Item(id, Urgency(s.clock + ms, 1))}
  {
    var s2 := AdmitRun(s, n, t, ms);
    var s3 := InsertRun(s2, n, t, ms, id);
    s' := EnqueueRun(s3, n, ms, id);
    JoinCreate(s, s2, s3, s', n, t, ms, id);
    SameCalls(s.calls, n, CreateInsert(t, ms), CreateDeadline(id, ms), Done(Created));
  }

  lemma SameCalls(calls: map<nat, Call>, n: nat, first: Call, second: Call, last: Call)
    ensures calls[n := first][n := second][n := last] == calls[n := last]
  {
  }

  lemma InsertRun(s: Sys, n: nat, t: string, ms: nat, id: string) returns (s': Sys)
    requires n in s.calls && s.calls[n] == CreateInsert(t, ms) && id !in s.db
    ensures Runs(s, [Post(n, PostInsert(id))], s')
    ensures id in s'.db && s'.db == s.db[id := s'.db[id]] && s'.db[id].tenant == t && s'.db[id].state == Queued
    ensures s' == s.(db := s'.db, calls := s.calls[n := CreateDeadline(id, ms)], hist := s'.hist)
  {
    s' := Do(s, Post(n, PostInsert(id)));
    OneStep(s, Post(n, PostInsert(id)), s');
  }

  lemma JoinCreate(s: Sys, s2: Sys, s3: Sys, end: Sys, n: nat, t: string, ms: nat, id: string)
    requires Runs(s, [Post(n, BeginPost(t, ms)), Post(n, PostAddOne)], s2)
    requires Runs(s2, [Post(n, PostInsert(id))], s3)
    requires Runs(s3, [Post(n, PostReadClock), Post(n, PostPush)], end)
    ensures Runs(s, CreateSteps(n, t, ms, id), end)
  {
    var insert, last := [Post(n, PostInsert(id))], [Post(n, PostReadClock), Post(n, PostPush)];
    RunsBoth(s2, insert, s3, last, end);
    RunsBoth(s, [Post(n, BeginPost(t, ms)), Post(n, PostAddOne)], s2, insert + last, end);
    assert CreateSteps(n, t, ms, id) == [Post(n, BeginPost(t, ms)), Post(n, PostAddOne)] + (insert + last);
  }

  lemma OneStep(s: Sys, step: Step, end: Sys)
    requires Enabled(s, step) && Do(s, step) == end
    ensures Runs(s, [step], end)
  {
    assert [step][1..] == [];
  }

  lemma TwoSteps(s: Sys, first: Step, mid: Sys, second: Step, end: Sys)
    requires Enabled(s, first) && Do(s, first) == mid && Enabled(mid, second) && Do(mid, second) == end
    ensures Runs(s, [first, second], end)
  {
    OneStep(mid, second, end);
    assert [first, second][1..] == [second];
  }

  lemma AdmitRun(s: Sys, n: nat, t: string, ms: nat) returns (s': Sys)
    requires n !in s.calls && Count(s.quota, t) < EffectiveLimit(s.configuredLimit)
    ensures Runs(s, [Post(n, BeginPost(t, ms)), Post(n, PostAddOne)], s')
    ensures s' == s.(calls := s.calls[n := CreateInsert(t, ms)], quota := Bump(s.quota, t, 1), hist := s'.hist)
  {
    var hist := s.hist.(asked := s.hist.asked.(timeouts := s.hist.asked.timeouts[n := ms]));
    var s1 := At(s, n, CreateAdd(t, ms)).(hist := hist);
    s' := s.(calls := s.calls[n := CreateInsert(t, ms)], quota := Bump(s.quota, t, 1), hist := hist);
    TwoSteps(s, Post(n, BeginPost(t, ms)), s1, Post(n, PostAddOne), s');
  }

  lemma EnqueueRun(s: Sys, n: nat, ms: nat, id: string) returns (s': Sys)
    requires n in s.calls && s.calls[n] == CreateDeadline(id, ms)
    ensures Runs(s, [Post(n, PostReadClock), Post(n, PostPush)], s')
    ensures s'.db == s.db && s'.quota == s.quota && s'.dispatcher == s.dispatcher && s'.hosts == s.hosts
    ensures s'.clock == s.clock && s'.configuredLimit == s.configuredLimit
    ensures s'.calls == s.calls[n := Done(Created)]
    ensures s'.queue == s.queue + multiset{Item(id, Urgency(s.clock + ms, 1))}
  {
    var item := Item(id, Urgency(s.clock + ms, 1));
    var asked := s.hist.asked.(queuedAt := s.hist.asked.queuedAt[id := s.clock]);
    var s1 := At(s, n, CreatePush(item)).(hist := s.hist.(asked := asked));
    s' := HandTo(s1, id, InHeap(item)).(queue := s.queue + multiset{item}, calls := s.calls[n := Done(Created)]);
    TwoSteps(s, Post(n, PostReadClock), s1, Post(n, PostPush), s');
  }

  // ---------- Creates stay within the limit when it is not ----------

  /** Since s, only new creates have run: nobody else has moved, and admitted creates fit the limit. */
  ghost predicate Fits(s: Sys, s': Sys, t: string) {
    && (forall n :: n in s.calls ==> n in s'.calls && s'.calls[n] == s.calls[n])
    && s'.hist.verdicts == s.hist.verdicts && s'.configuredLimit == s.configuredLimit
    && Held(s', t) - Live(s', t) == Held(s, t) - Live(s, t)
    && Live(s', t) + Open(s', t) <= EffectiveLimit(s.configuredLimit) + Open(s, t)
  }

  lemma Within(s: Sys, t: string)
    requires Live(s, t) <= EffectiveLimit(s.configuredLimit)
    ensures Fits(s, s, t)
  {
  }

  lemma {:induction false} NewCreatesStayWithin(s: Sys, mid: Sys, steps: seq<Step>, end: Sys, t: string)
    requires Reachable(s) && Reachable(mid) && Count(s.quota, t) >= Live(s, t)
    requires Runs(mid, steps, end) && ByNewCreates(s.calls.Keys, steps) && Fits(s, mid, t)
    ensures Live(end, t) <= EffectiveLimit(s.configuredLimit)
    decreases |steps|
  {
    if steps == [] {
      CallsRemain(s, mid, t);
    } else {
      ReachableStep(mid, steps[0]);
      CreateFits(s, mid, steps[0].n, steps[0].post, t);
      NewCreatesStayWithin(s, Do(mid, steps[0]), steps[1..], end, t);
    }
  }

  /** Old calls still count. */
  lemma CallsRemain(s: Sys, s': Sys, t: string)
    requires forall n :: n in s.calls ==> n in s'.calls && s'.calls[n] == s.calls[n]
    ensures Open(s, t) <= Open(s', t) && Rolling(s, t) <= Rolling(s', t)
  {
    SubsetSize(Those(s.calls, OpenOf(t)), Those(s'.calls, OpenOf(t)));
    SubsetSize(Those(s.calls, RollingOf(t)), Those(s'.calls, RollingOf(t)));
  }

  lemma CreateFits(s: Sys, mid: Sys, n: nat, step: PostStep, t: string)
    requires Reachable(s) && Reachable(mid) && Count(s.quota, t) >= Live(s, t)
    requires PostEnabled(mid, n, step) && n !in s.calls && Fits(s, mid, t)
    ensures Fits(s, DoPost(mid, n, step), t)
  {
    var s' := DoPost(mid, n, step);
    assert Do(mid, Post(n, step)) == s';
    ReachableStep(mid, Post(n, step));
    AlwaysAccount(s, t);
    AlwaysAccount(mid, t);
    AlwaysAccount(s', t);
    SlotsForAccount(mid);
    CreateMoves(mid, n, step, t);
    CallsRemain(s, s', t);
  }

  /** A create's step adds to live sandboxes and pending creates only when it is admitted. */
  lemma CreateMoves(s: Sys, n: nat, step: PostStep, t: string)
    requires SlotsInPlace(s) && PostEnabled(s, n, step)
    ensures
      var s' := DoPost(s, n, step);
      && (forall m :: m in s.calls && m != n ==> m in s'.calls && s'.calls[m] == s.calls[m])
      && s'.hist.verdicts == s.hist.verdicts && s'.configuredLimit == s.configuredLimit
      && Held(s', t) - Held(s, t) == Live(s', t) - Live(s, t)
      && (Live(s', t) + Open(s', t) <= Live(s, t) + Open(s, t)
          || Count(s'.quota, t) <= EffectiveLimit(s.configuredLimit))
  {
    var s' := DoPost(s, n, step);
    if step.PostInsert? {
      InsertMoves(s, n, step.id, t);
    } else {
      assert s'.db == s.db && s'.hist.slots == s.hist.slots;
      OthersMove(s, n, step, t);
    }
  }

  lemma OthersMove(s: Sys, n: nat, step: PostStep, t: string)
    requires PostEnabled(s, n, step) && !step.PostInsert?
    ensures
      var s' := DoPost(s, n, step);
      Open(s', t) <= Open(s, t) || Count(s'.quota, t) <= EffectiveLimit(s.configuredLimit)
  {
    CallCounts(s, DoPost(s, n, step), n, t);
  }

  lemma InsertMoves(s: Sys, n: nat, id: string, t: string)
    requires SlotsInPlace(s) && PostEnabled(s, n, PostInsert(id))
    ensures
      var s' := DoPost(s, n, PostInsert(id));
      && Held(s', t) - Held(s, t) == Live(s', t) - Live(s, t)
      && Live(s', t) + Open(s', t) <= Live(s, t) + Open(s, t)
  {
    CallCounts(s, DoPost(s, n, PostInsert(id)), n, t);
    InsertCounts(s, n, id, t);
  }

  lemma InsertCounts(s: Sys, n: nat, id: string, t: string)
    requires SlotsInPlace(s) && PostEnabled(s, n, PostInsert(id))
    ensures
      var s', u := DoPost(s, n, PostInsert(id)), s.calls[n].tenant;
      var more := Bit(id !in s.db && u == t);
      Live(s', t) == Live(s, t) + more && Held(s', t) == Held(s, t) + more
  {
    var s', u := DoPost(s, n, PostInsert(id)), s.calls[n].tenant;
    if id !in s.db {
      NumAfterPut(s.db, id, s'.db[id], LiveOf(t));
      NumAfterPut(s.hist.slots, id, u, SlotOf(t));
    }
  }

  // ---------- A run that takes a tenant over its limit ----------

  /** The only queued request misses its deadline and fails. */
  lemma ExpireRun(s: Sys, id: string) returns (s': Sys)
    requires Reachable(s) && s.dispatcher.Idle? && s.queue == multiset{Item(id, Urgency(s.clock, 1))}
    requires id in s.db && s.db[id].state == Queued
    ensures Reachable(s') && s'.dispatcher.Idle? && s'.queue == multiset{} && s'.hosts == s.hosts
    ensures s'.calls == s.calls && s'.quota == s.quota && s'.configuredLimit == s.configuredLimit
    ensures id in s'.db && s'.db == s.db[id := s'.db[id]]
    ensures s'.db[id].tenant == s.db[id].tenant && s'.db[id].state == Failed
  {
    var item := Item(id, Urgency(s.clock, 1));
    var s1 := s.(clock := s.clock + 1);
    assert Do(s, Env(Tick(1))) == s1;
    ReachableStep(s, Env(Tick(1)));
    var s2 := HandTo(s1, id, AtDispatcher).(queue := multiset{}, dispatcher := Popped(item));
    assert Do(s1, Dispatch(PopFirst(item))) == s2;
    ReachableStep(s1, Dispatch(PopFirst(item)));
    s' := FailRun(s2, item);
  }

  lemma FailRun(s: Sys, item: Item) returns (s': Sys)
    requires Reachable(s) && s.dispatcher == Popped(item) && s.clock > item.key.deadline
    requires item.id in s.db && s.db[item.id].state == Queued
    ensures Reachable(s') && s'.dispatcher.Idle? && s'.queue == s.queue && s'.hosts == s.hosts
    ensures s'.calls == s.calls && s'.quota == s.quota && s'.configuredLimit == s.configuredLimit
    ensures item.id in s'.db && s'.db == s.db[item.id := s'.db[item.id]]
    ensures s'.db[item.id].tenant == s.db[item.id].tenant && s'.db[item.id].state == Failed
  {
    var s1 := s.(dispatcher := Expire(item));
    assert Do(s, Dispatch(CheckDeadline)) == s1;
    ReachableStep(s, Dispatch(CheckDeadline));
    s' := Do(s1, Dispatch(MarkExpired));
    ReachableStep(s1, Dispatch(MarkExpired));
  }

  /** One delete request of a Failed sandbox: it always releases. */
  lemma KillRun(s: Sys, n: nat, t: string, id: string) returns (s': Sys)
    requires Reachable(s) && n !in s.calls && id in s.db
    requires s.db[id].tenant == t && s.db[id].state == Failed && Count(s.quota, t) > 0
    ensures Reachable(s') && s'.dispatcher == s.dispatcher && s'.queue == s.queue && s'.hosts == s.hosts
    ensures s'.clock == s.clock && s'.configuredLimit == s.configuredLimit && s'.db == s.db
    ensures s'.calls.Keys == s.calls.Keys + {n} && s'.quota == Bump(s.quota, t, -1)
  {
    var s1 := At(s, n, DeleteFind(t, id));
    assert Do(s, Delete(n, BeginDelete(t, id))) == s1;
    ReachableStep(s, Delete(n, BeginDelete(t, id)));
    var s2 := At(s1, n, TerminateGet(t, id));
    assert Do(s1, Delete(n, DeleteLookUp)) == s2;
    ReachableStep(s1, Delete(n, DeleteLookUp));
    s' := ReadAndRelease(s2, n, t, id);
  }

  lemma ReadAndRelease(s: Sys, n: nat, t: string, id: string) returns (s': Sys)
    requires Reachable(s) && n in s.calls && s.calls[n] == TerminateGet(t, id)
    requires id in s.db && s.db[id].state == Failed && Count(s.quota, t) > 0
    ensures Reachable(s') && s'.dispatcher == s.dispatcher && s'.queue == s.queue && s'.hosts == s.hosts
    ensures s'.clock == s.clock && s'.configuredLimit == s.configuredLimit && s'.db == s.db
    ensures s'.calls.Keys == s.calls.Keys && s'.quota == Bump(s.quota, t, -1)
  {
    var s1 := At(s, n, ReleaseLoad(t, id));
    assert Do(s, Delete(n, DeleteReadState)) == s1;
    ReachableStep(s, Delete(n, DeleteReadState));
    s' := ReleaseRun(s1, n, t, id);
  }

  lemma ReleaseRun(s: Sys, n: nat, t: string, id: string) returns (s': Sys)
    requires Reachable(s) && n in s.calls && s.calls[n] == ReleaseLoad(t, id) && Count(s.quota, t) > 0
    ensures Reachable(s') && s'.dispatcher == s.dispatcher && s'.queue == s.queue && s'.hosts == s.hosts
    ensures s'.clock == s.clock && s'.configuredLimit == s.configuredLimit && s'.db == s.db
    ensures s'.calls.Keys == s.calls.Keys && s'.quota == Bump(s.quota, t, -1)
  {
    var s1 := At(s, n, ReleaseDecrement(t, id));
    assert Do(s, Delete(n, DeleteReadCounter)) == s1;
    ReachableStep(s, Delete(n, DeleteReadCounter));
    s' := Do(s1, Delete(n, DeleteSubtractOne));
    ReachableStep(s1, Delete(n, DeleteSubtractOne));
  }

  /**
   Deleting a Failed sandbox a second time releases a slot that is no longer its own: with a limit of
   one, tenant "t" then has two live sandboxes.
   */
  lemma RepeatedDeleteExceedsLimit()
    ensures exists s :: Reachable(s) && EffectiveLimit(s.configuredLimit) == 1 && Live(s, "t") == 2
  {
    var s := DeletedTwiceRun();
    TwoLive(s.db, "t", "b", "c");
    assert Reachable(s) && EffectiveLimit(s.configuredLimit) == 1 && Live(s, "t") == 2;
  }

  lemma DeletedTwiceRun() returns (s: Sys)
    ensures Reachable(s) && s.configuredLimit == 1 && s.db.Keys == {"a", "b", "c"}
    ensures s.db["a"].state == Failed
    ensures s.db["b"].tenant == "t" && s.db["b"].state == Queued && s.db["c"].tenant == "t" && s.db["c"].state == Queued
  {
    var s1 := DeletedAgainRun();
    s := PostRun(s1, 4, "t", "c");
  }

  /** A second sandbox is created, and then the first one deleted once more. */
  lemma DeletedAgainRun() returns (s: Sys)
    ensures Reachable(s) && s.configuredLimit == 1 && Count(s.quota, "t") == 0
    ensures s.calls.Keys == {0, 1, 2, 3} && s.db.Keys == {"a", "b"} && s.db["a"].state == Failed
    ensures s.db["b"].tenant == "t" && s.db["b"].state == Queued
  {
    var s0 := DeletedOnceRun();
    var s1 := PostRun(s0, 2, "t", "b");
    s := KillRun(s1, 3, "t", "a");
  }

  /** With a limit of one, sandbox "a" is created, misses its deadline, and is deleted once. */
  lemma DeletedOnceRun() returns (s: Sys)
    ensures Reachable(s) && s.configuredLimit == 1 && Count(s.quota, "t") == 0
    ensures s.calls.Keys == {0, 1} && s.db.Keys == {"a"} && s.db["a"].tenant == "t" && s.db["a"].state == Failed
  {
    var s1 := ExpiredRun();
    s := KillRun(s1, 1, "t", "a");
  }

  lemma ExpiredRun() returns (s: Sys)
    ensures Reachable(s) && s.configuredLimit == 1 && Count(s.quota, "t") == 1
    ensures s.calls.Keys == {0} && s.db.Keys == {"a"} && s.db["a"].tenant == "t" && s.db["a"].state == Failed
  {
    var s0 := Sys(0, map[], multiset{}, Idle, map[], map[], map[], 1, NO_HISTORY);
    assert Init(s0) && Runs(s0, [], s0);
    var s1 := PostRun(s0, 0, "t", "a");
    s := ExpireRun(s1, "a");
  }

  /** One create request of a reachable state. */
  lemma PostRun(s: Sys, n: nat, t: string, id: string) returns (s': Sys)
    requires Reachable(s) && n !in s.calls && id !in s.db
    requires Count(s.quota, t) < EffectiveLimit(s.configuredLimit)
    ensures Reachable(s') && s'.dispatcher == s.dispatcher && s'.hosts == s.hosts && s'.clock == s.clock
    ensures s'.configuredLimit == s.configuredLimit
    ensures s'.calls == s.calls[n := Done(Created)] && s'.quota == Bump(s.quota, t, 1)
    ensures id in s'.db && s'.db == s.db[id := s'.db[id]] && s'.db[id].tenant == t && s'.db[id].state == Queued
    ensures s'.queue == s.queue + multiset{Item(id, Urgency(s.clock, 1))}
  {
    s' := CreateRun(s, n, t, 0, id);
    RunStaysReachable(s, CreateSteps(n, t, 0, id), s');
  }

  lemma TwoLive(db: Db, t: string, b: string, c: string)
    requires b != c && b in db && c in db && LiveOf(t)(db[b]) && LiveOf(t)(db[c])
    requires forall id :: id in db && id != b && id != c ==> !LiveOf(t)(db[id])
    ensures Num(db, LiveOf(t)) == 2
  {
    assert Those(db, LiveOf(t)) == {b, c};
  }
}

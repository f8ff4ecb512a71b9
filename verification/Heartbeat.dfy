/**
 Heartbeat scoring, host health and fencing (internal/fencing/fencing.go, runHeartbeatMonitor of
 cmd/orchestrator/main.go).
 */
module Heartbeat {
  import opened Results
  import opened Scheduling

  // ---------- One host's history, and what it should mean ----------

  /** What happened to one host: it answered a heartbeat, missed one, or was registered (again). */
  datatype Sign = Up | Down | Back

  /** The runs after one earlier sign, and after one later sign. */
  function Before(first: Sign, runs: seq<nat>): (all: seq<nat>)
    requires runs != []
    ensures all != []
  {
    match first
    case Up => [0] + runs
    case Down => [runs[0] + 1] + runs[1..]
    case Back => runs
  }

  function Then(runs: seq<nat>, x: Sign): (all: seq<nat>)
    requires runs != []
    ensures all != []
  {
    match x
    case Up => runs + [0]
    case Down => runs[|runs| - 1 := runs[|runs| - 1] + 1]
    case Back => runs
  }

  /** Lengths of the maximal runs of misses: an answer ends a run, a registration does not. */
  function Runs(signs: seq<Sign>): (runs: seq<nat>)
    ensures runs != []
  {
    if signs == [] then [0] else Before(signs[0], Runs(signs[1..]))
  }

  function TrailingRun(signs: seq<Sign>): nat {
    var runs := Runs(signs);
    runs[|runs| - 1]
  }

  /** Fence calls owed for runs of the given lengths: one per miss from the threshold on. */
  function FencesOwed(threshold: nat, runs: seq<nat>): nat
    decreases |runs|
  {
    if runs == [] then 0
    else
      var n := runs[|runs| - 1];
      FencesOwed(threshold, runs[..|runs| - 1]) + if n >= threshold then n - threshold + 1 else 0
  }

  /** A host counts as alive while its run of misses is short, and from a registration to its next miss. */
  predicate Alive(threshold: nat, signs: seq<Sign>) {
    TrailingRun(signs) < threshold || (signs != [] && signs[|signs| - 1] == Back)
  }

  lemma PrefixGrows(runs: seq<nat>, first: Sign, x: Sign)
    requires runs != []
    ensures Before(first, Then(runs, x)) == Then(Before(first, runs), x)
  {
    match first
    case Up => UpGrows(runs, x);
    case Down => DownGrows(runs, x);
    case Back =>
  }

  lemma UpGrows(runs: seq<nat>, x: Sign)
    requires runs != []
    ensures [0] + Then(runs, x) == Then([0] + runs, x)
  {
  }

  lemma DownGrows(runs: seq<nat>, x: Sign)
    requires runs != []
    ensures Before(Down, Then(runs, x)) == Then(Before(Down, runs), x)
  {
    var n, longer := |runs| - 1, Before(Down, runs);
    if x == Up {
      assert (runs + [0])[1..] == runs[1..] + [0];
    } else if x == Down {
      var more := Then(runs, Down);
      assert |Before(Down, more)| == |Then(longer, Down)|;
      forall k | 0 <= k <= n ensures Before(Down, more)[k] == Then(longer, Down)[k] {
        assert Before(Down, more)[k] == if k == 0 then more[0] + 1 else more[k];
        assert longer[k] == if k == 0 then runs[0] + 1 else runs[k];
      }
    }
  }

  lemma {:induction false} RunsGrow(signs: seq<Sign>, x: Sign)
    ensures Runs(signs + [x]) == Then(Runs(signs), x)
  {
    if signs == [] {
      assert [x][1..] == [];
    } else {
      RunsGrow(signs[1..], x);
      assert (signs + [x])[1..] == signs[1..] + [x];
      PrefixGrows(Runs(signs[1..]), signs[0], x);
    }
  }

  // ---------- Scorer, registry and fencer together ----------

  datatype Report = Report(activeVMs: nat, idlePool: nat, cpuUsagePct: real, at: int)

  datatype Event = Registered(host: Host, now: int) | Answered(id: string, report: Report) | Missed(id: string)

  datatype Watch = Watch(missed: map<string, nat>, hosts: map<string, Host>, fenced: seq<string>)

  const NOTHING := Watch(map[], map[], [])

  function MissesIn(missed: map<string, nat>, id: string): nat {
    if id in missed then missed[id] else 0
  }

  function Reported(h: Host, r: Report): Host {
    Host(h.id, r.activeVMs, r.idlePool, r.cpuUsagePct, r.at, true)
  }

  function Step(threshold: nat, w: Watch, e: Event): Watch {
    match e
    case Registered(h, now) =>
      w.(hosts := w.hosts[h.id := h.(lastSeen := now, healthy := true)])
    case Answered(id, r) =>
      Watch(w.missed[id := 0], if id in w.hosts then w.hosts[id := Reported(w.hosts[id], r)] else w.hosts, w.fenced)
    case Missed(id) =>
      var n := MissesIn(w.missed, id) + 1;
      if n < threshold then w.(missed := w.missed[id := n])
      else
        Watch(w.missed[id := n],
              if id in w.hosts then w.hosts[id := w.hosts[id].(healthy := false)] else w.hosts,
              w.fenced + [id])
  }

  function After(threshold: nat, w: Watch, log: seq<Event>): Watch
    decreases |log|
  {
    if log == [] then w
    else Step(threshold, After(threshold, w, log[..|log| - 1]), log[|log| - 1])
  }

  function Whose(e: Event): string {
    if e.Registered? then e.host.id else e.id
  }

  function SignOf(e: Event): Sign {
    match e
    case Registered(_, _) => Back
    case Answered(_, _) => Up
    case Missed(_) => Down
  }

  /** The events of a run that concern one host. */
  function Own(log: seq<Event>, id: string): seq<Event>
    decreases |log|
  {
    if log == [] then []
    else
      var before := Own(log[..|log| - 1], id);
      if Whose(log[|log| - 1]) == id then before + [log[|log| - 1]] else before
  }

  function SignsOf(events: seq<Event>): seq<Sign> {
    seq(|events|, k requires 0 <= k < |events| => SignOf(events[k]))
  }

  function Signs(log: seq<Event>, id: string): seq<Sign> {
    SignsOf(Own(log, id))
  }

  /** Everything kept about one host. */
  datatype Look = Look(misses: nat, host: Option<Host>, fences: nat)

  function At(w: Watch, id: string): Look {
    Look(MissesIn(w.missed, id), if id in w.hosts then Some(w.hosts[id]) else None, multiset(w.fenced)[id])
  }

  /** What is kept about a host is what its history calls for. */
  ghost predicate Matches(threshold: nat, look: Look, signs: seq<Sign>) {
    && look.misses == TrailingRun(signs)
    && (look.host.Some? <==> Back in signs)
    && (look.host.Some? ==> (look.host.value.healthy <==> Alive(threshold, signs)))
    && look.fences == FencesOwed(threshold, Runs(signs))
  }

  lemma StepKeepsOthers(threshold: nat, w: Watch, e: Event, id: string)
    requires Whose(e) != id
    ensures At(Step(threshold, w, e), id) == At(w, id)
  {
  }

  /** What one more sign does to the quantities of a host's history. */
  lemma SignAdded(threshold: nat, signs: seq<Sign>, x: Sign)
    requires threshold > 0
    ensures
      var run, longer := TrailingRun(signs), signs + [x];
      && TrailingRun(longer) == (match x case Up => 0 case Down => run + 1 case Back => run)
      && FencesOwed(threshold, Runs(longer)) == FencesOwed(threshold, Runs(signs))
         + (if x == Down && run + 1 >= threshold then 1 else 0)
  {
    var runs := Runs(signs);
    RunsGrow(signs, x);
    if x == Up {
      assert (runs + [0])[..|runs|] == runs;
    } else if x == Down {
      assert runs[|runs| - 1 := runs[|runs| - 1] + 1][..|runs| - 1] == runs[..|runs| - 1];
    }
  }

  lemma SameLookSameStep(threshold: nat, w: Watch, v: Watch, e: Event)
    requires At(w, Whose(e)) == At(v, Whose(e))
    ensures At(Step(threshold, w, e), Whose(e)) == At(Step(threshold, v, e), Whose(e))
  {
  }

  lemma StepMatches(threshold: nat, w: Watch, e: Event, signs: seq<Sign>)
    requires threshold > 0 && Matches(threshold, At(w, Whose(e)), signs)
    ensures Matches(threshold, At(Step(threshold, w, e), Whose(e)), signs + [SignOf(e)])
  {
    SignAdded(threshold, signs, SignOf(e));
    assert At(Step(threshold, w, e), Whose(e)).misses == TrailingRun(signs + [SignOf(e)]);
  }

  /**
   After any history, from the start: a host's miss counter is its trailing run of misses; it is
   registered exactly when its history holds a registration, and then healthy exactly when alive; and
   it was fenced once for every miss that found its run at or past the threshold.
   */
  lemma {:induction false} HistoryDecides(threshold: nat, log: seq<Event>, id: string)
    requires threshold > 0
    ensures
      var w, signs := After(threshold, NOTHING, log), Signs(log, id);
      && MissesIn(w.missed, id) == TrailingRun(signs)
      && (id in w.hosts <==> Back in signs)
      && (id in w.hosts ==> (w.hosts[id].healthy <==> Alive(threshold, signs)))
      && multiset(w.fenced)[id] == FencesOwed(threshold, Runs(signs))
  {
    HistoryMatches(threshold, log, id);
  }

  lemma SignsGrow(log: seq<Event>, id: string)
    requires log != []
    ensures
      var last, signs := log[|log| - 1], Signs(log[..|log| - 1], id);
      Signs(log, id) == if Whose(last) == id then signs + [SignOf(last)] else signs
  {
  }

  lemma {:induction false} HistoryMatches(threshold: nat, log: seq<Event>, id: string)
    requires threshold > 0
    ensures Matches(threshold, At(After(threshold, NOTHING, log), id), Signs(log, id))
    decreases |log|
  {
    if log == [] {
      assert Signs(log, id) == [];
      assert FencesOwed(threshold, [0]) == FencesOwed(threshold, []);
    } else {
      var n := |log| - 1;
      HistoryMatches(threshold, log[..n], id);
      var w, signs := After(threshold, NOTHING, log[..n]), Signs(log[..n], id);
      SignsGrow(log, id);
      if Whose(log[n]) == id {
        StepMatches(threshold, w, log[n], signs);
      } else {
        StepKeepsOthers(threshold, w, log[n], id);
      }
    }
  }

  // ---------- What a host has reported ----------

  /** Event k is a host's last word: every later event of it is a miss. */
  ghost predicate LastWord(own: seq<Event>, k: nat) {
    k < |own| && !own[k].Missed? && forall j :: k < j < |own| ==> own[j].Missed?
  }

  /** The load filed for a host: from its report, or as it was registered. */
  ghost predicate FiledFrom(h: Host, e: Event) {
    match e
    case Answered(_, r) =>
      && h.activeVMs == r.activeVMs && h.idlePool == r.idlePool
      && h.cpuUsagePct == r.cpuUsagePct && h.lastSeen == r.at
    case Registered(was, now) =>
      && h.activeVMs == was.activeVMs && h.idlePool == was.idlePool
      && h.cpuUsagePct == was.cpuUsagePct && h.lastSeen == now
    case Missed(_) => false
  }

  ghost predicate Loaded(hosts: map<string, Host>, own: seq<Event>, id: string) {
    id in hosts ==>
      && hosts[id].id == id
      && (exists k: nat :: LastWord(own, k))
      && (forall k: nat :: LastWord(own, k) ==> FiledFrom(hosts[id], own[k]))
  }

  /**
   After any history a registered host carries, figure by figure, the load of its last answer, or that of
   its last registration if it has not answered since; misses change nothing of it.
   */
  lemma LoadIsLastReported(threshold: nat, log: seq<Event>, id: string)
    requires id in After(threshold, NOTHING, log).hosts
    ensures After(threshold, NOTHING, log).hosts[id].id == id
    ensures exists k: nat :: LastWord(Own(log, id), k)
    ensures forall k: nat :: LastWord(Own(log, id), k) ==>
              FiledFrom(After(threshold, NOTHING, log).hosts[id], Own(log, id)[k])
  {
    HistoryLoads(threshold, log, id);
  }

  lemma {:induction false} HistoryLoads(threshold: nat, log: seq<Event>, id: string)
    ensures Loaded(After(threshold, NOTHING, log).hosts, Own(log, id), id)
    decreases |log|
  {
    if log != [] {
      var n := |log| - 1;
      HistoryLoads(threshold, log[..n], id);
      var w, own := After(threshold, NOTHING, log[..n]), Own(log[..n], id);
      if Whose(log[n]) != id {
        StepKeepsOthers(threshold, w, log[n], id);
        assert At(Step(threshold, w, log[n]), id) == At(w, id);
      } else {
        StepLoads(threshold, w, own, log[n]);
      }
    }
  }

  lemma StepLoads(threshold: nat, w: Watch, own: seq<Event>, e: Event)
    requires Loaded(w.hosts, own, Whose(e))
    ensures Loaded(Step(threshold, w, e).hosts, own + [e], Whose(e))
  {
    var id, hosts, longer := Whose(e), Step(threshold, w, e).hosts, own + [e];
    StepFiles(threshold, w, e);
    LastWordMoves(own, e);
    if id in hosts {
      if e.Missed? {
        var k: nat :| LastWord(own, k);
        assert LastWord(longer, k);
        forall k: nat | LastWord(longer, k) ensures FiledFrom(hosts[id], longer[k]) {
          assert LastWord(own, k) && longer[k] == own[k];
        }
      } else {
        assert LastWord(longer, |own|) && longer[|own|] == e;
      }
    }
  }

  lemma LastWordMoves(own: seq<Event>, e: Event)
    ensures !e.Missed? ==> LastWord(own + [e], |own|) && forall k: nat :: LastWord(own + [e], k) ==> k == |own|
    ensures e.Missed? ==> forall k: nat :: LastWord(own + [e], k) <==> LastWord(own, k)
  {
    var longer := own + [e];
    assert longer[|own|] == e;
    forall k: nat ensures e.Missed? ==> (LastWord(longer, k) <==> LastWord(own, k)) {
      if e.Missed? {
        assert forall j :: 0 <= j < |own| ==> longer[j] == own[j];
      }
    }
  }

  lemma StepFiles(threshold: nat, w: Watch, e: Event)
    requires Whose(e) in w.hosts ==> w.hosts[Whose(e)].id == Whose(e)
    ensures
      var id, hosts := Whose(e), Step(threshold, w, e).hosts;
      && (id in hosts <==> id in w.hosts || e.Registered?)
      && (id in hosts && !e.Missed? ==> FiledFrom(hosts[id], e) && hosts[id].id == id)
      && (id in hosts && e.Missed? ==> hosts[id] == w.hosts[id].(healthy := hosts[id].healthy))
  {
  }

  /** Hosts are independent: what is kept about one depends only on its own events, in their order. */
  lemma {:induction false} OnlyOwnEventsMatter(threshold: nat, w: Watch, log: seq<Event>, id: string)
    ensures At(After(threshold, w, log), id) == At(After(threshold, w, Own(log, id)), id)
    decreases |log|
  {
    if log != [] {
      var n := |log| - 1;
      OnlyOwnEventsMatter(threshold, w, log[..n], id);
      var v, own := After(threshold, w, log[..n]), Own(log[..n], id);
      if Whose(log[n]) == id {
        assert (own + [log[n]])[..|own|] == own;
        SameLookSameStep(threshold, v, After(threshold, w, own), log[n]);
      } else {
        StepKeepsOthers(threshold, v, log[n], id);
      }
    }
  }

  /**
   The scheduler's choice after any history: a best host is alive exactly when any registered host is.
   So a host past the threshold, not registered anew, is chosen only when no registered host is alive.
   */
  lemma ChosenHostIsAliveIfAnyIs(threshold: nat, log: seq<Event>, id: string)
    requires threshold > 0 && IsBest(After(threshold, NOTHING, log).hosts, id)
    ensures
      var hosts := After(threshold, NOTHING, log).hosts;
      Alive(threshold, Signs(log, id)) <==> exists k :: k in hosts && Alive(threshold, Signs(log, k))
  {
    var hosts := After(threshold, NOTHING, log).hosts;
    BestIsHealthyIfAnyIs(hosts, id);
    forall k | k in hosts ensures hosts[k].healthy <==> Alive(threshold, Signs(log, k)) {
      HistoryDecides(threshold, log, k);
    }
  }

  lemma {:induction false} AfterBoth(threshold: nat, w: Watch, first: seq<Event>, second: seq<Event>)
    ensures After(threshold, w, first + second) == After(threshold, After(threshold, w, first), second)
    decreases |second|
  {
    if second == [] {
      assert first + second == first;
    } else {
      var n := |second| - 1;
      AfterBoth(threshold, w, first, second[..n]);
      assert (first + second)[..|first| + n] == first + second[..n];
    }
  }

  lemma {:induction false} OwnBoth(first: seq<Event>, second: seq<Event>, id: string)
    ensures Own(first + second, id) == Own(first, id) + Own(second, id)
    decreases |second|
  {
    if second == [] {
      assert first + second == first;
    } else {
      var n := |second| - 1;
      OwnBoth(first, second[..n], id);
      assert (first + second)[..|first| + n] == first + second[..n];
    }
  }

  // ---------- The source's objects ----------

  function HeardIn(heard: map<string, seq<Sign>>, id: string): seq<Sign> {
    if id in heard then heard[id] else []
  }

  /** Every counter is the run of misses that its host is in. */
  ghost predicate Tracks(missed: map<string, nat>, heard: map<string, seq<Sign>>) {
    forall id :: MissesIn(missed, id) == TrailingRun(HeardIn(heard, id))
  }

  lemma TracksOneMore(missed: map<string, nat>, heard: map<string, seq<Sign>>, id: string, x: Sign)
    requires Tracks(missed, heard) && x != Back
    ensures
      var n := if x == Up then 0 else MissesIn(missed, id) + 1;
      Tracks(missed[id := n], heard[id := HeardIn(heard, id) + [x]]) && TrailingRun(HeardIn(heard, id) + [x]) == n
  {
    SignAdded(1, HeardIn(heard, id), x);
    assert MissesIn(missed, id) == TrailingRun(HeardIn(heard, id));
    var n := if x == Up then 0 else MissesIn(missed, id) + 1;
    var missed', heard' := missed[id := n], heard[id := HeardIn(heard, id) + [x]];
    forall y ensures MissesIn(missed', y) == TrailingRun(HeardIn(heard', y)) {
      assert y != id ==> MissesIn(missed', y) == MissesIn(missed, y) && HeardIn(heard', y) == HeardIn(heard, y);
    }
  }

  /** `heard` is what the scorer has been told of each host; the counters follow from it. */
  class HealthScorer {
    const MissThreshold: nat
    var missed: map<string, nat>
    ghost var heard: map<string, seq<Sign>>

    ghost function Heard(hostID: string): seq<Sign>
      reads this
    {
      HeardIn(heard, hostID)
    }

    ghost predicate Valid()
      reads this
    {
      MissThreshold > 0 && Tracks(missed, heard)
    }

    constructor (threshold: int)
      ensures Valid() && missed == map[] && heard == map[]
      ensures MissThreshold == if threshold <= 0 then 3 else threshold
    {
      MissThreshold := if threshold <= 0 then 3 else threshold;
      missed := map[];
      heard := map[];
    }

    /** Ends the host's run of misses. */
    method RecordSuccess(hostID: string)
      requires Valid()
      modifies this
      ensures Valid() && heard == old(heard)[hostID := old(Heard(hostID)) + [Up]]
      ensures TrailingRun(Heard(hostID)) == 0
      ensures missed == old(missed)[hostID := 0]
    {
      TracksOneMore(missed, heard, hostID, Up);
      missed := missed[hostID := 0];
      heard := heard[hostID := Heard(hostID) + [Up]];
    }

    /** Says whether the host has now missed as many heartbeats in a row as the threshold allows. */
    method RecordMiss(hostID: string) returns (fence: bool)
      requires Valid()
      modifies this
      ensures Valid() && heard == old(heard)[hostID := old(Heard(hostID)) + [Down]]
      ensures fence <==> TrailingRun(Heard(hostID)) >= MissThreshold
      ensures missed == old(missed)[hostID := MissesIn(old(missed), hostID) + 1]
    {
      TracksOneMore(missed, heard, hostID, Down);
      missed := missed[hostID := MissesIn(missed, hostID) + 1];
      heard := heard[hostID := Heard(hostID) + [Down]];
      return missed[hostID] >= MissThreshold;
    }

    /** The length of the run of misses that the host is in. */
    function Misses(hostID: string): (n: nat)
      requires Valid()
      reads this
      ensures n == TrailingRun(Heard(hostID))
    {
      MissesIn(missed, hostID)
    }
  }

  /** The power switch behind fencing; only the calls made to it are kept. */
  class Fencer {
    var calls: seq<string>

    constructor ()
      ensures calls == []
    {
      calls := [];
    }

    method Fence(hostID: string)
      modifies this
      ensures calls == old(calls) + [hostID]
    {
      calls := calls + [hostID];
    }
  }

  ghost function View(sched: Scheduler, scorer: HealthScorer, fencer: Fencer): Watch
    reads sched, sched.hosts.Values, scorer, fencer
  {
    Watch(scorer.missed, sched.Hosts(), fencer.calls)
  }

  /** The outcome of one heartbeat request: a report, or None for any error. */
  type Answers = string -> Option<Report>

  function EventOf(answers: Answers, id: string): Event {
    if answers(id).Some? then Answered(id, answers(id).value) else Missed(id)
  }

  /** The host's entry shows the report, figure by figure. */
  ghost predicate Shows(h: HostInfo, r: Report)
    reads h
  {
    h.ActiveVMs == r.activeVMs && h.IdlePool == r.idlePool && h.CPUUsagePct == r.cpuUsagePct && h.LastSeen == r.at
  }

  /** The critical section that writes a report into the registry. */
  method Refresh(sched: Scheduler, hostID: string, r: Report)
    requires sched.Valid()
    modifies sched.hosts.Values
    ensures sched.Valid()
    ensures sched.Hosts() == if hostID in old(sched.Hosts())
                             then old(sched.Hosts())[hostID := Reported(old(sched.Hosts())[hostID], r)]
                             else old(sched.Hosts())
    ensures hostID in sched.hosts ==> Shows(sched.hosts[hostID], r) && sched.hosts[hostID].Healthy
  {
    if hostID in sched.hosts {
      var h := sched.hosts[hostID];
      h.ActiveVMs, h.IdlePool, h.CPUUsagePct, h.LastSeen := r.activeVMs, r.idlePool, r.cpuUsagePct, r.at;
      h.Healthy := true;
      assert sched.Hosts() == old(sched.Hosts())[hostID := h.Value()];
    }
  }

  method NoteMiss(sched: Scheduler, scorer: HealthScorer, fencer: Fencer, hostID: string)
    requires sched.Valid() && scorer.Valid()
    modifies sched.hosts.Values, scorer, fencer
    ensures sched.Valid() && scorer.Valid()
    ensures View(sched, scorer, fencer) == Step(scorer.MissThreshold, old(View(sched, scorer, fencer)), Missed(hostID))
  {
    var fence := scorer.RecordMiss(hostID);
    if fence {
      sched.UpdateHostHealth(hostID, false);
      fencer.Fence(hostID);
    }
  }

  method NoteAnswer(sched: Scheduler, scorer: HealthScorer, fencer: Fencer, hostID: string, r: Report)
    requires sched.Valid() && scorer.Valid()
    modifies sched.hosts.Values, scorer
    ensures sched.Valid() && scorer.Valid()
    ensures View(sched, scorer, fencer) ==
            Step(scorer.MissThreshold, old(View(sched, scorer, fencer)), Answered(hostID, r))
    ensures hostID in sched.hosts ==> Shows(sched.hosts[hostID], r) && sched.hosts[hostID].Healthy
  {
    scorer.RecordSuccess(hostID);
    Refresh(sched, hostID, r);
  }

  /** One heartbeat of one host, and what the monitor does with the outcome. */
  method Probe(sched: Scheduler, scorer: HealthScorer, fencer: Fencer, hostID: string, answers: Answers)
    requires sched.Valid() && scorer.Valid()
    modifies sched.hosts.Values, scorer, fencer
    ensures sched.Valid() && scorer.Valid()
    ensures View(sched, scorer, fencer)
         == Step(scorer.MissThreshold, old(View(sched, scorer, fencer)), EventOf(answers, hostID))
    ensures answers(hostID).Some? && hostID in sched.hosts ==>
              Shows(sched.hosts[hostID], answers(hostID).value) && sched.hosts[hostID].Healthy
  {
    var answer := answers(hostID);
    if answer.None? {
      NoteMiss(sched, scorer, fencer, hostID);
    } else {
      NoteAnswer(sched, scorer, fencer, hostID, answer.value);
    }
  }

  /** Of the hosts, exactly those that are not left have been probed, once each. */
  ghost predicate Probed(log: seq<Event>, hosts: set<string>, left: set<string>, answers: Answers) {
    forall id :: Own(log, id) == if id in hosts && id !in left then [EventOf(answers, id)] else []
  }

  lemma ProbedOneMore(log: seq<Event>, hosts: set<string>, left: set<string>, answers: Answers, id: string)
    requires Probed(log, hosts, left, answers) && id in left && left <= hosts
    ensures Probed(log + [EventOf(answers, id)], hosts, left - {id}, answers)
  {
    assert (log + [EventOf(answers, id)])[..|log|] == log;
    assert Own(log, id) == [];
  }

  /** One tick: every registered host is probed once, in whatever order the registry is read. */
  method Round(sched: Scheduler, scorer: HealthScorer, fencer: Fencer, answers: Answers) returns (log: seq<Event>)
    requires sched.Valid() && scorer.Valid()
    modifies sched.hosts.Values, scorer, fencer
    ensures sched.Valid() && scorer.Valid()
    ensures View(sched, scorer, fencer) == After(scorer.MissThreshold, old(View(sched, scorer, fencer)), log)
    ensures Probed(log, sched.hosts.Keys, {}, answers)
  {
    log := [];
    var left := sched.hosts.Keys;
    while left != {}
      invariant sched.Valid() && scorer.Valid() && left <= sched.hosts.Keys
      invariant View(sched, scorer, fencer) == After(scorer.MissThreshold, old(View(sched, scorer, fencer)), log)
      invariant Probed(log, sched.hosts.Keys, left, answers)
      decreases |left|
    {
      var id :| id in left;
      var host := sched.hosts[id];
      Probe(sched, scorer, fencer, host.ID, answers);
      ProbedOneMore(log, sched.hosts.Keys, left, answers, id);
      assert (log + [EventOf(answers, id)])[..|log|] == log;
      log := log + [EventOf(answers, id)];
      left := left - {id};
    }
  }

  /**
   The monitor over a number of ticks, beginning with a fresh scorer. `ticks[k]` says how each host
   answers at tick k. Whatever the order of the probes, a host's history is its answers in tick order.
   */
  method RunHeartbeatMonitor(sched: Scheduler, fencer: Fencer, ticks: seq<Answers>)
    returns (scorer: HealthScorer, log: seq<Event>)
    requires sched.Valid()
    modifies sched.hosts.Values, fencer
    ensures sched.Valid() && scorer.Valid()
    ensures scorer.MissThreshold == 3
    ensures View(sched, scorer, fencer) == After(3, Watch(map[], old(sched.Hosts()), old(fencer.calls)), log)
    ensures IsLogOf(log, sched.hosts.Keys, ticks)
  {
    scorer := new HealthScorer(3);
    log := [];
    ghost var w := View(sched, scorer, fencer);
    for n := 0 to |ticks|
      invariant sched.Valid() && scorer.Valid() && scorer.MissThreshold == 3
      invariant View(sched, scorer, fencer) == After(3, w, log)
      invariant IsLogOf(log, sched.hosts.Keys, ticks[..n])
    {
      var more := Round(sched, scorer, fencer, ticks[n]);
      AfterBoth(3, w, log, more);
      LogGrows(log, more, sched.hosts.Keys, ticks[..n], ticks[n]);
      assert ticks[..n + 1] == ticks[..n] + [ticks[n]];
      log := log + more;
    }
    assert ticks[..|ticks|] == ticks;
  }

  /** The log of some ticks: each host's own events are its answers in tick order, and there are no others. */
  ghost predicate IsLogOf(log: seq<Event>, ids: set<string>, ticks: seq<Answers>) {
    forall id :: Own(log, id) == if id in ids then EventsOf(ticks, id) else []
  }

  lemma LogGrows(log: seq<Event>, more: seq<Event>, ids: set<string>, ticks: seq<Answers>, answers: Answers)
    requires IsLogOf(log, ids, ticks)
    requires Probed(more, ids, {}, answers)
    ensures IsLogOf(log + more, ids, ticks + [answers])
  {
    forall id ensures Own(log + more, id) == if id in ids then EventsOf(ticks + [answers], id) else [] {
      OwnBoth(log, more, id);
      EventsGrow(ticks, answers, id);
    }
  }

  lemma EventsGrow(ticks: seq<Answers>, answers: Answers, id: string)
    ensures EventsOf(ticks + [answers], id) == EventsOf(ticks, id) + [EventOf(answers, id)]
  {
  }

  function EventsOf(ticks: seq<Answers>, id: string): seq<Event> {
    seq(|ticks|, k requires 0 <= k < |ticks| => EventOf(ticks[k], id))
  }

  function TickSigns(ticks: seq<Answers>, id: string): seq<Sign> {
    seq(|ticks|, k requires 0 <= k < |ticks| => if ticks[k](id).Some? then Up else Down)
  }

  lemma {:induction false} LeadingRegistrationsAreSilent(before: seq<Sign>, signs: seq<Sign>)
    requires forall x :: x in before ==> x == Back
    ensures Runs(before + signs) == Runs(signs)
  {
    if before == [] {
      assert before + signs == signs;
    } else {
      assert before[0] in before && forall x :: x in before[1..] ==> x in before;
      LeadingRegistrationsAreSilent(before[1..], signs);
      assert (before + signs)[1..] == before[1..] + signs;
    }
  }

  function Names(agents: seq<(string, string)>): set<string> {
    set k | 0 <= k < |agents| :: agents[k].0
  }

  lemma NamesGrow(agents: seq<(string, string)>, n: nat)
    requires n < |agents|
    ensures Names(agents[..n + 1]) == Names(agents[..n]) + {agents[n].0}
  {
    var before, after := agents[..n], agents[..n + 1];
    forall x ensures x in Names(after) <==> x in Names(before) || x == agents[n].0 {
      if x in Names(before) {
        var k :| 0 <= k < n && before[k].0 == x;
        assert after[k].0 == x;
      }
      if x in Names(after) {
        var k :| 0 <= k <= n && after[k].0 == x;
        assert k < n ==> before[k].0 == x;
      }
      assert after[n].0 == agents[n].0;
    }
  }

  /** A registration of a host that has reported nothing yet. */
  predicate IsBare(e: Event, now: int) {
    e.Registered? && e.now == now && e.host.activeVMs == 0 && e.host.idlePool == 0 && e.host.cpuUsagePct == 0.0
  }

  /** One configured host. */
  method RegisterOne(sched: Scheduler, id: string, addr: string, now: int) returns (event: Event, h: HostInfo)
    requires sched.Valid()
    modifies sched
    ensures sched.Valid() && fresh(h) && IsBare(event, now)
    ensures sched.hosts == old(sched.hosts)[id := h]
    ensures Watch(map[], sched.Hosts(), []) == Step(3, Watch(map[], old(sched.Hosts()), []), event)
  {
    h := new HostInfo(id, addr);
    event := Registered(h.Value(), now);
    sched.RegisterHost(h, now);
  }

  /** The configured hosts are registered one by one; an ID configured twice is registered anew. */
  method RegisterAll(sched: Scheduler, agents: seq<(string, string)>, now: int) returns (log: seq<Event>)
    requires sched.Valid() && sched.hosts == map[]
    modifies sched
    ensures sched.Valid() && fresh(sched.hosts.Values)
    ensures After(3, NOTHING, log) == Watch(map[], sched.Hosts(), [])
    ensures sched.hosts.Keys == Names(agents)
    ensures forall e :: e in log ==> IsBare(e, now)
  {
    log := [];
    ghost var owned: set<HostInfo> := {};
    for n := 0 to |agents|
      invariant sched.Valid() && fresh(owned) && sched.hosts.Values <= owned
      invariant After(3, NOTHING, log) == Watch(map[], sched.Hosts(), [])
      invariant sched.hosts.Keys == Names(agents[..n])
      invariant forall e :: e in log ==> IsBare(e, now)
    {
      var event, h := RegisterOne(sched, agents[n].0, agents[n].1, now);
      owned := owned + {h};
      NamesGrow(agents, n);
      assert (log + [event])[..|log|] == log;
      log := log + [event];
    }
    assert agents[..|agents|] == agents;
  }

  /** Registrations only leave registrations in a host's own history. */
  lemma {:induction false} OwnIsPart(log: seq<Event>, id: string)
    ensures forall e :: e in Own(log, id) ==> e in log
    decreases |log|
  {
    if log != [] {
      OwnIsPart(log[..|log| - 1], id);
    }
  }

  /**
   The orchestrator from start: register the configured hosts, then watch them. After any ticks a
   configured host's counter, health and fence calls are those of the misses among its answers, and its
   entry shows its last answer, or no load at all if there was none.
   */
  method Orchestrate(sched: Scheduler, agents: seq<(string, string)>, now: int, ticks: seq<Answers>)
    returns (scorer: HealthScorer, fencer: Fencer)
    requires sched.Valid() && sched.hosts == map[]
    modifies sched
    ensures sched.Valid() && scorer.Valid()
    ensures sched.hosts.Keys == Names(agents)
    ensures forall id :: id in sched.hosts ==>
      && scorer.Misses(id) == TrailingRun(TickSigns(ticks, id))
      && (sched.hosts[id].Healthy <==> scorer.Misses(id) < 3)
      && multiset(fencer.calls)[id] == FencesOwed(3, Runs(TickSigns(ticks, id)))
    ensures forall id, k: nat :: id in sched.hosts && LastAnswer(ticks, id, k) ==>
              Shows(sched.hosts[id], ticks[k](id).value)
    ensures forall id :: id in sched.hosts && (forall k :: 0 <= k < |ticks| ==> ticks[k](id).None?) ==>
              Shows(sched.hosts[id], Report(0, 0, 0.0, now))
  {
    fencer := new Fencer();
    var first := RegisterAll(sched, agents, now);
    var second;
    scorer, second := RunHeartbeatMonitor(sched, fencer, ticks);
    AfterBoth(3, NOTHING, first, second);
    forall id | id in sched.hosts
      ensures
        && scorer.Misses(id) == TrailingRun(TickSigns(ticks, id))
        && (sched.hosts[id].Healthy <==> scorer.Misses(id) < 3)
        && multiset(fencer.calls)[id] == FencesOwed(3, Runs(TickSigns(ticks, id)))
    {
      TicksDecide(first, second, ticks, id);
      assert sched.hosts[id].Healthy == View(sched, scorer, fencer).hosts[id].healthy;
    }
    ghost var w := After(3, NOTHING, first + second);
    assert forall id :: id in sched.hosts ==> id in w.hosts && w.hosts[id] == sched.hosts[id].Value();
    forall id, k: nat | id in sched.hosts && LastAnswer(ticks, id, k)
      ensures Shows(sched.hosts[id], ticks[k](id).value)
    {
      LastAnswerFiled(first, second, ticks, id, k);
    }
    forall id | id in sched.hosts && (forall k :: 0 <= k < |ticks| ==> ticks[k](id).None?)
      ensures Shows(sched.hosts[id], Report(0, 0, 0.0, now))
    {
      NothingFiled(first, second, ticks, id, now);
    }
  }

  /** Tick k is the last at which the host answered. */
  ghost predicate LastAnswer(ticks: seq<Answers>, id: string, k: nat) {
    k < |ticks| && ticks[k](id).Some? && forall j :: k < j < |ticks| ==> ticks[j](id).None?
  }

  lemma LastAnswerFiled(first: seq<Event>, second: seq<Event>, ticks: seq<Answers>, id: string, k: nat)
    requires Own(second, id) == EventsOf(ticks, id) && LastAnswer(ticks, id, k)
    requires id in After(3, NOTHING, first + second).hosts
    ensures FiledFrom(After(3, NOTHING, first + second).hosts[id], Answered(id, ticks[k](id).value))
  {
    OwnBoth(first, second, id);
    LoadIsLastReported(3, first + second, id);
    var n := |Own(first, id)|;
    var own := Own(first + second, id);
    assert own[n + k] == EventsOf(ticks, id)[k];
    assert forall j :: n + k < j < |own| ==> own[j] == EventsOf(ticks, id)[j - n];
    assert LastWord(own, n + k);
  }

  lemma NothingFiled(first: seq<Event>, second: seq<Event>, ticks: seq<Answers>, id: string, now: int)
    requires forall e :: e in first ==> IsBare(e, now)
    requires Own(second, id) == EventsOf(ticks, id) && forall k :: 0 <= k < |ticks| ==> ticks[k](id).None?
    requires id in After(3, NOTHING, first + second).hosts
    ensures
      var h := After(3, NOTHING, first + second).hosts[id];
      h.activeVMs == 0 && h.idlePool == 0 && h.cpuUsagePct == 0.0 && h.lastSeen == now
  {
    OwnBoth(first, second, id);
    OwnIsPart(first, id);
    LoadIsLastReported(3, first + second, id);
    var own := Own(first + second, id);
    var k: nat :| LastWord(own, k);
    assert k < |Own(first, id)| by {
      if k >= |Own(first, id)| {
        assert own[k] == EventsOf(ticks, id)[k - |Own(first, id)|];
      }
    }
    assert own[k] in Own(first, id);
  }

  lemma TicksDecide(first: seq<Event>, second: seq<Event>, ticks: seq<Answers>, id: string)
    requires forall e :: e in first ==> e.Registered?
    requires Own(second, id) == EventsOf(ticks, id)
    requires id in After(3, NOTHING, first + second).hosts
    ensures
      var w := After(3, NOTHING, first + second);
      && MissesIn(w.missed, id) == TrailingRun(TickSigns(ticks, id))
      && (w.hosts[id].healthy <==> MissesIn(w.missed, id) < 3)
      && multiset(w.fenced)[id] == FencesOwed(3, Runs(TickSigns(ticks, id)))
  {
    HistoryDecides(3, first + second, id);
    SignsOfBoth(first, second, ticks, id);
    LeadingRegistrationsAreSilent(Signs(first, id), TickSigns(ticks, id));
    AliveOnAnswers(Signs(first, id) + TickSigns(ticks, id), TickSigns(ticks, id));
  }

  lemma SignsOfBoth(first: seq<Event>, second: seq<Event>, ticks: seq<Answers>, id: string)
    requires forall e :: e in first ==> e.Registered?
    requires Own(second, id) == EventsOf(ticks, id)
    ensures Signs(first + second, id) == Signs(first, id) + TickSigns(ticks, id)
    ensures forall x :: x in Signs(first, id) ==> x == Back
  {
    OwnBoth(first, second, id);
    OwnIsPart(first, id);
    SignsOfAnswers(Own(first, id), ticks, id);
  }

  lemma SignsOfAnswers(before: seq<Event>, ticks: seq<Answers>, id: string)
    requires forall e :: e in before ==> e.Registered?
    ensures SignsOf(before + EventsOf(ticks, id)) == SignsOf(before) + TickSigns(ticks, id)
    ensures forall x :: x in SignsOf(before) ==> x == Back
  {
  }

  lemma AliveOnAnswers(all: seq<Sign>, signs: seq<Sign>)
    requires Runs(all) == Runs(signs) && Back !in signs
    requires signs != [] ==> all != [] && all[|all| - 1] == signs[|signs| - 1]
    ensures Alive(3, all) <==> TrailingRun(signs) < 3
  {
    if signs == [] {
      assert Runs(signs) == [0];
    } else {
      assert signs[|signs| - 1] in signs;
    }
  }
}

/**
 What each kind of request does from arrival to response, with nothing in between, and what requests of one
 tenant can do to the sandboxes of others, whatever runs in between (cmd/api/handlers.go).
 */
module Requests {
  import opened SandboxState
  import opened PendingHeap
  import opened Scheduling
  import opened ControlPlane
  import Ownership
  import PlacementSafety
  import QuotaLimit
  import QuotaReleases
  import QuotaSafety

  /** A run of one more step, to an explicit state. */
  lemma Extend(s: Sys, steps: seq<Step>, mid: Sys, step: Step, end: Sys)
    requires Runs(s, steps, mid) && Enabled(mid, step) && Do(mid, step) == end
    ensures Runs(s, steps + [step], end)
  {
    RunsThenStep(s, steps, mid, step);
  }

  // ---------- POST ----------

  /**
   A create is admitted exactly below the limit, which is 20 unless another is configured. An admitted one
   leaves a Queued record of its tenant, a request with that record's deadline and one more slot taken; a
   rejected one leaves every record, every request and every count as it was.
   */
  lemma CreateAlone(s: Sys, n: nat, t: string, ms: nat, id: string) returns (steps: seq<Step>, end: Sys)
    requires n !in s.calls && id !in s.db
    ensures Runs(s, steps, end) && (forall i :: 0 <= i < |steps| ==> steps[i].Post? && steps[i].n == n)
    ensures n in end.calls && end.calls == s.calls[n := end.calls[n]]
    ensures
      var admitted := Count(s.quota, t) < if s.configuredLimit <= 0 then 20 else s.configuredLimit;
      && end.calls[n] == Done(if admitted then Created else QuotaExceeded)
      && (admitted ==> id in end.db && end.db == s.db[id := end.db[id]]
                       && end.db[id].tenant == t && end.db[id].state == Queued)
      && (!admitted ==> end.db == s.db)
      && end.queue == s.queue + (if admitted then multiset{Item(id, Urgency(s.clock + ms, 1))} else multiset{})
      && forall u :: Count(end.quota, u) == Count(s.quota, u) + if u == t && admitted then 1 else 0
  {
    if Count(s.quota, t) < EffectiveLimit(s.configuredLimit) {
      end := QuotaLimit.CreateRun(s, n, t, ms, id);
      steps := QuotaLimit.CreateSteps(n, t, ms, id);
    } else {
      steps, end := RejectedRun(s, n, t, ms);
    }
  }

  lemma RejectedRun(s: Sys, n: nat, t: string, ms: nat) returns (steps: seq<Step>, end: Sys)
    requires n !in s.calls && Count(s.quota, t) >= EffectiveLimit(s.configuredLimit)
    ensures Runs(s, steps, end) && (forall i :: 0 <= i < |steps| ==> steps[i].Post? && steps[i].n == n)
    ensures end.calls == s.calls[n := Done(QuotaExceeded)] && end.db == s.db && end.queue == s.queue
    ensures forall u :: Count(end.quota, u) == Count(s.quota, u)
  {
    var hist := s.hist.(asked := s.hist.asked.(timeouts := s.hist.asked.timeouts[n := ms]));
    var s1 := At(s, n, CreateAdd(t, ms)).(hist := hist);
    var s2 := s.(calls := s.calls[n := CreateRollBack(t)], quota := Bump(s.quota, t, 1), hist := hist);
    end := s.(calls := s.calls[n := Done(QuotaExceeded)], quota := Bump(Bump(s.quota, t, 1), t, -1), hist := hist);
    QuotaLimit.TwoSteps(s, Post(n, BeginPost(t, ms)), s1, Post(n, PostAddOne), s2);
    Extend(s, [Post(n, BeginPost(t, ms)), Post(n, PostAddOne)], s2, Post(n, PostRollBack), end);
    steps := [Post(n, BeginPost(t, ms)), Post(n, PostAddOne)] + [Post(n, PostRollBack)];
  }

  // ---------- DELETE ----------

  ghost predicate DeletesBy(steps: seq<Step>, n: nat) {
    forall i :: 0 <= i < |steps| ==> steps[i].Delete? && steps[i].n == n
  }

  /** Release has been called from `s` on for tenant t, or not, and nobody else's count has changed. */
  ghost predicate CountsAfter(s: Sys, end: Sys, t: string, released: bool) {
    forall u :: Count(end.quota, u) ==
                Count(s.quota, u) - if u == t && released && Count(s.quota, t) > 0 then 1 else 0
  }

  /**
   A delete tells apart an unknown sandbox, one of another tenant, one that is neither Running nor over,
   and one that it ends. Only a Running sandbox changes, to Draining; the tenant's count goes down by one,
   but not below zero, exactly when the delete succeeds.
   */
  lemma DeleteAlone(s: Sys, n: nat, t: string, id: string) returns (steps: seq<Step>, end: Sys)
    requires n !in s.calls
    ensures Runs(s, steps, end) && DeletesBy(steps, n)
    ensures n in end.calls && end.calls == s.calls[n := end.calls[n]] && end.queue == s.queue
    ensures id !in s.db ==> end.calls[n] == Done(NoSuchSandbox)
    ensures id in s.db && s.db[id].tenant != t ==> end.calls[n] == Done(Forbidden)
    ensures id in s.db && s.db[id].tenant == t ==>
              end.calls[n] ==
              Done(if s.db[id].state in {Running, Terminated, Failed} then Killed(t, id) else KillFailed)
    ensures
      var drained := id in s.db && s.db[id].tenant == t && s.db[id].state == Running;
      && end.db == (if drained then s.db[id := s.db[id].(state := Draining, updatedAt := s.clock)] else s.db)
      && CountsAfter(s, end, t, end.calls[n].outcome.Killed?)
  {
    var s1 := At(s, n, DeleteFind(t, id));
    QuotaLimit.OneStep(s, Delete(n, BeginDelete(t, id)), s1);
    steps := [Delete(n, BeginDelete(t, id))];
    if id !in s.db || s.db[id].tenant != t {
      end := At(s, n, Done(if id !in s.db then NoSuchSandbox else Forbidden));
      LookUpIs(s, s1, n, t, id, end);
      Extend(s, steps, s1, Delete(n, DeleteLookUp), end);
      steps := steps + [Delete(n, DeleteLookUp)];
    } else {
      var s2 := At(s, n, TerminateGet(t, id));
      LookUpIs(s, s1, n, t, id, s2);
      Extend(s, steps, s1, Delete(n, DeleteLookUp), s2);
      var rest;
      rest, end := TerminateAlone(s, s2, n, t, id);
      RunsBoth(s, steps + [Delete(n, DeleteLookUp)], s2, rest, end);
      steps := steps + [Delete(n, DeleteLookUp)] + rest;
    }
  }

  lemma LookUpIs(s: Sys, s1: Sys, n: nat, t: string, id: string, s2: Sys)
    requires s1 == At(s, n, DeleteFind(t, id))
    requires s2 == At(s, n, if id !in s.db then Done(NoSuchSandbox)
                            else if s.db[id].tenant != t then Done(Forbidden) else TerminateGet(t, id))
    ensures Enabled(s1, Delete(n, DeleteLookUp)) && Do(s1, Delete(n, DeleteLookUp)) == s2
  {
  }

  /** From the second read of the record on. */
  lemma TerminateAlone(s: Sys, s2: Sys, n: nat, t: string, id: string) returns (steps: seq<Step>, end: Sys)
    requires s2 == At(s, n, TerminateGet(t, id)) && id in s.db && s.db[id].tenant == t
    ensures Runs(s2, steps, end) && DeletesBy(steps, n)
    ensures n in end.calls && end.calls == s.calls[n := end.calls[n]] && end.queue == s.queue
    ensures end.calls[n] == Done(if s.db[id].state in {Running, Terminated, Failed} then Killed(t, id) else KillFailed)
    ensures end.db == if s.db[id].state == Running then s.db[id := s.db[id].(state := Draining, updatedAt := s.clock)]
                      else s.db
    ensures CountsAfter(s, end, t, end.calls[n].outcome.Killed?)
  {
    var read := Delete(n, DeleteReadState);
    if s.db[id].state == Terminated || s.db[id].state == Failed {
      var s3 := At(s, n, ReleaseLoad(t, id));
      assert Do(s2, read) == s3;
      QuotaLimit.OneStep(s2, read, s3);
      var rest;
      rest, end := ReleaseAlone(s3, n, t, id);
      RunsBoth(s2, [read], s3, rest, end);
      steps := [read] + rest;
    } else {
      steps, end := DrainAlone(s, s2, n, t, id);
    }
  }

  lemma DrainAlone(s: Sys, s2: Sys, n: nat, t: string, id: string) returns (steps: seq<Step>, end: Sys)
    requires s2 == At(s, n, TerminateGet(t, id)) && id in s.db && s.db[id].tenant == t
    requires s.db[id].state != Terminated && s.db[id].state != Failed
    ensures Runs(s2, steps, end) && DeletesBy(steps, n)
    ensures n in end.calls && end.calls == s.calls[n := end.calls[n]] && end.queue == s.queue
    ensures end.calls[n] == Done(if s.db[id].state == Running then Killed(t, id) else KillFailed)
    ensures end.db == if s.db[id].state == Running then s.db[id := s.db[id].(state := Draining, updatedAt := s.clock)]
                      else s.db
    ensures CountsAfter(s, end, t, end.calls[n].outcome.Killed?)
  {
    var read, tell := Delete(n, DeleteReadState), Delete(n, DeleteTellHost);
    var s3 := At(s, n, TerminateTell(t, id, s.db[id].state, s.db[id].hostID));
    var s4 := At(s, n, TerminateMove(t, id, s.db[id].state));
    ReadsLive(s, s2, n, t, id, s3);
    assert Do(s3, tell) == s4;
    QuotaLimit.TwoSteps(s2, read, s3, tell, s4);
    var rest;
    rest, end := MoveAlone(s, s4, n, t, id);
    RunsBoth(s2, [read, tell], s4, rest, end);
    steps := [read, tell] + rest;
  }

  lemma MoveAlone(s: Sys, s4: Sys, n: nat, t: string, id: string) returns (steps: seq<Step>, end: Sys)
    requires id in s.db && s4 == At(s, n, TerminateMove(t, id, s.db[id].state))
    ensures Runs(s4, steps, end) && DeletesBy(steps, n)
    ensures n in end.calls && end.calls == s.calls[n := end.calls[n]] && end.queue == s.queue
    ensures end.calls[n] == Done(if s.db[id].state == Running then Killed(t, id) else KillFailed)
    ensures end.db == if s.db[id].state == Running then s.db[id := s.db[id].(state := Draining, updatedAt := s.clock)]
                      else s.db
    ensures CountsAfter(s, end, t, end.calls[n].outcome.Killed?)
  {
    var drain := Delete(n, DeleteDrain);
    if s.db[id].state == Running {
      var s5 := At(s.(db := s.db[id := s.db[id].(state := Draining, updatedAt := s.clock)]), n, ReleaseLoad(t, id));
      Drains(s, s4, n, t, id, s5);
      QuotaLimit.OneStep(s4, drain, s5);
      var rest;
      rest, end := ReleaseAlone(s5, n, t, id);
      RunsBoth(s4, [drain], s5, rest, end);
      steps := [drain] + rest;
    } else {
      end := At(s, n, Done(KillFailed));
      Drains(s, s4, n, t, id, end);
      QuotaLimit.OneStep(s4, drain, end);
      steps := [drain];
    }
  }

  lemma ReadsLive(s: Sys, s2: Sys, n: nat, t: string, id: string, s3: Sys)
    requires s2 == At(s, n, TerminateGet(t, id)) && id in s.db
    requires s.db[id].state != Terminated && s.db[id].state != Failed
    requires s3 == At(s, n, TerminateTell(t, id, s.db[id].state, s.db[id].hostID))
    ensures Enabled(s2, Delete(n, DeleteReadState)) && Do(s2, Delete(n, DeleteReadState)) == s3
  {
  }

  lemma Drains(s: Sys, s4: Sys, n: nat, t: string, id: string, s5: Sys)
    requires id in s.db && s4 == At(s, n, TerminateMove(t, id, s.db[id].state))
    requires s5 == if s.db[id].state == Running
                   then At(s.(db := s.db[id := s.db[id].(state := Draining, updatedAt := s.clock)]), n,
                           ReleaseLoad(t, id))
                   else At(s, n, Done(KillFailed))
    ensures Enabled(s4, Delete(n, DeleteDrain)) && Do(s4, Delete(n, DeleteDrain)) == s5
  {
    LegalExactly(s.db[id].state, Draining);
  }

  lemma ReleaseAlone(s: Sys, n: nat, t: string, id: string) returns (steps: seq<Step>, end: Sys)
    requires n in s.calls && s.calls[n] == ReleaseLoad(t, id)
    ensures Runs(s, steps, end) && DeletesBy(steps, n)
    ensures end.calls == s.calls[n := Done(Killed(t, id))] && end.queue == s.queue && end.db == s.db
    ensures CountsAfter(s, end, t, true)
  {
    var load, subtract := Delete(n, DeleteReadCounter), Delete(n, DeleteSubtractOne);
    if Count(s.quota, t) > 0 {
      var s1 := At(s, n, ReleaseDecrement(t, id));
      end := Do(s1, subtract);
      QuotaLimit.TwoSteps(s, load, s1, subtract, end);
      steps := [load, subtract];
    } else {
      end := Do(s, load);
      QuotaLimit.OneStep(s, load, end);
      steps := [load];
    }
  }

  // ---------- exec ----------

  /**
   In every reachable state an exec request of the sandbox's own tenant is sent to the host that the record
   names if and only if the sandbox is Running; an unknown sandbox, one of another tenant and one that is
   not Running are told apart. Nothing but the call changes.
   */
  lemma ExecAlone(s: Sys, n: nat, t: string, id: string) returns (steps: seq<Step>, end: Sys)
    requires Reachable(s) && n !in s.calls
    ensures Runs(s, steps, end) && (forall i :: 0 <= i < |steps| ==> steps[i].Exec? && steps[i].n == n)
    ensures n in end.calls && end == s.(calls := s.calls[n := end.calls[n]])
    ensures id !in s.db <==> end.calls[n] == Done(NoSuchSandbox)
    ensures id in s.db && s.db[id].tenant != t <==> end.calls[n] == Done(Forbidden)
    ensures id in s.db && s.db[id].tenant == t && s.db[id].state != Running <==> end.calls[n] == Done(Conflict)
    ensures id in s.db && s.db[id].tenant == t && s.db[id].state == Running ==>
              end.calls[n] == ExecSend(t, id, s.db[id].hostID) && s.db[id].hostID in s.hosts
  {
    var s2;
    steps, s2 := CheckRun(s, n, t, id);
    end := s2;
    if id in s.db && s.db[id].tenant == t && s.db[id].state == Running {
      RunStaysReachable(s, steps, s2);
      var last := [Exec(n, ExecReadRecord), Exec(n, ExecLookUpHost)];
      end := ExecRun(s2, n);
      RunsBoth(s, steps, s2, last, end);
      steps := steps + last;
      PlacementSafety.RunningIsSettled(s, id);
    }
  }

  /** The handler's own look at the record. */
  lemma CheckRun(s: Sys, n: nat, t: string, id: string) returns (steps: seq<Step>, end: Sys)
    requires n !in s.calls
    ensures Runs(s, steps, end) && (forall i :: 0 <= i < |steps| ==> steps[i].Exec? && steps[i].n == n)
    ensures end == At(s, n, if id !in s.db then Done(NoSuchSandbox)
                            else if s.db[id].tenant != t then Done(Forbidden)
                            else if s.db[id].state != Running then Done(Conflict) else ExecGet(t, id))
  {
    var s1 := At(s, n, ExecCheck(t, id));
    end := At(s, n, if id !in s.db then Done(NoSuchSandbox)
                    else if s.db[id].tenant != t then Done(Forbidden)
                    else if s.db[id].state != Running then Done(Conflict) else ExecGet(t, id));
    assert end == Do(s1, Exec(n, ExecLookUp));
    QuotaLimit.TwoSteps(s, Exec(n, BeginExec(t, id)), s1, Exec(n, ExecLookUp), end);
    steps := [Exec(n, BeginExec(t, id)), Exec(n, ExecLookUp)];
  }

  /** Of a Running sandbox, Exec reads the host and finds it. */
  lemma ExecRun(s: Sys, n: nat) returns (end: Sys)
    requires Reachable(s) && n in s.calls && s.calls[n].ExecGet?
    requires s.calls[n].id in s.db && s.db[s.calls[n].id].state == Running
    ensures Runs(s, [Exec(n, ExecReadRecord), Exec(n, ExecLookUpHost)], end)
    ensures
      var c := s.calls[n];
      end == At(s, n, ExecSend(c.tenant, c.id, s.db[c.id].hostID))
  {
    var c := s.calls[n];
    var host := s.db[c.id].hostID;
    PlacementSafety.RunningIsSettled(s, c.id);
    var s1 := At(s, n, ExecFind(c.tenant, c.id, host));
    end := At(s, n, ExecSend(c.tenant, c.id, host));
    assert Do(s1, Exec(n, ExecLookUpHost)) == end;
    QuotaLimit.TwoSteps(s, Exec(n, ExecReadRecord), s1, Exec(n, ExecLookUpHost), end);
  }

  /**
   Exec's own read of the record decides, whatever has happened since the handler's: the command goes to
   the host that the record then names if and only if the sandbox is still Running.
   */
  lemma ExecDecidesOnRead(s: Sys, n: nat)
    requires Reachable(s) && n in s.calls && s.calls[n].ExecGet?
    ensures
      var c, s1 := s.calls[n], DoExec(s, n, ExecReadRecord);
      && c.id in s.db
      && (s1.calls[n] == Done(NotRunning) <==> s.db[c.id].state != Running)
      && (s1.calls[n] == ExecFind(c.tenant, c.id, s.db[c.id].hostID) <==> s.db[c.id].state == Running)
  {
    QuotaReleases.AlwaysFiled(s);
    assert QuotaSafety.KillFact(s.db, s.hist.slots, s.calls[n]);
    if s.db[s.calls[n].id].state == Running {
      PlacementSafety.RunningIsSettled(s, s.calls[n].id);
    }
  }

  /** Once Exec has read the host, the command is sent there, however much later. */
  lemma ExecIsSent(s: Sys, n: nat)
    requires Reachable(s) && n in s.calls && s.calls[n].ExecFind?
    ensures
      var c := s.calls[n];
      DoExec(s, n, ExecLookUpHost).calls[n] == ExecSend(c.tenant, c.id, c.host)
  {
    PlacementSafety.AlwaysFacts(s);
    assert PlacementSafety.CallFact(s, s.calls[n]);
  }

  // ---------- Placements ----------

  /** A host's refusal fails the sandbox and is kept as the reason. */
  lemma RefusalIsKept(s: Sys, n: nat, reason: string)
    requires Reachable(s) && n in s.calls && s.calls[n].PlaceWait?
    ensures
      var id, s1 := s.calls[n].item.id, DoPlacement(s, n, HostRefuses(reason));
      && PlacementEnabled(s1, n, MarkFailed)
      && var s2 := DoPlacement(s1, n, MarkFailed);
         && id in s2.db && s2.db[id].state == Failed && s2.db[id].failReason == reason
         && s2.db[id].updatedAt == s.clock
         && s2.calls[n] == Done(PlacementOver)
  {
    Ownership.AlwaysOwned(s);
    PlacementSafety.PlacerHoldsProvisioning(s, n);
  }

  /** A host's answer makes the sandbox Running, with the answer's socket data on the record. */
  lemma AnswerIsKept(s: Sys, n: nat, reply: Reply)
    requires Reachable(s) && n in s.calls && s.calls[n].PlaceWait?
    ensures
      var id, s1 := s.calls[n].item.id, DoPlacement(s, n, HostAnswers(reply));
      && PlacementEnabled(s1, n, SaveReply)
      && var s2 := DoPlacement(s1, n, SaveReply);
         && PlacementEnabled(s2, n, MarkRunning)
         && var s3 := DoPlacement(s2, n, MarkRunning);
            && id in s3.db && s3.db[id].state == Running
            && s3.db[id].vsockCID == reply.cid && s3.db[id].vmAgentSocket == reply.socket
            && s2.db[id].updatedAt == s3.db[id].updatedAt == s.clock
            && s3.calls[n] == Done(PlacementOver)
  {
    Ownership.AlwaysOwned(s);
    PlacementSafety.PlacerHoldsProvisioning(s, n);
  }

  // ---------- Tenants ----------

  /**
   Whatever runs in between: a tenant's delete changes no record of another tenant, and no kill request or
   command of a tenant is sent for a sandbox of another.
   */
  lemma OnlyOwnSandboxes(s: Sys, n: nat, step: DeleteStep, x: string)
    requires Reachable(s) && DeleteEnabled(s, n, step) && x in s.db
    ensures x in DoDelete(s, n, step).db
    ensures DoDelete(s, n, step).db[x] != s.db[x] ==> n in s.calls && s.calls[n].TerminateMove?
                                                      && s.calls[n].tenant == s.db[x].tenant
  {
    QuotaReleases.AlwaysFiled(s);
    assert n in s.calls ==> QuotaSafety.KillFact(s.db, s.hist.slots, s.calls[n]);
  }

  lemma SentForOwnSandboxes(s: Sys, n: nat)
    requires Reachable(s) && n in s.calls && (s.calls[n].TerminateTell? || s.calls[n].ExecSend?)
    ensures s.calls[n].id in s.db && s.db[s.calls[n].id].tenant == s.calls[n].tenant
  {
    QuotaReleases.AlwaysFiled(s);
    assert QuotaSafety.KillFact(s.db, s.hist.slots, s.calls[n]);
  }
}

# Verified model of the Sandock control plane

Sandock runs untrusted code in short-lived virtual machines ("sandboxes"). This project models the
part of it that decides what happens to a sandbox, and proves what that part is meant to guarantee:

- the **control plane** (`cmd/api`, `cmd/orchestrator`, `internal/state`, `internal/quota`): create, delete
  and exec requests, the deadline queue, the dispatch loop, the placement goroutines, the registry of
  sandbox records and the per-tenant quota;
- the **host agent** (`cmd/host-agent/server.go`): acquiring and releasing a sandbox's mount, cgroup and process;
- four smaller parts: workspace archives (`internal/persistence`), heartbeat scoring and fencing
  (`internal/fencing`, `cmd/orchestrator/main.go`), warm pool sizing (`internal/pool`) and guest addressing
  (`internal/network`).

## How it is built

Concurrent parts are modelled twice, and the two are tied together.

- Objects that the source updates in place are classes with the source's fields. Their methods are proved
  against functions on values (`CreateIn`, `MoveIn`, `SetHostIn`, `AcquireIn`, `PlaceFrom`, ...).
- Transition systems interleave any number of calls. One step is one critical section or one atomic access;
  everything between two of them can be interleaved: the stale read in `Terminate`, the gap between
  creating a record and queueing it, the item in the dispatch loop's hand, the gap between an atomic load and
  the add that follows it. A state is reachable when some sequence of enabled steps leads to it from the start;
  the safety results hold in every reachable state.
- A call of a class method, run alone, is a run of the transition system with the same effect and result:
  `DispatchRefinement.PassIsRun` and `DispatchRefinement.EnqueueIsRun` for the scheduler, `Quota.AcquireIsRun` and `Quota.ReleaseIsRun` for the counter
  store, `HostAgent.PlaceIsRun`, `HostAgent.TerminateIsRun` and `HostAgent.WatchIsRun` for the host agent. The
  registry's calls are single steps, by the same functions.

| module | content |
|---|---|
| `Results`, `Tally` | optional values and outcomes; counting map entries |
| `SandboxState` | the transition table, registry operations on values, histories of a record, `class Store` |
| `PendingHeap` | the deadline heap with index back-pointers over heap objects, and its reference queue |
| `Scheduling` | host scores and choice, `class Scheduler` and its dispatch pass |
| `ControlPlane` | the closed protocol: state, steps, runs |
| `DispatchRefinement` | calls of `class Scheduler` are runs of the protocol |
| `Ownership` | who holds each request; discarded results are successes |
| `PlacementSafety` | at most one placement; what a Running record carries |
| `RecordHistories` | whole runs of the protocol follow the transition table |
| `QuotaSafety`, `QuotaReleases` | which sandboxes still hold their slot; which deletes release one again |
| `QuotaAccount`, `QuotaLimit` | the account of every counter; when a tenant can exceed its limit |
| `Deadlines` | what a request's timeout means in every run |
| `Requests` | what each request does on its own; tenants and their sandboxes |
| `Progress` | Running is reachable; every Queued sandbox can still leave Queued |
| `Quota` | the lock-free counter store on its own, down to the pointer of each counter |
| `HostAgent` | placement, termination and reaping on one host, interleaved; `class Agent` |
| `Fleet` | the control plane and all its host agents as one system, joined by messages |
| `LostVm` | a run in which a refused delete kills the VM of a sandbox that then counts as Running |
| `Archive` | saving and restoring a directory tree |
| `Heartbeat` | miss counters, host health, fence calls |
| `WarmPool` | the smoothed demand estimate and the pool target, over reals |
| `Addressing` | from a sandbox ID to its /30 block |

In the transition systems, history variables (`hist`) record what the code does not keep: who is responsible
for a record, whose quota slot is still held, what each release did, what each request asked for, which calls
were made. No guard and no other field reads them.

## Where the code and its documentation differ

The code was followed; each difference is a proved statement.

- `bestHost` is documented to fail when no healthy host is available. It fails exactly when the registry is
  empty; with only unhealthy hosts it returns one of them (`Scheduling.ErrorMatchesDocumentExactly`).
- The cpu fit in `scoreHost` is documented as full below 50% and falling to 0 at 100%; the code falls from 0%
  on. The two agree exactly at 0% and from 100% on (`Scheduling.ScoreMatchesDocumentExactly`).
- `Terminate` cannot leave Queued or Provisioning: deleting such a sandbox fails
  (`RecordHistories.TerminateFailsUnlessRunning`).
- Nothing ever moves a Draining sandbox to Terminated (`PlacementSafety.NothingTerminates`).
- A repeated DELETE of a Failed sandbox releases a quota slot again, so a tenant can exceed its limit
  (`QuotaLimit.RepeatedDeleteExceedsLimit`). A release is repeated exactly when an earlier delete of the same sandbox
  has completed (`QuotaReleases.ReleaseRepeatsExactly`). Create steps, of requests in flight or new, can take a tenant
  over its limit exactly when its live sandboxes and admitted creates exceed the limit, or exceed the counter less
  the pending roll-backs (`QuotaLimit.CreatesExceedExactly`). That needs a repeated release
  (`QuotaLimit.UnsafeNeedsRepeatedRelease`); without one the limit holds (`QuotaAccount.LiveWithinLimit`). The counter
  alone does not tell: at limit one with one live sandbox and a counter of one, a create admitted before makes a
  second sandbox live (`QuotaLimit.AdmittedCreateExceeds`). For new requests only, with those in flight left where
  they are, the counter does tell (`QuotaLimit.NewCreatesExceedExactly`).
- `Release` is documented as safe at zero. It is, through any number of further releases, exactly while no release of
  the tenant stands between its load and its decrement (`Quota.ReleasesGoNegativeExactly`); two unmatched releases that
  interleave make the counter negative (`Quota.StrayReleasesCanGoNegative`). A decrement keeps the account exact
  exactly when it is matched (`Quota.DecrementKeepsAccountExactlyIfMatched`).
- `Terminate` sends its request to the host agent before its transition is checked. A delete that is refused can
  therefore have killed the VM of a Provisioning sandbox, which then becomes Running with nothing behind it
  (`LostVm.RefusedDeleteCanKill`). A Running record's VM is listed on the host that the record names exactly when no
  termination request has found it and watchVM has not taken it out (`Fleet.RunningVmIsListedExactly`).
- `cgroup.Setup` can fail after making its directory; the placement then undoes only the mount. An overlay teardown
  can fail after the unmount and leave the tenant's upper layer unwiped (`HostAgent.FailedPlacementHoldsNothing`,
  `HostAgent.PlacementEffect`). Nothing removes a sandbox's directory (`HostAgent.DirectoriesAreNeverRemoved`). A
  placement that fails after starting its process kills it but never waits for it
  (`HostAgent.FailedStartIsNeverReaped`).
- Registering a host again makes it healthy without resetting its miss counter (`Heartbeat.HistoryDecides`).
- `SetCurrentSize` keeps 32 bits, so `Delta` after filling the pool is zero exactly for targets below 2^31
  (`WarmPool.PoolManager.FillToTarget`). Under constant demand the target is reached in finitely many updates
  except when demand is a whole number above the minimum and is approached from below (`WarmPool.SettlesExactly`);
  over exact reals the target then stays one short.
- `allocateIPs` is documented to hash the first four bytes and to have 65000 slots in 10.100.x.x. It reads
  the last eight bytes of a long ID, and only 16384 blocks exist: addresses are shared exactly when slots agree modulo
  16384 (`Addressing.SharedExactly`), and slots that are 16383 modulo 16384 use the block documented as reserved,
  their gateway being the bridge's own address (`Addressing.ReservedBlockIsUsedExactly`). IDs of the generated
  form show both (`Addressing.SlotsCollide`, `Addressing.BridgeAddressIsGivenOut`).
- `Restore` guards against path traversal by a prefix test on strings. The test passes exactly when the cleaned
  destination is neither `/` nor `.` and the entry does not lead to the destination itself
  (`Archive.AcceptsExactly`). So the round trip holds for every other destination, and into the current directory or
  the root of the file system only the empty tree is restored (`Archive.RoundTrip`,
  `Archive.CurrentDirectoryIsRefused`).
- Sanitising archive keys maps `/` to `-`, so two keys share an archive exactly when they differ at most there
  (`Archive.SharedArchiveExactly`).

## Model

| member | source | states |
|---|---|---|
| `SandboxState.LegalClimbs` | internal/state/state.go:38-61 | every legal transition strictly raises a rank bounded by 4, leaves a non-terminal state, and enters Draining only from Running and Running only from Provisioning |
| `SandboxState.LegalExactly` | internal/state/state.go:36-61 | a transition is legal exactly when a live sandbox fails or a state moves to its one successor; an unknown source and an illegal move are told apart |
| `SandboxState.MoveExactly` | internal/state/state.go:113-135 | a compare-and-move succeeds exactly from the expected state along a legal edge, and then changes state, time and (for Failed only) reason of that one record |
| `SandboxState.CreateExactly` | internal/state/state.go:98-111 | a creation succeeds exactly for an ID not taken, and then files the given record, Queued and stamped with the time, and changes no other |
| `SandboxState.SettingExactly` | internal/state/state.go:165-190 | recording a host or socket data succeeds exactly for an existing record and changes just that and the time, every other field being kept |
| `SandboxState.OnlyOneMoverWins` | internal/state/state.go:113-135 | after one move succeeds, a competing move from the same expected state fails with the state it found |
| `SandboxState.PathClimbs` | internal/state/state.go:38-61 | along any path of legal transitions the ranks strictly increase, so no edge repeats and a path is no longer than the rank it gains |
| `SandboxState.MovesFollowTable` | internal/state/state.go:116-135 | under any sequence of competing registry calls a record is never lost and its successful moves form a path of the table |
| `SandboxState.MovesBeforeCreation` | internal/state/state.go:100-135 | no move succeeds before the record exists, and its history then starts at Queued |
| `SandboxState.HistoryIsSafe` | internal/state/state.go:38-135 | from an empty registry and for any calls: at most four moves of a sandbox succeed, each edge at most once, all legal, and Draining only from Running |
| `SandboxState.TerminalAbsorbs` | internal/state/state.go:63-67 | a terminal record keeps its state through every later call, all of whose moves of it fail |
| `SandboxState.RecordRemembers` | internal/state/state.go:98-190 | under any calls a record keeps its tenant and time of creation, and names the host and the socket that were recorded last |
| `SandboxState.Store.Create` | internal/state/state.go:98-111 | the registry gains exactly the caller's record, Queued and stamped, or nothing changes and the ID was taken |
| `SandboxState.Store.Transition` | internal/state/state.go:113-135 | compare-and-move: state and time change only when the record exists, is in the expected state and the move is legal; the reason is kept only for Failed; each failure names its cause |
| `SandboxState.Store.Get` | internal/state/state.go:137-148 | returns a fresh object equal to the stored record, so changing it cannot change the registry |
| `SandboxState.Store.SetHostID` | internal/state/state.go:165-176 | changes only the host and the time of an existing record |
| `SandboxState.Store.SetVsockCID` | internal/state/state.go:178-190 | changes only the socket data and the time of an existing record |
| `PendingHeap.PendingQueue.Swap` | cmd/orchestrator/scheduler.go:84-88 | exchanges two items and keeps every item's index equal to its position |
| `PendingHeap.PendingQueue.Push` | cmd/orchestrator/scheduler.go:89-94 | appends the item and records its position |
| `PendingHeap.PendingQueue.Pop` | cmd/orchestrator/scheduler.go:95-103 | removes the last item and sets its index to -1 |
| `PendingHeap.HeadIsLeast` | cmd/orchestrator/scheduler.go:73-83 | in a heap-ordered sequence the head has the earliest deadline of all, and the highest priority among the items with that deadline |
| `PendingHeap.PendingQueue.HeapPush` | cmd/orchestrator/scheduler.go:164-166 | the queue gains exactly the new item; heap order, distinctness and index = position are kept |
| `PendingHeap.PendingQueue.HeapPop` | cmd/orchestrator/scheduler.go:216-222 | the queue loses exactly the returned item, which has the earliest deadline of all and the highest priority among those, and whose index is -1; heap order and indices are kept |
| `PendingHeap.PendingQueue.Up` | cmd/orchestrator/scheduler.go:75-94 | sifting up restores heap order by swaps, keeping contents and indices |
| `PendingHeap.PendingQueue.Down` | cmd/orchestrator/scheduler.go:75-103 | sifting down restores heap order of the prefix, keeping its contents and everything after it |
| `PendingHeap.ServesConserves` | cmd/orchestrator/scheduler.go:73-103 | the reference queue on multisets conserves: what came out and what remains is what was there and what was taken in |
| `PendingHeap.Replay` | cmd/orchestrator/scheduler.go:73-103 | any sequence of pops and of pushes of items not queued at the time, requeued ones included, refines the reference queue: each pop yields an item of earliest deadline and, among those, highest priority, and every item that was ever queued and is not queued now has index -1 |
| `Scheduling.HealthyOutscoresUnhealthy` | cmd/orchestrator/scheduler.go:42-62 | every score is above the initial best of -2, and positive exactly for healthy hosts |
| `Scheduling.ScoreMatchesDocumentExactly` | cmd/orchestrator/scheduler.go:42-62 | for a healthy host the code's score is the documented one exactly at 0% and from 100% cpu on |
| `Scheduling.ScoreGap` | cmd/orchestrator/scheduler.go:42-62 | two healthy hosts up to 100% cpu lie 0.004 apart for every percentage point, and 0.35 if only one has a warm pool |
| `Scheduling.ChoiceExactly` | cmd/orchestrator/scheduler.go:176-194 | a host is a best one if and only if it is healthy or none is, and no healthy host has less against it: its cpu usage up to 100%, plus 87.5 without a warm pool |
| `Scheduling.BestExists` | cmd/orchestrator/scheduler.go:176-194 | every non-empty registry has a host of maximum score |
| `Scheduling.BestIsHealthyIfAnyIs` | cmd/orchestrator/scheduler.go:176-194 | a host of maximum score is healthy exactly when some registered host is |
| `Scheduling.ErrorMatchesDocumentExactly` | cmd/orchestrator/scheduler.go:175-194 | the error is reported exactly for an empty registry; it matches its documentation exactly when the registry is empty or holds a healthy host, and otherwise an unhealthy host is returned |
| `Scheduling.Scheduler.RegisterHost` | cmd/orchestrator/scheduler.go:132-141 | the host is in the registry under its ID, healthy and just seen; all others are unchanged |
| `Scheduling.Scheduler.UpdateHostHealth` | cmd/orchestrator/scheduler.go:143-151 | changes the health of that host only, and nothing when it is not registered |
| `Scheduling.Scheduler.Enqueue` | cmd/orchestrator/scheduler.go:153-166 | the queue gains exactly one new request whose deadline is the clock reading plus the timeout, with priority 1 |
| `Scheduling.Scheduler.BestHost` | cmd/orchestrator/scheduler.go:176-194 | for every order of reading the registry: a registered host of maximum score, or none exactly when the registry is empty; on the reported figures, a healthy host if there is one, and then least cpu usage among hosts alike in warm pool, a warm pool outweighing up to 87.5 points of usage |
| `Scheduling.Scheduler.DispatchPending` | cmd/orchestrator/scheduler.go:215-260 | one pass takes an item of earliest deadline and, among those, highest priority, and either fails it (only after its deadline), requeues it (only with no host), or hands it in time to a best host with the record moved to Provisioning; contents are conserved |
| `Scheduling.Scheduler.Assign` | cmd/orchestrator/scheduler.go:241-245 | the host is recorded and the record moved to Provisioning exactly when it was Queued |
| `Scheduling.Scheduler.Serve` | cmd/orchestrator/scheduler.go:215-260 | while a host is registered, a pass over a non-empty queue takes out exactly one item, of earliest deadline and, among those, highest priority |
| `Scheduling.Scheduler.DispatchAll` | cmd/orchestrator/scheduler.go:215-260 | with a host registered and no arrivals, n passes empty a queue of n, serving exactly the queued items by rising deadline and, where deadlines are equal, falling priority |
| `DispatchRefinement.PassIsRun` | cmd/api/scheduler.go:176-212 | every effect that a scheduler pass can have on queue, registry and launched placement is the effect of a run of protocol dispatch steps, so it stays within the reachable states |
| `DispatchRefinement.EnqueueIsRun` | cmd/api/scheduler.go:122-137 | Enqueue run alone, by its contract, is a run of the last two steps of a create request |
| `Ownership.StepKeepsOwned` | cmd/api/scheduler.go:122-212 | every step of every actor keeps the ownership invariant and makes no discarded result an error |
| `Ownership.AlwaysOwned` | cmd/api/scheduler.go:122-212 | the invariant holds in every reachable state |
| `Ownership.EveryRequestHasOneHolder` | cmd/api/handlers.go:282-293 | a record is Queued exactly when its request is held once, by one submitter, the heap or the dispatch loop; Provisioning exactly when one placement is in flight; so no admitted request is lost or duplicated |
| `Ownership.DiscardedErrorsAreNil` | cmd/api/scheduler.go:185-211 | every registry result that dispatch loop and placement goroutines discard is a success, SetVsockCID included |
| `PlacementSafety.PlacedAtMostOnce` | cmd/api/scheduler.go:198-211 | PlaceSandbox is called at most once per sandbox ID and never while its record is Queued |
| `PlacementSafety.ProvisioningOnlyInTime` | cmd/api/scheduler.go:185-201 | Provisioning is entered only by the dispatch loop, from Queued, after a clock reading at or before the deadline that the request carries, with a registered host that the record names |
| `PlacementSafety.RunningIsSettled` | cmd/api/scheduler.go:198-243 | a Running record names a non-empty registered host and carries the socket data its one placement returned |
| `PlacementSafety.ExecAlwaysFindsHost` | cmd/api/handlers.go:321-338 | the branches "no assigned host" and "host not found" of Exec are never taken |
| `PlacementSafety.NothingTerminates` | cmd/api/handlers.go:295-319 | no record is ever Terminated |
| `Deadlines.StepKeepsTimely` | cmd/api/scheduler.go:122-212 | every step keeps: each request on its way, in the heap or in the dispatch loop's hand carries the deadline that its own POST's timeout sets |
| `Deadlines.WaitingRequestsAreDue` | cmd/api/scheduler.go:122-127 | in every reachable state a waiting request's deadline is the clock at queueing, which is not before its record's creation, plus the timeout its POST carried; its priority is 1 |
| `Deadlines.GivenUpExactly` | cmd/api/scheduler.go:185-188 | the dispatch loop gives a popped request up if and only if the clock has passed the time of queueing plus the request's timeout |
| `Deadlines.ExpiresOnlyLate` | cmd/api/scheduler.go:185-188 | from a POST with a given timeout on, in any run: its sandbox fails as late only at a clock past its record's creation plus that timeout, from Queued, with the reason "deadline exceeded" |
| `Deadlines.ProvisionedInTime` | cmd/api/scheduler.go:185-201 | a record enters Provisioning only after a clock reading at or before its time of queueing plus its timeout |
| `Requests.CreateAlone` | cmd/api/handlers.go:81-100 | a create run alone is admitted exactly below the limit, 20 unless another is configured; then a Queued record of its tenant, a request with its deadline and one slot more are there, and otherwise nothing has changed |
| `Requests.DeleteAlone` | cmd/api/handlers.go:117-142 | a delete run alone tells apart an unknown sandbox, another tenant's, one neither Running nor over, and success; only a Running record changes, to Draining, and the tenant's count falls by one, not below zero, exactly on success |
| `Requests.ExecAlone` | cmd/api/handlers.go:147-189 | from every reachable state an exec run alone is sent to the host that the record names, which is registered, if and only if the sandbox is its tenant's and Running; the three refusals are told apart, and nothing else changes |
| `Requests.ExecDecidesOnRead` | cmd/api/handlers.go:321-332 | whatever has happened since the handler's check, Exec refuses if and only if the record it reads is not Running, and otherwise goes to the host that the record names |
| `Requests.ExecIsSent` | cmd/api/handlers.go:334-339 | once Exec has read the host, the command is sent there, in every reachable state |
| `Requests.RefusalIsKept` | cmd/api/scheduler.go:204-209 | a host's refusal leaves the record Failed with that refusal as its reason |
| `Requests.AnswerIsKept` | cmd/api/scheduler.go:204-245 | a host's answer leaves the record Running with the answer's socket data |
| `Requests.OnlyOwnSandboxes` | cmd/api/handlers.go:122-142 | in every reachable state a delete changes no record of another tenant |
| `Requests.SentForOwnSandboxes` | cmd/api/handlers.go:122-189 | no kill and no command of a tenant is sent for a sandbox of another |
| `RecordHistories.StepEvolves` | internal/state/state.go:116-135 | each protocol step leaves a record's state alone or moves it by one legal edge, and never changes its tenant |
| `RecordHistories.RunFollowsTable` | cmd/api/handlers.go:295-319 | in any run, stale reads included, no record is lost and its states follow the transition table |
| `RecordHistories.RunIsSafe` | cmd/api/handlers.go:295-319 | at most four changes per run, each at most once; terminal records keep their state; Draining is entered only from Running |
| `RecordHistories.TerminateFailsUnlessRunning` | cmd/api/handlers.go:300-318 | Terminate's transition succeeds exactly when the record is Running and was read as Running; otherwise the request fails and nothing changes |
| `QuotaSafety.StepKeepsSlots` | cmd/api/handlers.go:81-142 | every step keeps: each live sandbox still holds the slot its creation acquired, and a Draining sandbox is about to be released by at most one delete |
| `QuotaAccount.StepKeepsAccount` | cmd/api/handlers.go:81-142 | every step keeps the account of the counter: open requests, roll-backs, held slots, less repeated releases, plus releases lost at zero |
| `QuotaAccount.AlwaysAccount` | cmd/api/handlers.go:81-142 | the account holds in every reachable state |
| `QuotaAccount.LiveWithinLimit` | cmd/api/handlers.go:81-142 | a tenant's Queued, Provisioning and Running sandboxes are within the slots held, and those within the limit plus the repeated releases; with none, the limit holds and the counter is exact |
| `QuotaAccount.DeleteKeepsAccountExactly` | cmd/api/handlers.go:135-141 | a delete's decrement keeps an exact account exact if and only if no earlier delete of the same sandbox has completed |
| `QuotaReleases.StepKeepsFiled` | cmd/api/handlers.go:117-142 | every step keeps: a sandbox has given its slot back exactly when some delete of it has completed, and each release's verdict is right |
| `QuotaReleases.SlotHeldUntilDeleted` | cmd/api/handlers.go:135-141 | a sandbox holds its slot exactly until a delete of it has completed |
| `QuotaReleases.ReleaseRepeatsExactly` | cmd/api/handlers.go:300-302 | a delete's decrement repeats a release if and only if an earlier delete of the same sandbox has completed, and the sandbox has then Failed |
| `QuotaReleases.RepeatedMeansDeletedTwice` | cmd/api/handlers.go:300-302 | behind every repeated release are two completed deletes of one Failed sandbox of that tenant |
| `QuotaLimit.ShortCounterExactly` | cmd/api/handlers.go:81-142 | a counter is below the live sandboxes exactly when repeated releases outnumber all that is held besides them; without any it never is |
| `QuotaLimit.CreatesExceedExactly` | cmd/api/handlers.go:81-95 | from any state, create steps alone, of requests in flight or new and however interleaved, can leave a tenant over its limit if and only if its live sandboxes and admitted creates exceed the limit, or exceed the counter less the pending roll-backs |
| `QuotaLimit.UnsafeNeedsRepeatedRelease` | cmd/api/handlers.go:135-141 | in a reachable state from which creates can exceed the limit, some release of that tenant has been repeated |
| `QuotaLimit.AdmittedCreateExceeds` | cmd/api/handlers.go:81-95 | a reachable state with limit, counter and live sandboxes all one, in which an admitted create makes a second sandbox live |
| `QuotaLimit.NewCreatesExceedExactly` | cmd/api/handlers.go:81-95 | with the calls in flight left where they are, new creates can leave a tenant over its limit if and only if it is over it already or its counter is below its live sandboxes; at the limit, if and only if the counter is below the limit |
| `QuotaLimit.OverLimitNeedsRepeatedDelete` | cmd/api/handlers.go:135-141 | a tenant is over its limit only if one of its Failed sandboxes has been deleted twice |
| `QuotaLimit.RepeatedDeleteExceedsLimit` | cmd/api/handlers.go:300-302 | a concrete run with limit one that ends with two live sandboxes of one tenant |
| `Progress.RunningIsReachable` | cmd/api/scheduler.go:176-245 | some run brings a sandbox to Running |
| `Progress.CanAlwaysLeaveQueued` | cmd/api/scheduler.go:122-212 | from every reachable state in which a sandbox is Queued, whoever holds its request, some run takes it out of Queued |
| `Quota.QuotaIsExact` | internal/quota/quota.go:38-56 | under any interleaving with matched releases: counter = holders + pending roll-backs, never negative, holders within the limit |
| `Quota.AdmissionIsExact` | internal/quota/quota.go:38-48 | an Acquire is admitted exactly when holders plus pending roll-backs are below its limit at its add, and rejected otherwise |
| `Quota.MatchedReleaseDecrements` | internal/quota/quota.go:50-56 | a matched Release never finds the counter at zero |
| `Quota.DecrementKeepsAccountExactlyIfMatched` | internal/quota/quota.go:50-56 | from an exact account a decrement keeps it exact if and only if its call holds a slot |
| `Quota.ReleasesGoNegativeExactly` | internal/quota/quota.go:50-56 | from any reachable state, release steps alone, pending or new, can bring a tenant's counter below zero if and only if it is not zero or some release of the tenant stands between its load and its decrement |
| `Quota.SameTenantSameCounter` | internal/quota/quota.go:64-80 | two calls that have a counter have the same one exactly when they are of the same tenant |
| `Quota.CounterNeverReplaced` | internal/quota/quota.go:64-80 | a counter once in the map stays there through every run |
| `Quota.TenantsAreIndependent` | internal/quota/quota.go:38-80 | erasing all other tenants from a run leaves a run with the same outcome for the remaining tenant |
| `Quota.StrayReleasesCanGoNegative` | internal/quota/quota.go:50-56 | two interleaved unmatched releases bring the counter to -1 while a slot is held |
| `Quota.MemoryStore.GetOrCreate` | internal/quota/quota.go:64-80 | returns the tenant's counter, inserting a zero one if there was none; no count changes |
| `Quota.AcquireIn` | internal/quota/quota.go:38-48 | run alone, Acquire succeeds exactly below the limit and then counts one more; other tenants are unchanged |
| `Quota.MemoryStore.Acquire` | internal/quota/quota.go:38-48 | on the store's counters: the effect and result of an Acquire run alone |
| `Quota.AcquireIsRun` | internal/quota/quota.go:38-48 | an Acquire run alone is a run of the interleaved system with the same effect on every count and the same result |
| `Quota.ReleaseIn` | internal/quota/quota.go:50-56 | run alone, Release counts one less, but not below zero; other tenants are unchanged |
| `Quota.MemoryStore.Release` | internal/quota/quota.go:50-56 | on the store's counters: the effect of a Release run alone |
| `Quota.ReleaseIsRun` | internal/quota/quota.go:50-56 | a Release run alone is a run of the interleaved system with the same effect on every count |
| `Quota.ReleaseUndoesAcquire` | internal/quota/quota.go:38-56 | a successful Acquire and its Release leave every count as it was |
| `Quota.MemoryStore.Current` | internal/quota/quota.go:58-62 | the tenant's count; nothing changes |
| `HostAgent.ConsistentStep` | cmd/host-agent/server.go:75-336 | every step of every placement, termination and watch keeps the resource invariant of every sandbox |
| `HostAgent.ResourcesAreAccountedFor` | cmd/host-agent/server.go:95-313 | in every reachable state mounts, upper layers, cgroups and unreaped processes are exactly those of placements in progress and of VMs not yet retired, plus those whose own release failed |
| `HostAgent.FailedPlacementHoldsNothing` | cmd/host-agent/server.go:95-261 | a failed placement is not listed and runs nothing; it keeps its mount exactly when the unmount failed, its upper layer exactly when that was not wiped, its cgroup exactly when setup failed halfway or teardown failed, and an unreaped process exactly when it had started one |
| `HostAgent.ListedExactly` | cmd/host-agent/server.go:276-336 | a sandbox is in the table exactly when its placement has succeeded, no termination has found it there and watchVM has not come to its table access |
| `HostAgent.TableEntryHasResources` | cmd/host-agent/server.go:276-287 | a listed sandbox has its mount and its cgroup |
| `HostAgent.RetiredExactlyOnce` | cmd/host-agent/server.go:322-459 | however TerminateSandbox and watchVM race, a successful placement is reaped once and its mount and cgroup torn down once each, never before its process has exited |
| `HostAgent.DirectoriesAreNeverRemoved` | internal/overlay/overlay.go:42-84 | a sandbox directory once made is there in every later state |
| `HostAgent.FailedStartIsNeverReaped` | cmd/host-agent/server.go:154-261 | a placement that failed after starting its process leaves it unreaped in every later state |
| `HostAgent.CanAlwaysBeRetired` | cmd/host-agent/server.go:435-459 | from any reachable state a successful placement can still be retired leaving nothing behind |
| `HostAgent.Agent.PlaceSandbox` | cmd/host-agent/server.go:75-319 | for every way its operations and teardowns can end: the effect and result of the chain of stages with its compensation |
| `HostAgent.PlacementEffect` | cmd/host-agent/server.go:75-319 | run alone, a placement succeeds exactly when no stage fails; otherwise what it leaves behind, resource by resource, as a function of the first stage to fail and of how the teardowns end |
| `HostAgent.PlacementIsLocal` | cmd/host-agent/server.go:75-319 | a placement touches no other sandbox |
| `HostAgent.PlaceIsRun` | cmd/host-agent/server.go:75-319 | PlaceSandbox run alone, with whatever faults, is a run of the interleaved system with the same effect and result |
| `HostAgent.TerminateIsRun` | cmd/host-agent/server.go:321-336 | TerminateSandbox run alone is a run of the interleaved system with the same effect and result |
| `HostAgent.WatchIsRun` | cmd/host-agent/server.go:434-459 | watchVM from the exit of the process on is a run of the interleaved system with the same effect |
| `HostAgent.SomePlacementSucceeds` | cmd/host-agent/server.go:75-319 | some reachable state has a listed sandbox |
| `HostAgent.Agent.StartVM` | cmd/host-agent/server.go:145-313 | from the process start on: success lists the sandbox, failure kills the process and tears down in the source's order |
| `HostAgent.PlaceThenKill` | cmd/host-agent/server.go:75-459 | for every way the operations can end: after placing, terminating and watching in turn, the sandbox runs nothing, is not listed, and holds exactly what the teardowns left; no other sandbox is touched |
| `Fleet.StepKeepsTied` | cmd/api/handlers.go:295-319 | every step of the joined system keeps: a placement request is sent once, to the host that the record names; an answer and a Running or Draining record have a successful placement on that host behind them; terminations come from deletes |
| `Fleet.PartsAreReachable` | cmd/api/scheduler.go:225-245 | in every state of the joined system the control plane and each agent are in states reachable on their own, so what is proved of either holds of it here |
| `Fleet.PlacementsArriveOnce` | cmd/host-agent/server.go:75-95 | a placement request that arrives finds an agent that has not heard of its sandbox; it is the only such request, and no other host has or had one |
| `Fleet.RunningVmIsListedExactly` | cmd/api/handlers.go:295-319 | a Running record names a host whose agent has placed the sandbox; its VM is listed there exactly when no termination has found it and watchVM has not unlisted it; a termination that found it was sent by some delete; a listed VM has its mount and its cgroup |
| `Fleet.UntouchedVmIsListed` | cmd/host-agent/server.go:276-336 | with no termination sent for it, a Running record's VM is listed until its process has been reaped |
| `Fleet.CommandsReachTheirHost` | cmd/api/handlers.go:321-352 | a command is sent only to a host whose agent has placed its sandbox, and no other agent has |
| `LostVm.RefusedDeleteCanKill` | cmd/api/handlers.go:303-318 | from every reachable state with a placement about to be sent there is a run to a Running record whose VM was unlisted by a delete that ended in an error |
| `LostVm.PlacementComesAbout` | cmd/api/scheduler.go:176-245 | such states exist for every tenant, sandbox ID and host |
| `Archive.TargetOfJoin` | internal/persistence/persistence.go:127-130 | the entry name written for a path leads back to that path |
| `Archive.TargetIsPath` | internal/persistence/persistence.go:126-130 | whatever an entry is called, its target relative to the destination is a plain path |
| `Archive.AcceptsExactly` | internal/persistence/persistence.go:126-130 | the string test against path traversal passes if and only if the cleaned destination is neither "/" nor "." and the entry does not lead to the destination itself |
| `Archive.CurrentDirectoryIsRefused` | internal/persistence/persistence.go:126-130 | into ".", "", "./" or "a/.." no entry is restored; into "out" or ".." it is |
| `Archive.RestoreNode` | internal/persistence/persistence.go:132-154 | restoring one node's entries under an existing directory adds exactly that node and its descendants |
| `Archive.RestoreOver` | internal/persistence/persistence.go:132-154 | into any directory: a tree is restored if and only if no directory of it meets anything but a directory and no file anything but a file; then what was there and is not in the tree stays, files that were there get the new content and keep their mode, and directories and links give way |
| `Archive.MkdirAllExactly` | internal/persistence/persistence.go:132-141 | an entry whose parents are missing gets exactly the missing ones, below the nearest object that exists, and fails if and only if that is no directory |
| `Archive.LinkNeedsItsParent` | internal/persistence/persistence.go:150-154 | a link entry makes no parents: it fails exactly when nothing is in its place and its parent is no directory, and gives way to what is there |
| `Archive.FileMakesItsParents` | internal/persistence/persistence.go:136-145 | the missing parents of a file get mode 0755, the file the mode and content of its entry |
| `Archive.RoundTrip` | internal/persistence/persistence.go:59-157 | for every destination and every tree of directories, files and links: restoring its archive into an empty directory rebuilds exactly that tree if the destination is usable, and otherwise restores only the empty tree |
| `Archive.RestoreIsIdempotent` | internal/persistence/persistence.go:102-157 | after a restore into an empty directory that succeeded, restoring the same archive again succeeds and changes nothing |
| `Archive.SafeKey` | internal/persistence/persistence.go:50-55 | the sanitised key has no slash and differs from the key only there |
| `Archive.ArchiveStaysInBase` | internal/persistence/persistence.go:50-55 | whatever its key, an archive is one file directly in the base directory, ending in .tar.zst |
| `Archive.SharedArchiveExactly` | internal/persistence/persistence.go:50-55 | two keys share an archive exactly when they differ at most in slashes written as dashes |
| `Archive.TarWriter.WriteNode` | internal/persistence/persistence.go:175-220 | the walk appends a node's entry before those of its children, in name order, under paths relative to the base |
| `Archive.LocalStore.Save` | internal/persistence/persistence.go:57-98 | the key's archive becomes the tree's, or on any failure stays what it was; afterwards exactly the keys that had an archive or share this one have one |
| `Archive.LocalStore.Restore` | internal/persistence/persistence.go:100-157 | extraction entry by entry; an error leaves exactly the entries before the failing one extracted, and without an archive nothing changes |
| `Archive.LocalStore.Delete` | internal/persistence/persistence.go:168-171 | fails exactly when the key has no archive; afterwards no key that differs from it at most in slashes and dashes has one, and every other key keeps its own |
| `Archive.SaveThenRestore` | internal/persistence/persistence.go:57-157 | through the store, a saved tree restored into an empty directory is the same tree |
| `Heartbeat.RunsGrow` | internal/fencing/fencing.go:114-123 | how one more answer, miss or registration changes the maximal runs of misses |
| `Heartbeat.HistoryDecides` | cmd/orchestrator/main.go:165-202 | after any history: the miss counter is the trailing run of misses, a registered host is healthy exactly when that run is below the threshold or it was registered since its last miss, and fence calls are the sum over runs of max(0, length - threshold + 1) |
| `Heartbeat.LoadIsLastReported` | cmd/orchestrator/main.go:188-202 | after any history a registered host's active VMs, idle pool, cpu usage and time last seen are those of its last answer, or of its last registration if it has not answered since |
| `Heartbeat.OnlyOwnEventsMatter` | internal/fencing/fencing.go:114-128 | what is kept about one host depends only on its own events, however they interleave with others |
| `Heartbeat.ChosenHostIsAliveIfAnyIs` | cmd/orchestrator/scheduler.go:176-194 | after any heartbeat history the chosen host is alive exactly when any registered host is |
| `Heartbeat.HealthScorer.RecordSuccess` | internal/fencing/fencing.go:114-117 | ends the host's run of misses; every counter stays the run of misses its host is in |
| `Heartbeat.HealthScorer.RecordMiss` | internal/fencing/fencing.go:119-123 | asks for a fence exactly when the host's current run of consecutive misses has reached the threshold; every counter stays the run of misses its host is in |
| `Heartbeat.Probe` | cmd/orchestrator/main.go:165-202 | one probe changes scorer, registry and fence calls as one event of the host's history; after an answer the host's entry shows the reported figures, each in its own place |
| `Heartbeat.Round` | cmd/orchestrator/main.go:157-203 | in one tick every registered host has exactly one event, in whatever order the registry is read |
| `Heartbeat.RunHeartbeatMonitor` | cmd/orchestrator/main.go:145-206 | over any number of ticks each host's history is its answers in tick order |
| `Heartbeat.RegisterAll` | cmd/orchestrator/main.go:49-60 | exactly the configured IDs are registered |
| `Heartbeat.Orchestrate` | cmd/orchestrator/main.go:49-206 | from start: counter, health and fence calls of every configured host are those of the misses among its answers, and its entry shows its last answer, or no load if there was none |
| `WarmPool.ClosedForm` | internal/pool/pool.go:45-52 | the estimate is the initial value and every sample, each weighted by its age |
| `WarmPool.ShareIsWeighted` | internal/pool/pool.go:45-52 | a sample's weight is 0.3 times 0.7 to the power of its age |
| `WarmPool.EstimateStaysWithin` | internal/pool/pool.go:45-52 | the estimate lies between the least and the greatest of initial value and samples |
| `WarmPool.GapShrinks` | internal/pool/pool.go:45-52 | two managers fed alike differ by exactly 0.7^n times their initial difference |
| `WarmPool.WeightFalls` | internal/pool/pool.go:22-26 | 0.7^n is at most 7 / (7 + 3n) |
| `WarmPool.ConvergesInBoundedUpdates` | internal/pool/pool.go:45-52 | constant demand is reached within any tolerance after a number of updates computed beforehand |
| `WarmPool.TargetIsFloorOfDemand` | internal/pool/pool.go:54-65 | the target is the largest whole number of machines within 1.3 times the estimated concurrency, but at least ten |
| `WarmPool.TargetIsMonotone` | internal/pool/pool.go:54-65 | a larger estimate never gives a smaller target, and no target is below ten |
| `WarmPool.TargetSettlesWithin` | internal/pool/pool.go:45-65 | after n samples of constant demand the target is within 1 + 1.3 p95 0.7^n times the initial distance of its final value |
| `WarmPool.SettlesExactly` | internal/pool/pool.go:45-65 | the target reaches its final value and stays there exactly when the estimate did not start below, or demand is at most ten, or is not a whole number |
| `WarmPool.PoolManager.UpdateRPS` | internal/pool/pool.go:45-52 | moves the estimate by 0.3 of its distance to the sample, so towards it and not past it |
| `WarmPool.PoolManager.TargetSize` | internal/pool/pool.go:54-65 | the target for the current estimate: 1.3 times the concurrency rounded down, but at least ten |
| `WarmPool.StoredFaithfullyExactly` | internal/pool/pool.go:72-75 | the recorded size is the given one exactly when it fits 32 bits, and always equals it modulo 2^32 |
| `WarmPool.PoolManager.Delta` | internal/pool/pool.go:77-80 | target minus recorded size |
| `WarmPool.PoolManager.FillToTarget` | internal/pool/pool.go:54-80 | after setting the size to the target, Delta is zero exactly when the target is below 2^31 |
| `WarmPool.PoolManager.Feed` | internal/pool/pool.go:45-52 | samples fed one by one give the estimate of the whole history |
| `Addressing.LastEightDigitsCount` | internal/network/network_linux.go:142-151 | modulo 2^32 only the last eight hexadecimal digits count |
| `Addressing.DigitValueExactly` | internal/network/network_linux.go:142-150 | a byte has the value k exactly when it is the k-th hexadecimal digit, in either case |
| `Addressing.SlotOfLastEight` | internal/network/network_linux.go:138-153 | an ID longer than twelve bytes that ends in eight hexadecimal digits has the number they write, modulo 65000, as its slot |
| `Addressing.OnlyLastEightBytesCount` | internal/network/network_linux.go:138-141 | two IDs longer than twelve bytes that agree in the last eight have the same slot |
| `Addressing.ShortIdsAreReadWhole` | internal/network/network_linux.go:138-141 | the first byte of an ID counts exactly when the ID has at most twelve bytes |
| `Addressing.ReadDigits` | internal/network/network_linux.go:142-151 | the digit loop computes the positional value of the hexadecimal digits modulo 2^32, for every byte string |
| `Addressing.AllocateIPs` | internal/network/network_linux.go:136-161 | for every ID: the two addresses of the ID's slot |
| `Addressing.BlockOfSlot` | internal/network/network_linux.go:152-159 | every slot gets block (slot + 1) modulo 16384 of 10.100.0.0/16, guest and gateway at offsets 2 and 1 |
| `Addressing.PairIsTheUsableHosts` | internal/network/network_linux.go:154-159 | guest and gateway are exactly the two usable hosts of one /30 inside 10.100.0.0/16 |
| `Addressing.SharedExactly` | internal/network/network_linux.go:136-161 | two IDs have the same addresses exactly when their slots agree modulo 16384, and otherwise lie in different blocks |
| `Addressing.ReservedBlockIsUsedExactly` | internal/network/network_linux.go:154-159 | an ID gets the first block, and the bridge's own address as gateway, exactly when its slot is 16383 modulo 16384 |
| `Addressing.SlotsCollide` | internal/network/network_linux.go:136-161 | the IDs "sb-000000000000" and "sb-000000004000" have different slots and the same addresses |
| `Addressing.BridgeAddressIsGivenOut` | internal/network/network_linux.go:136-161 | the ID "sb-000000003fff" gets the bridge's own address as its gateway |

## Left out

- HTTP routing, JSON, authentication, tracing, logging, metrics, configuration and `SandboxSpec` validation: no shared
  state; requests are steps that already carry a tenant and a sandbox ID.
- Listing sandboxes and reading one over HTTP: reads only.
- Sandbox ID generation: the protocol does not assume IDs are new; a repeated ID makes `Create` fail and leaks the
  tenant's slot (`CreateLeaked`), as in the code. `HostAgent` takes each ID once per host, which
  `PlacementSafety.PlacedAtMostOnce` provides.
- Host IDs: registered host IDs are taken to be non-empty (`ControlPlane.EnvEnabled`).
- Time: clock readings are parameters of the class methods and a non-decreasing integer in the protocol; tickers and
  wake-up channels are left out, so a dispatch step may come at any time. `Progress` states what can happen; what must happen
  under a fair schedule is not stated.
- The dispatch loop is one goroutine, as started by the source's main functions; several loops over one queue are not modelled.
- `cmd/api/scheduler.go` and `cmd/orchestrator/scheduler.go` are near copies; one `Scheduler` stands for both. The
  orchestrator's own placer (`cmd/orchestrator/main.go`) differs from the API's in logging only.
- Remote calls (host agent, Firecracker, in-VM agent): each ends in an arbitrary success or failure in `ControlPlane`. In
  `Fleet`, placement and termination requests are messages that may be delayed or lost and arrive at most once, a
  success is answered only after the agent has listed the sandbox, and a refusal may come at any time. What an agent does
  with a command, and restarts of a host agent, which would forget its table, are left out; a host ID stands for one agent.
- Quota.MemoryStore.Current: reads the counter and changes no count; it is not a step of the interleaved system.
- `container/heap` is Go's library; its sift-up and sift-down are modelled as that library documents and implements them.
  `heap.Init` is only ever called on an empty queue and is left out.
- `Quota` and `QuotaAccount`: counters are unbounded integers; 64-bit wrap-around would need 2^63 open requests.
- HostAgent.Agent.PlaceSandbox: of the files that a placement makes, only the sandbox directory and the upper layer are
  modelled; the root file system copy, log and socket in that directory are left out, and like it are never removed.
- Host agent processes: a kill takes effect at once, and a cancelled context kills; a process that cannot be killed is not
  modelled. The egress filter, snapshots and the pool reconciler are left out.
- Heartbeat.Fencer.Fence: the fencing backends are left out; only the calls are kept, and their errors are ignored by the
  code. `Unfence` is never called by it.
- Heartbeat.RunHeartbeatMonitor: hosts are registered before the monitor starts, as the source's main does; registrations
  at any later time are events of `Heartbeat.HistoryDecides`. Real-valued loads stand for `float32`.
- Archives: tar and zstd byte formats, file times and owners, umask, set-id bits, device files, sockets and pipes are left
  out; a regular file's content is a value.
- Archive.RestoreIsIdempotent: permission bits are kept but not enforced, as for a privileged process. An unprivileged one
  could not fill a read-only directory (`Archive.RoundTrip`), nor open a read-only file for writing a second time.
- Archive.LocalStore.Restore: the destination is followed as a tree; an entry whose path runs through a link already
  there ends in an error here, where the operating system would follow the link. Errors of the decompressor are left out.
- `WarmPool` works over reals: floating-point rounding, infinities and conversion of a product beyond 64 bits are left out.
- Addressing.AllocateIPs: shifts and masks are written as divisions and remainders; the commands that use the addresses are
  left out.
- The WireGuard mesh, eBPF program, veth setup, snapshot manager, SDKs, vm-agent and deployment scripts: external commands
  and thin clients.
- SandboxState.Store.Create: inserts the caller's own object, as the source does; callers that would go on to change that object
  behind the store's lock (none does) are left out.

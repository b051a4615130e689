# WAX runtime: a verified model

This project models the parts of the WAX runtime that have to be right under concurrency, crashes and
late outcomes, and proves what they guarantee. Check everything with `dafny verify dfyconfig.toml`.

**Durable work** (`src/wax/runtime/work`). Any number of workers claim rows of `work_items` under leases, renew
them by heartbeat, run a handler and write a fenced outcome. Items wait for a time or for a named signal emitted
strictly after their watermark. Every end is announced on the signal ledger in the transaction that writes it,
and a retention pass deletes ledger rows while others wait on them.

- `WorkModel` gives the rows and the meaning of each operation; `WorkRepository` holds the two repositories as
  classes whose loops are proved against it; `WorkSessions` and `WorkRunner` do the same for the runner's sessions.
- `WorkProtocol` interleaves those sessions as a transition system: each database session is one atomic step that
  reads the clock once, workers join and crash, the reply to a committed session may be lost, and emitters,
  schedulers, cancellations and retention passes run at any point. `WorkRow` follows one row and one claim
  through a step, `WorkSafety` proves the invariant, `WorkRuns` states what holds over whole runs, and
  `Retention` what a retention pass may do.
- `ClaimRules` states what may be claimed, and must be, on the columns of the rows; `ScheduleRuns` that every run
  honours what an item was scheduled with.
- `Heartbeat` is the arithmetic of lease and renewal, `HeartbeatRuns` what it means inside a run; `SignalNames` is
  the validation of names.

**Calling models** (`CircuitBreaker`, `Retry`, `Resilience`): retry inside a breaker inside ordered failover.
**Delivering** (`Chunker`, `DeliveryQueue`, `RateLimiter`): splitting, retrying and rate-limiting messages.
**Accepting** (`InboundAcceptance`): one inbound message delivered many times at once, as interleaved transactions.
**Remembering** (`MemoryRepository`, `Consolidation`): clustering episodes and superseding them.

Times are real numbers of seconds. What the outside world decides is a parameter: the clock, fresh ids, jitter,
what a handler, a sender or a model does, which rows another transaction has locked (`FOR UPDATE SKIP LOCKED`
becomes the set `locked`), and which of several rows with equal sort keys comes first.

## Where the code and its comments differ

The model follows the code.

- A failed attempt that is not the last one is written as `pending` and then rolled back, because the commit stands
  in the `dead` branch only (`src/wax/runtime/work/runner.py:298-316`): the item stays in flight until its lease
  expires. `WorkRunner.WorkRunner.FailSession` does exactly that; the theorems over runs hold whether or not the
  write is committed (`retryCommitted`).
- "Two failed renewals still leave a live lease" (`src/wax/runtime/work/runner.py:209`) holds only if the heartbeat
  starts at the instant of the claim. `Heartbeat.LeaseSurvives` gives the exact condition, `Heartbeat.LateStartLapses`
  the run in which it fails.
- `emit` does not validate names (`src/wax/runtime/work/signals.py:79-108`), so nothing in it keeps the reserved names
  to the runtime. A wait for an item's end therefore fires for one of two causes (`WorkRuns.WakeHasACause`): the item
  has ended that way, or somebody else emitted that very name, which does fire it (`WorkRuns.ForgedNameWakes`).
- The pattern of `validate_signal_name` ends in `$`, which also matches before a trailing newline.
- `prune` protects the signals of *pending* waiters only (`src/wax/runtime/work/signals.py:147-156`). A waiter leased
  during a pass could find its signal gone if it became pending again; as coded it never does, because the retry write
  is rolled back (`WorkRuns.NeverPendingAgain`), but it would once that write is committed. With a per-pass cap of 0 and
  something to delete `prune` raises an IndexError (`None` in the model).
- Worker ids are the first eight characters of a ULID (`src/wax/runtime/work/runner.py:88`); that live workers have
  different ids is an assumption of `WorkProtocol.Next`.
- A chunk is cut at the last break of any kind, paragraph breaks have no precedence
  (`src/wax/interfaces/whatsapp/client.py:116`); and below a limit of 2 the loop may not end:
  `Chunker.TerminatesIff` says for which texts.
- A breaker configured with no half-open calls never recovers: `CircuitBreaker.NeverWedged` is an equivalence, and
  `CircuitBreaker.WedgeIsReached` a run that gets there.
- `supersede` checks nothing about the successor, so it can close a cycle (`MemoryRepository.SupersedeCanCycle`) or
  name a record that does not exist. `MemoryRepository.SupersedeKeepsEndingIff` says exactly when it does neither: the
  successor exists and its own chain, which the caller can walk, does not end at the record superseded. Consolidation
  always names a fresh record.

## Model

| member | source | states |
|---|---|---|
| WorkRepository.WorkRepository.Schedule | src/wax/runtime/work/repository.py:104-144 | A wake condition is refused exactly when an event wait has no name or a timer has one; otherwise one pending row is added whose columns are spelled out: floor at the wake instant, watermark at the scheduling instant, deadline, attempt limit of at least one. |
| WorkRepository.WorkRepository.ExpireWaits | src/wax/runtime/work/repository.py:198-213 | The sweep kills exactly the pending waits past their deadline and lists each once. |
| WorkRepository.WorkRepository.ClaimRows | src/wax/runtime/work/repository.py:250-273 | The loop over the selected rows: each row is leased with one more attempt, or killed if it is a lapsed one without attempts left; the three results list exactly that. |
| WorkRepository.WorkRepository.ClaimDue | src/wax/runtime/work/repository.py:167-273 | The whole claim meets its declarative specification: disjoint lists; exactly the overdue waits expire; the taken rows are the `limit` oldest claimable ones after the sweep; every other row unchanged. `ClaimRules` says what claimable means on the columns. |
| WorkRepository.WorkRepository.RenewLease | src/wax/runtime/work/repository.py:275-297 | The lease is extended, and true returned, exactly for an in-flight row of this worker. |
| WorkRepository.WorkRepository.MarkRunning | src/wax/runtime/work/repository.py:299-315 | Only a leased row of the expected owner starts; the other cases are told apart as stale and fenced and write nothing. |
| WorkRepository.WorkRepository.MarkSucceeded | src/wax/runtime/work/repository.py:317-342 | Only an in-flight row of the expected owner succeeds, and its lease is cleared. |
| WorkRepository.WorkRepository.MarkFailed | src/wax/runtime/work/repository.py:344-380 | Only an in-flight row of the expected owner fails: dead if its attempts are used up, otherwise pending after the backoff. |
| WorkRepository.WorkRepository.Cancel | src/wax/runtime/work/repository.py:382-395 | Whatever has not ended is cancelled; what has ended keeps its status. |
| WorkRepository.SignalRepository.Emit | src/wax/runtime/work/signals.py:79-108 | Exactly one row is appended, duplicates included: its id is new and the ledger has one row more. |
| WorkRepository.SignalRepository.PruneAged | src/wax/runtime/work/signals.py:183-212 | The retention stage deletes the oldest deletable rows older than the cutoff, up to the cap, and fails exactly with a cap of 0 and something to delete. |
| WorkRepository.SignalRepository.PruneSurplus | src/wax/runtime/work/signals.py:214-235 | The bounded-storage stage deletes the oldest deletable rows, as many as exceed the bound, up to the cap. |
| WorkRepository.SignalRepository.HasSignalSince | src/wax/runtime/work/signals.py:110-124 | The newest signal of that name strictly after the instant, or none exactly if there is none. |
| WorkRepository.SignalRepository.Prune | src/wax/runtime/work/signals.py:158-242 | The two stages each delete the oldest deletable rows up to their bounds, and the counts are those of the rows deleted. `Retention.LostForAReason`, `OldGoes` and `BoundHolds` say what that means on the columns. |
| WorkModel.ClaimEffect | src/wax/runtime/work/repository.py:198-273 | What a claim pass does to any one row, from the declarative specification. |
| ClaimRules.TakenForAReason | src/wax/runtime/work/repository.py:198-259 | Why a claim pass took a row, on its columns: exactly pending rows past their deadline expire; a claimed pending row was past its floor and before its deadline, and an event wait had a signal of its name strictly after its watermark; any other claimed row had a lease that ran out and attempts left; a killed one had none left. |
| ClaimRules.ReasonIsTaken | src/wax/runtime/work/repository.py:217-250 | The converse: an unlocked row with such a reason is taken, unless the limit is used up, and then by rows at least as old. |
| ClaimRules.WrittenColumns | src/wax/runtime/work/repository.py:250-272 | What the pass writes into each row, column by column. |
| ClaimRules.ReclaimedCount | src/wax/runtime/work/repository.py:262-269 | `reclaimed` is the number of claimed rows that were in flight. |
| ClaimRules.NewTimerIsDueAt | src/wax/runtime/work/repository.py:114-132 | A new timer is claimable exactly from its wake instant on. |
| ClaimRules.NewWaitIsWokenBy | src/wax/runtime/work/repository.py:123-128 | A new event wait is woken exactly by signals of its name emitted after the scheduling instant, from its floor on. |
| ClaimRules.NewRowLimits | src/wax/runtime/work/repository.py:129-131 | A new row expires exactly from its deadline on and has as many attempts as asked for, at least one. |
| WorkRunner.WorkRunner.Announce | src/wax/runtime/work/runner.py:168-185 | Announcing a list of names appends exactly one new runner row for each, and no other. |
| WorkRunner.WorkRunner.AnnounceDeaths | src/wax/runtime/work/runner.py:168-185 | The two loops announce exactly the deaths of the pass, expiries first. |
| WorkRunner.WorkRunner.ClaimSession | src/wax/runtime/work/runner.py:159-187 | One claim session claims, and announces every death of its pass in the same transaction. |
| WorkRunner.WorkRunner.StartSession | src/wax/runtime/work/runner.py:252-259 | An item goes to its handler only if the fenced start was written; otherwise it is dropped. |
| WorkRunner.WorkRunner.BeatSession | src/wax/runtime/work/runner.py:221-229 | A heartbeat moves the believed lease end only if the renewal was accepted. |
| WorkRunner.WorkRunner.SucceedSession | src/wax/runtime/work/runner.py:264-278 | Success and its announcement are written together, or neither is. |
| WorkRunner.WorkRunner.FailSession | src/wax/runtime/work/runner.py:285-322 | Death and its announcement are written together; any other failure leaves the table as it was. |
| WorkRunner.WorkRunner.ProcessItem | src/wax/runtime/work/runner.py:242-283 | One item through start, handler and outcome session, for each way the handler can end. |
| WorkRunner.WorkRunner.ProcessBatch | src/wax/runtime/work/runner.py:192-194 | Each item leased to the runner comes out as its handler's ending says; other rows and items that moved on are untouched, new ledger rows tell of ends among the batch, and nothing is held afterwards. |
| WorkRunner.WorkRunner.RunOnce | src/wax/runtime/work/runner.py:154-204 | One poll is one claim session, after which every claimed item comes out as its handler's ending says and no other row is touched; the runner never claims while it holds anything. |
| WorkSessions.LeasedItemComesOut | src/wax/runtime/work/runner.py:242-322 | How an item leased to the worker comes out: succeeded and announced, dead and announced, or, after a failure that is not the last, still in flight. |
| WorkSessions.MovedItemIsLeftAlone | src/wax/runtime/work/runner.py:257-259 | An item whose lease has moved on is not changed by the worker that lost it. |
| WorkSessions.BatchComesOut | src/wax/runtime/work/runner.py:192-194 | In a batch, each leased item comes out as it would have alone. |
| WorkSessions.BatchUntouched | src/wax/runtime/work/runner.py:192-194 | Processing a batch leaves all other rows and all items that moved on alone, removes nothing from the ledger, and announces only ends among the batch that the table shows. |
| WorkSessions.PublishInserts | src/wax/runtime/work/signals.py:93-101 | Announcing inserts as many new rows as names, and of each name as many as it occurs. |
| WorkSessions.ClaimNewsCount | src/wax/runtime/work/runner.py:168-185 | A claim pass announces each of its deaths once under the right name, and nothing else about any item. |
| WorkSessions.NamesApart | src/wax/runtime/work/runner.py:170-178 | No two announcements of different kinds or different items share a name. |
| WorkRow.ChangeKeepsItemOk | src/wax/runtime/work/repository.py:251-395 | Every change a session may make keeps the row invariant (in flight exactly with owner and expiry; pending only with attempts left), leaves ended rows alone and never lowers attempts. |
| WorkRow.ChangeSpendsBudget | src/wax/runtime/work/repository.py:251-395 | Every change but a heartbeat lowers the measure 4 × (attempts left) + rank of the status, which never goes below 0. |
| WorkRow.TokenSurvivesOthers | src/wax/runtime/work/repository.py:225-297 | What anybody else does to a row leaves true what a worker believes about its unexpired grant. |
| WorkRow.TokenSurvivesOwn | src/wax/runtime/work/repository.py:275-342 | The worker's own start, heartbeat and success keep that belief true, even when the reply is lost. |
| WorkRow.TokensExclude | src/wax/runtime/work/repository.py:275-297 | No step can leave two workers with unexpired grants on a row, and neither token changes its attempt. |
| WorkRow.GrantBlocksLease | src/wax/runtime/work/repository.py:237-238 | A row can be leased to someone only after every other grant on it has expired. |
| WorkProtocol.RowChanges | src/wax/runtime/work/repository.py:194-395 | Every step of the system does to each row one of the permitted changes, namely the one its kind says. |
| WorkProtocol.NewRow | src/wax/runtime/work/repository.py:114-134 | Rows appear only by scheduling, pending and with no attempts. |
| WorkProtocol.NewsChanges | src/wax/runtime/work/runner.py:159-316 | In every step, an item's success, death and expiry are announced exactly in the step that writes them. |
| WorkProtocol.LedgerChanges | src/wax/runtime/work/signals.py:79-108 | A row new in the ledger is the one emitted, or one announced by a runner at that instant. |
| WorkProtocol.TokenStays | src/wax/runtime/work/runner.py:186-301 | What a worker remembers about an item changes only by its own sessions. |
| WorkProtocol.TokenAppears | src/wax/runtime/work/runner.py:159-187 | A worker starts to hold an item only by claiming it with empty hands. |
| WorkProtocol.ClaimIsStep | src/wax/runtime/work/runner.py:154-187 | The claim session `WorkRunner.ClaimSession` performs is a `Claim` step of the system, wherever its worker stands in it. |
| WorkProtocol.StartIsStep | src/wax/runtime/work/runner.py:252-259 | What `WorkRunner.StartSession` does is a `Start` step. |
| WorkProtocol.BeatIsStep | src/wax/runtime/work/runner.py:214-235 | What `WorkRunner.BeatSession` does is a `Beat` step. |
| WorkProtocol.SucceedIsStep | src/wax/runtime/work/runner.py:264-278 | What `WorkRunner.SucceedSession` does is a `Succeed` step. |
| WorkProtocol.FailIsStep | src/wax/runtime/work/runner.py:285-322 | What `WorkRunner.FailSession` does is a `Fail` step without a committed retry. |
| WorkSafety.InvStep | src/wax/runtime/work/repository.py:167-395 | Every step of any participant keeps the invariant on rows, grants, announcements, handler starts, ledger and ledger ids. |
| WorkRuns.RunInv | src/wax/runtime/work/repository.py:167-395 | The invariant holds in every state of every run. |
| WorkRuns.GrantHonoured | src/wax/runtime/work/repository.py:225-297 | In every run, until a grant expires its worker is the recorded owner of the attempt granted, under a lease at least as long, unless it reported the outcome or the item was cancelled. |
| WorkRuns.MutualExclusion | src/wax/runtime/work/repository.py:188-192 | In every run, two workers never hold unexpired grants on one item, nor the same attempt of it. |
| WorkRuns.FencedWrites | src/wax/runtime/work/repository.py:299-380 | In every run, a worker's session about an item writes something only while the stored attempt is the one it was granted and it is the owner. |
| WorkRuns.ZombieWritesNothing | src/wax/runtime/work/repository.py:324-335 | In every run, the late write of a worker whose item has moved on to another attempt changes no row and announces nothing. |
| WorkRuns.NoSilentEnds | src/wax/runtime/work/runner.py:166-187 | In every run, an item is succeeded exactly if its success was announced once, dead exactly if its death or its expiry was announced once, and never both. |
| WorkRuns.AnnouncedIsInserted | src/wax/runtime/work/runner.py:166-187 | In every run, a runner's session inserts as many ledger rows under a name as it counts as announced. |
| WorkRuns.EndIsFinal | src/wax/runtime/work/repository.py:52-52 | In every run, no row is lost and an ended row never changes again. |
| WorkRuns.BoundedWork | src/wax/runtime/work/repository.py:179-181 | In every run, handler starts ≤ attempts ≤ max_attempts. |
| WorkRuns.FiniteLife | src/wax/runtime/work/repository.py:251-395 | In every run, an item changes status or is taken over at most 4 × max_attempts + 1 times. |
| WorkRuns.StaysFired | src/wax/runtime/work/signals.py:137-156 | A pending event wait that has fired stays fired through any steps, retention passes included, until it is claimed, expired or cancelled. |
| WorkRuns.AnnouncementWakes | src/wax/runtime/work/repository.py:217-237 | A wait begun strictly before its name is announced is claimable at every later instant past its floor at which it still waits. |
| WorkRuns.DependencyWakes | src/wax/runtime/work/runner.py:264-316 | The same for an item that waits for another item's success or death. |
| WorkRuns.WakeHasACause | src/wax/runtime/work/signals.py:37-41 | In every run, a wait for an item's end has fired only if the item has ended that way or somebody else emitted that very name for an instant after the watermark. |
| WorkRuns.OnlyRunnersAnnounce | src/wax/runtime/work/signals.py:37-41 | If the other emitters stay out of `work.`, every ledger row under `work.` is a runner's. |
| WorkRuns.NoFalseWake | src/wax/runtime/work/signals.py:37-41 | So if nobody else emitted the awaited name after the watermark, the item has really ended that way. |
| WorkRuns.ForgedNameWakes | src/wax/runtime/work/signals.py:79-108 | And such an emission fires the wait at every later instant at which it still waits. |
| WorkRuns.HonestIsEnough | src/wax/runtime/work/signals.py:51-70 | Emitters whose names are validated emit no such name. |
| WorkRuns.NeverPendingAgain | src/wax/runtime/work/runner.py:298-316 | In every run without a committed retry, which is what the code does, an item that was ever claimed is never pending again. |
| ScheduleRuns.TermsKept | src/wax/runtime/work/repository.py:114-132 | In every run nobody changes what an item was scheduled with, and its wake instant stands until the first claim. |
| ScheduleRuns.NeverEarly | src/wax/runtime/work/repository.py:225-241 | In every run no claim takes an item before the instant it was scheduled for. |
| ScheduleRuns.WaitHonoured | src/wax/runtime/work/repository.py:198-241 | In every run no claim takes a waiting item at or past its deadline, nor an event wait without a signal of the awaited name emitted after the item was scheduled. |
| ScheduleRuns.AttemptsHonoured | src/wax/runtime/work/repository.py:131-131 | In every run an item's handler starts at most as often as the item was scheduled for. |
| Retention.PruneAccounting | src/wax/runtime/work/signals.py:158-242 | Rows a pending waiter needs survive, and the reported counts and total are the true ones. |
| Retention.PruneTakesOldest | src/wax/runtime/work/signals.py:193-235 | A deleted row is no younger than any surviving row that was deletable; rows younger than the cutoff go only for the row bound. |
| Retention.PruneComplete | src/wax/runtime/work/signals.py:183-235 | If no cap was reached, no deletable row older than the cutoff is left, and the ledger is within its bound or has no deletable row. |
| Retention.PruneIdempotent | src/wax/runtime/work/signals.py:173-175 | Then a second pass at the same instant deletes nothing. |
| Retention.PruneKeepsFired | src/wax/runtime/work/signals.py:137-156 | A pending wait has fired after a pass exactly if it had before. |
| Retention.PruneInvisible | src/wax/runtime/work/signals.py:137-143 | After a retention pass, claim passes can produce exactly the batches and tables they could have produced without it. |
| Retention.LostForAReason | src/wax/runtime/work/signals.py:183-235 | On the columns: no row goes that a pending event wait of its name, begun before it, may still need; and one inside the retention time goes only if the ledger was over its bound. |
| Retention.OldGoes | src/wax/runtime/work/signals.py:183-212 | Unless the pass reached its cap, every row past the retention time that no such wait needs is gone. |
| Retention.BoundHolds | src/wax/runtime/work/signals.py:214-235 | Unless the pass reached its cap, the ledger is within its bound or every row of it is needed. |
| Retention.FailsExactly | src/wax/runtime/work/signals.py:192-211 | The pass fails exactly with a cap of 0 and a row it would have to delete for its age, and then deletes nothing. |
| Heartbeat.Beat | src/wax/runtime/work/runner.py:214-235 | The heartbeat loop: which lease end is recorded before each beat, and that it stops at the first refusal and only there. |
| Heartbeat.Slack | src/wax/runtime/work/runner.py:217-227 | For any lease, how far it reaches past a beat depends on the failed beats just before it alone. |
| Heartbeat.BeatsAreThirds | src/wax/runtime/work/runner.py:217-219 | Beats are a third of the lease apart, and a twentieth of a second for leases below 0.15 s. |
| Heartbeat.LeaseSurvives | src/wax/runtime/work/runner.py:209-211 | For leases of 0.15 s or more, the lease never lapses while the handler runs exactly if no three beats in a row fail and, before the first renewal, the late start leaves room for those that do. |
| Heartbeat.ShortLeaseSurvives | src/wax/runtime/work/runner.py:217-227 | For those short leases, exactly when a beat comes in time; a lease below 0.05 s never reaches its first beat. |
| Heartbeat.TwoFailuresSurvived | src/wax/runtime/work/runner.py:209-211 | A heartbeat that starts at the claim survives any two failures in a row. |
| Heartbeat.LateStartLapses | src/wax/runtime/work/runner.py:257-261 | One that starts any later does not survive two failures at the outset. |
| Heartbeat.NotClaimable | src/wax/runtime/work/repository.py:237-238 | For a row with the lease end of `Beat`, no claim pass up to the next beat can take it exactly if the lease reaches that beat. |
| HeartbeatRuns.GrantNeverLapses | src/wax/runtime/work/runner.py:206-240 | In every run, under a heartbeat on schedule whose lease never lapses, the worker's grant still runs at every instant of the handling, unless the item was cancelled. |
| HeartbeatRuns.NeverReclaimed | src/wax/runtime/work/runner.py:206-240 | So no claim of any worker takes the item over or kills it while the handler runs. |
| HeartbeatRuns.TimelyIsNeverReclaimed | src/wax/runtime/work/runner.py:209-211 | In particular for leases of 0.15 s or more whose every beat is timely. |
| SignalNames.ValidateSignalName | src/wax/runtime/work/signals.py:51-70 | A name is accepted exactly if it has the required form and, unless allowed, no reserved prefix; the two errors are told apart. |
| SignalNames.FormSpelledOut | src/wax/runtime/work/signals.py:43-44 | The form in code points and lengths, the trailing newline included. |
| SignalNames.OpenSpelledOut | src/wax/runtime/work/signals.py:41-41 | The reserved namespaces are the three. |
| CircuitBreaker.CircuitBreaker.constructor | src/wax/reliability/circuit_breaker.py:48-71 | A new breaker is closed with nothing counted. |
| CircuitBreaker.CircuitBreaker.MaybeTransitionToHalfOpen | src/wax/reliability/circuit_breaker.py:122-130 | The breaker becomes half-open, with no slots in use, exactly when open and past the recovery timeout. |
| CircuitBreaker.CircuitBreaker.Observe | src/wax/reliability/circuit_breaker.py:77-81 | Reading the state makes that transition first. |
| CircuitBreaker.CircuitBreaker.Allow | src/wax/reliability/circuit_breaker.py:109-120 | Admission, and the trial slot it takes. |
| CircuitBreaker.CircuitBreaker.Failed | src/wax/reliability/circuit_breaker.py:132-141 | The whole new state after a failure. |
| CircuitBreaker.CircuitBreaker.Succeeded | src/wax/reliability/circuit_breaker.py:143-153 | The whole new state after a success; a late one leaves an open breaker as it is (`StaysOpen`). |
| CircuitBreaker.CircuitBreaker.Reset | src/wax/reliability/circuit_breaker.py:155-162 | Back to the new breaker. |
| CircuitBreaker.EventKeepsInv | src/wax/reliability/circuit_breaker.py:88-162 | With any number of overlapping calls whose outcomes come late: closed exactly below the threshold; while half-open the slots in use are this episode's trials still in flight, never more than allowed. |
| CircuitBreaker.TraceInv | src/wax/reliability/circuit_breaker.py:88-162 | So in every state of every trace. |
| CircuitBreaker.AdmissionRule | src/wax/reliability/circuit_breaker.py:109-130 | In every trace: always admitted below the threshold; never from an open breaker earlier than the recovery timeout after the newest failure; half-open exactly while a slot is free. |
| CircuitBreaker.AdmissionIff | src/wax/reliability/circuit_breaker.py:109-130 | In every trace, exactly when a call is admitted in each of the three states, and the slot it takes. |
| CircuitBreaker.StaysOpen | src/wax/reliability/circuit_breaker.py:109-153 | In every trace an open breaker stays open and admits nothing for a whole recovery timeout after its newest failure, whatever late outcomes come in, unless it is reset. |
| CircuitBreaker.CountsFailuresInARow | src/wax/reliability/circuit_breaker.py:132-153 | In every trace a closed breaker counts the failures since the last success or reset, and the success counter the recoveries. |
| CircuitBreaker.OpensAtTheThreshold | src/wax/reliability/circuit_breaker.py:132-141 | In every trace a closed breaker opens with exactly the failure that makes as many in a row as the threshold. |
| CircuitBreaker.NeverWedged | src/wax/reliability/circuit_breaker.py:109-153 | In every trace, past the recovery timeout nothing is admitted and nothing is in flight exactly if the breaker is tripped, idle and configured without half-open calls. |
| CircuitBreaker.WedgeIsReached | src/wax/reliability/circuit_breaker.py:48-153 | For every configuration without half-open calls there is a trace into the wedged state. |
| CircuitBreaker.WedgeStays | src/wax/reliability/circuit_breaker.py:109-162 | Such a breaker stays wedged whatever is tried, until it is reset. |
| CircuitBreaker.TrialFrees | src/wax/reliability/circuit_breaker.py:132-153 | Any outcome of a call in flight moves the breaker out of half-open. |
| Retry.DelayBounds | src/wax/reliability/retry.py:59-74 | Whatever the jitter, a delay lies between the capped exponential and the fully jittered maximum, and the capped delays never decrease. |
| Retry.DelayExactly | src/wax/reliability/retry.py:59-74 | The exact delay: the base doubled once per earlier retry, cut off at the maximum, times one plus the jitter. |
| Retry.RetryWithBackoff | src/wax/reliability/retry.py:77-116 | The loop stops at the deciding call, at most max_attempts, returns its verdict, and sleeps the computed delay after each call before it. |
| Retry.DecidesOnce | src/wax/reliability/retry.py:101-111 | That call is unique. |
| Retry.FirstSuccess | src/wax/reliability/retry.py:101-111 | The first call that returns after retryable failures only decides, and its value is returned. |
| Retry.NotRetried | src/wax/reliability/retry.py:101-111 | A failure that is not retryable is raised as it is after one call. |
| Retry.AllFail | src/wax/reliability/retry.py:106-116 | Retryable failures only use all attempts and are reported as exhausted. |
| Resilience.ResilientProvider.Complete | src/wax/intelligence/resilience.py:114-167 | One logical call: nothing is called when the breaker refuses; otherwise the retry verdict is returned, and the breaker is told one outcome for all the attempts. |
| Resilience.ClassifiedRight | src/wax/intelligence/resilience.py:48-71 | Exactly timeouts, transport failures and the statuses 408, 409, 429, 500, 502, 503 and 504 are worth retrying. |
| Resilience.BlipSurvived | src/wax/intelligence/resilience.py:114-138 | An admitted call that is answered within max_attempts after failures worth retrying returns that answer, with no call beyond it. |
| Resilience.RejectionCostsOneCall | src/wax/intelligence/resilience.py:114-138 | A rejected request costs one provider call. |
| Resilience.OutageExhausts | src/wax/intelligence/resilience.py:114-138 | An outage costs max_attempts calls and is reported as exhausted. |
| Resilience.RefusalCostsNothing | src/wax/intelligence/resilience.py:131-138 | No provider call is made exactly if the breaker refuses, and exactly then the caller is told so. |
| Resilience.TrialDecides | src/wax/intelligence/resilience.py:114-138 | A trial call closes the breaker with an answer and opens it with a failure, as of that instant. |
| Resilience.OneOutcomePerCall | src/wax/intelligence/resilience.py:114-138 | On a closed breaker a call survived by some retry only clears the count, and a failed one adds one to it however many attempts it took. |
| Resilience.IntelligenceService.constructor | src/wax/intelligence/service.py:53-60 | The candidates are the primary and then the fallbacks. |
| Resilience.IntelligenceService.Complete | src/wax/intelligence/service.py:304-327 | Candidates are tried in order until one succeeds; each behaves as it would alone; it fails only if all have failed; the rest are not touched; together they make at most candidates × max_attempts provider calls. |
| Resilience.FailingCall | src/wax/reliability/circuit_breaker.py:109-141 | Each logical call to an always-failing provider past the threshold costs a whole recovery timeout. |
| Resilience.RetryStormBound | src/wax/intelligence/resilience.py:114-138 | However many logical calls ask one always-failing candidate within `span`, starting with any closed breaker, the provider is called at most max_attempts × (failures left to the threshold + ⌊span / recovery_timeout⌋) times. |
| Resilience.ClosedStarts | src/wax/reliability/circuit_breaker.py:109-153 | In every state of every trace, being closed is all that takes. |
| Chunker.RFind | src/wax/interfaces/whatsapp/client.py:116-116 | The last occurrence, or -1 if there is none. |
| Chunker.CutRule | src/wax/interfaces/whatsapp/client.py:115-118 | A chunk ends at the last break of the window whatever its kind, unless that lies in the first half; then at the limit. |
| Chunker.ProgressIff | src/wax/interfaces/whatsapp/client.py:115-120 | Exactly when one turn of the loop shortens the text; a turn that does not leaves it as it is. |
| Chunker.TerminatesIff | src/wax/interfaces/whatsapp/client.py:111-120 | Exactly for which texts and limits the loop ends: every text from a limit of 2 on; below, those without the offending characters. |
| Chunker.TurnShape | src/wax/interfaces/whatsapp/client.py:119-120 | A turn takes a chunk of at most `limit` characters that does not end in white space, and then only white space, off the front; the rest does not begin with a line break. |
| Chunker.SpaceIsListed | src/wax/interfaces/whatsapp/client.py:119-119 | The white space `rstrip` removes, character by character. |
| Chunker.NonEmptyKeeps | src/wax/interfaces/whatsapp/client.py:121-121 | Dropping the empty chunks loses no text. |
| Chunker.SplitLoop | src/wax/interfaces/whatsapp/client.py:109-120 | The loop computes the turns one after the other; the text is its chunks in order with only white space between, before and after. |
| Chunker.ChunkText | src/wax/interfaces/whatsapp/client.py:104-121 | The same after the filter: the chunks of an overlong text are non-empty and within the limit, and a short text is left alone. |
| Chunker.DecimalLength | src/wax/interfaces/whatsapp/client.py:100-100 | A number has at most k digits exactly below 10^k. |
| Chunker.DecimalReadsBack | src/wax/interfaces/whatsapp/client.py:100-100 | A written number reads back as itself. |
| Chunker.MarkedFits | src/wax/interfaces/whatsapp/client.py:92-100 | A marked part fits into 4096 characters while there are fewer than 10^13 parts; a full part exactly while its two numbers have at most 27 digits. |
| Chunker.MarkedReadsBack | src/wax/interfaces/whatsapp/client.py:100-100 | A marked part reads back as its number, the total and its text. |
| Chunker.MessagesFit | src/wax/interfaces/whatsapp/client.py:80-102 | So does every message of a reply. |
| Chunker.SendLongText | src/wax/interfaces/whatsapp/client.py:82-102 | What is sent for a text: itself up to 4096 characters; otherwise its parts, each message saying which part of how many it is, in order, within 4096 characters below 10^13 parts. |
| DeliveryQueue.DeliveryQueue.Enqueue | src/wax/runtime/delivery_queue.py:61-94 | A pending record with no attempts is added; nothing is sent. |
| DeliveryQueue.DeliveryQueue.Attempt | src/wax/runtime/delivery_queue.py:98-181 | The record after one attempt, column by column, for each way it can go, and true exactly for a delivered one. |
| DeliveryQueue.DeliveryQueue.RetryDue | src/wax/runtime/delivery_queue.py:185-202 | Exactly pending records whose wait is over are retried, all of them if there is room and the oldest otherwise, each once; what becomes of each is spelled out, and the deliveries are counted. |
| DeliveryQueue.DeliveryQueue.ExpireStale | src/wax/runtime/delivery_queue.py:204-223 | Pending records past the horizon are failed, all of them if there is room, and no other. |
| DeliveryQueue.DueAgainAt | src/wax/runtime/delivery_queue.py:156-193 | After a failed attempt that is not the last one, a record is due again exactly from base × factor^failures after the attempt's end on. |
| DeliveryQueue.SendsBounded | src/wax/runtime/delivery_queue.py:98-168 | Over any life of a record: at most max_attempts sender calls (one, if that is not positive), at most one returns normally, and the record is delivered exactly if one did. |
| DeliveryQueue.EndsAreFinal | src/wax/runtime/delivery_queue.py:104-105 | Over any life: delivered and failed are final, and nothing is sent after them. |
| DeliveryQueue.HorizonAgrees | src/wax/runtime/delivery_queue.py:109-129 | An attempt and the stale sweep decide the age horizon identically at every instant. |
| DeliveryQueue.RetryPacing | src/wax/runtime/delivery_queue.py:170-202 | If retries come through the sweep only, try j+1 starts no earlier than the first try plus base × (factor^j − 1) / (factor − 1), multiplied out by factor − 1 > 0. |
| DeliveryQueue.SweptRetryPacing | src/wax/runtime/delivery_queue.py:170-202 | The same when every attempt is one a sweep made of a record it found due. |
| DeliveryQueue.GeometricClosedForm | src/wax/runtime/delivery_queue.py:170-171 | The sum of the waits is that closed form, for any factor. |
| RateLimiter.RateLimiter.Check | src/wax/runtime/rate_limit.py:30-39 | Accepts exactly if the full history has fewer than the maximum in the last window, and records it exactly then. |
| RateLimiter.RateLimiter.Remaining | src/wax/runtime/rate_limit.py:41-46 | What the full history leaves; positive exactly if a check at this instant would accept. |
| RateLimiter.RateLimiter.RefusalMeansFull | src/wax/runtime/rate_limit.py:36-37 | A refusal means that exactly the maximum was accepted in the last window. |
| RateLimiter.RateLimiter.WindowBound | src/wax/runtime/rate_limit.py:30-39 | Any half-open interval one window long, wherever it starts, contains at most the maximum of acceptances. |
| RateLimiter.CheckKeeps | src/wax/runtime/rate_limit.py:35-38 | The pruned lists go on agreeing with the full histories. |
| RateLimiter.AcceptKeepsSpacing | src/wax/runtime/rate_limit.py:35-38 | Accepting below the maximum keeps every entry a whole window after the one `max` places before it. |
| MemoryRepository.MemoryRepository.Create | src/wax/memory/repository.py:46-72 | An active record that nothing supersedes is added. |
| MemoryRepository.MemoryRepository.Supersede | src/wax/memory/repository.py:106-138 | Only an active record is superseded, and by the record named. |
| MemoryRepository.MemoryRepository.Forget | src/wax/memory/repository.py:171-192 | Only an active record is forgotten. |
| MemoryRepository.ForgottenIsFinal | src/wax/memory/repository.py:106-192 | A forgotten record can be neither superseded nor forgotten again. |
| MemoryRepository.SupersededIsFinal | src/wax/memory/repository.py:106-192 | A superseded record keeps the successor it was given first. |
| MemoryRepository.SupersedeKeepsForwardIff | src/wax/memory/repository.py:119-130 | A supersession keeps all chains running to younger records exactly if it writes nothing or names a younger record. |
| MemoryRepository.SupersedeKeepsEndingIff | src/wax/memory/repository.py:106-138 | A supersession keeps every chain ending, without cycles or missing records, exactly if it writes nothing or names an existing record whose own chain does not end at the record superseded. |
| MemoryRepository.ChainIsUnique | src/wax/memory/repository.py:106-138 | A record has at most one chain. |
| MemoryRepository.CreateKeepsForward | src/wax/memory/repository.py:46-63 | Creating a record keeps them so. |
| MemoryRepository.CreateKeepsEnding | src/wax/memory/repository.py:46-63 | Creating a record keeps every chain ending. |
| MemoryRepository.ForgetKeepsForward | src/wax/memory/repository.py:171-188 | Forgetting one keeps them so. |
| MemoryRepository.ForgetKeepsEnding | src/wax/memory/repository.py:171-188 | Forgetting one does too. |
| MemoryRepository.SupersedeCanCycle | src/wax/memory/repository.py:106-138 | Two plain calls of `supersede` can close a cycle. |
| MemoryRepository.ChainEnds | src/wax/memory/repository.py:113-118 | Where chains run to younger records they are acyclic and each ends at a record that nothing supersedes. |
| MemoryRepository.ForwardEnds | src/wax/memory/repository.py:113-118 | Where chains run to younger records, every chain ends. |
| Consolidation.Gather | src/wax/memory/consolidation.py:213-239 | The inner loop: a seed's cluster is the seed and exactly the unused episodes related to it. |
| Consolidation.ClusterEpisodes | src/wax/memory/consolidation.py:179-243 | Greedy clustering is a partition: each episode is in exactly one cluster, once, namely that of the first seed related to it. |
| Consolidation.SeedsUnrelated | src/wax/memory/consolidation.py:189-239 | Two seeds share fewer than two significant words; every other member shares two with its own seed. |
| Consolidation.RelatedMeans | src/wax/memory/consolidation.py:189-235 | Two episodes are related exactly if two different tokens of both are none of the stop words. |
| Consolidation.ClustersShareTokens | src/wax/memory/consolidation.py:189-235 | On the tokens: a member shares two telling tokens with its seed, and neither it nor its seed does with any earlier seed. |
| Consolidation.SupersedeCluster | src/wax/memory/consolidation.py:163-165 | The loop supersedes exactly the cluster's members, all by the one record, and keeps chains ending, or running to younger records, if they did. |
| Consolidation.ConsolidateCluster | src/wax/memory/consolidation.py:104-167 | One turn: a cluster that is chosen is stored and superseded, any other changes nothing. |
| Consolidation.EpisodeFate | src/wax/memory/consolidation.py:100-176 | What becomes of each episode: superseded by its cluster's new active record if the cluster is among the first, big enough, answered and stored; otherwise unchanged. |
| Consolidation.Consolidate | src/wax/memory/consolidation.py:65-176 | The pass adds one fresh record per chosen cluster and counts them, every episode meets its fate, and no other record changes, whatever other chains there are; if all chains ended before, all do afterwards. |
| Consolidation.TakenOnce | src/wax/memory/consolidation.py:163-165 | No episode is superseded on behalf of two clusters. |
| InboundAcceptance.InvStep | src/wax/runtime/inbound.py:83-252 | Every statement of every delivery keeps the committed tables consistent and the open transactions apart. |
| InboundAcceptance.AcceptOnce | src/wax/runtime/inbound.py:141-252 | Under every interleaving: of each message key at most one processed row and one work item, both or neither, and exactly then one committed delivery has returned accepted. |
| InboundAcceptance.AcceptedForItsSender | src/wax/runtime/inbound.py:139-236 | Under every interleaving an accepted message is recorded and scheduled for the one principal its sender's credential belongs to. |
| InboundAcceptance.DuplicateIsSeen | src/wax/runtime/inbound.py:189-211 | A delivery that commits as a duplicate does so because the key has been accepted. |
| InboundAcceptance.OnePrincipalPerCredential | src/wax/identity/repository.py:95-129 | Under every interleaving a credential has one principal, and no principal is left without a credential. |
| InboundAcceptance.RaceResolves | src/wax/runtime/inbound.py:128-138 | After the race rollback the credential is always found; the RuntimeError is never raised. |
| InboundAcceptance.MovesUnlessWaiting | src/wax/runtime/inbound.py:104-252 | A delivery that is not waiting for another's uncommitted row can execute its next statement. |
| InboundAcceptance.NoDeadlock | src/wax/runtime/inbound.py:104-188 | Deliveries never all wait for each other. |
| InboundAcceptance.Session.ResolvePrincipalByCredential | src/wax/identity/repository.py:131-151 | A principal is found exactly if the credential is known, and it is the credential's. |
| InboundAcceptance.Session.AcceptInboundMessage | src/wax/runtime/inbound.py:60-252 | One undisturbed delivery: what is created, reused and inserted, and accepted exactly if the key is new. |

## Left out

- Races inside one database session: a session of the work protocol is one atomic step on one clock reading, so a
  read followed by a write within it, or two clock readings of one session, are not taken apart.
- A heartbeat cancelled while its commit is on the way; `WorkProtocol` lets no beat commit after its item was given up.
- The processing of a batch with `max_concurrency` above 1 in `WorkRunner`; `WorkProtocol` allows any order and overlap.
- The poll loop, start and stop of the runner, and its handler registry: a crash or a stop is the step `Crash`.
- `recover_orphans` and execution recovery.
- Payloads, results, error texts, principals, kinds and execution ids of work items, and dead-letter records.
- Wake kinds outside `time` and `event`, which `schedule` refuses: the wake kind is a datatype.
- `get`, `list_for_principal`, `count_inflight`, `count_since`: plain queries that would only add easy members.
- What an inbound message's work item does once it is accepted; only acceptance is modelled.
- SQL, migrations, and the isolation rules of the database beyond unique constraints and skipped locks.
- WorkRuns.NoFalseWake: assumes that nobody but a runner emitted the awaited name, because `emit` does not check names; `WorkRuns.ForgedNameWakes` shows that it cannot do without.
- DeliveryQueue.RetryPacing: stated without the division, multiplied by factor − 1, which is positive there.
- HeartbeatRuns.NeverReclaimed: takes the beats of the schedule that are answered as steps at exactly their instants, renewals being instantaneous.
- DeliveryQueue.DeliveryQueue.RetryDue: the attempts of one sweep see the records of its query; other sessions do not run in between.
- Chunker.ChunkText: asks for a text and limit on which the loop ends (`Chunker.TerminatesIff`), and for a limit that is not negative.
- RateLimiter.RateLimiter.constructor: asks for a positive window; the source only ever uses 3600 s.
- CircuitBreaker.CircuitBreaker.constructor: asks for the configuration the source accepts; the ValueError is not modelled, nor is a negative number of half-open calls.
- Cancellation of a call in flight, which the breaker does not record: operations either return or raise an `Exception`.
- Streaming completions, the parsing of the fallback list, and how a model's answer is read.
- Tokenizing an episode's text and selecting the episodes: they come as sets of words; an error between storing a
  record and its last supersession, which leaves some of the writes in the session; a negative `max_clusters`.
- Strengthening, linking, expiring and hard-deleting memories, their search and scoring.
- Phone normalization (credentials come normalized), display names, sessions and conversation archiving.
- Wire clients, configuration, logging, encryption, signatures, lifecycle order: plumbing around libraries.
- Rounding of floating-point times.

# SandboxPilot, verified

A Dafny model of SandboxPilot's core: the two-level allocator that places sandboxes on workers, the life cycle protocol
around it, and the self-contained algorithms for streams, the firewall and identifiers. `dafny verify dfyconfig.toml`
checks everything.

## How it is built

**The worker.** `WorkerCapacity` is the reservation map as a class. `WorkerProtocol` is the worker as a state machine:
a step is what one coroutine does between two suspensions (an arriving create, a claim's swap, an eviction, the end of
a boot, a delete, an inspection, a warm boot, a container that comes up or dies), and steps of any number of coroutines
interleave. `WorkerService` is the imperative code of these steps, each proved to be its step. `WorkerSafety` holds the
theorems over all runs: the worker never over-admits, every reservation has exactly one owner, nothing leaks, no
container is left behind by a truthful runtime (and exactly when one is by any other), and advertised free capacity
can be obtained. `WorkerOutcomes` tells what becomes of a claim, a failed adoption, a boot, a delete and a warm boot,
and which steps stand behind a label.

**The control plane.** `Ledger` and `Scheduler` are the capacity ledger and best-fit placement as written. `Placement`
composes the ledger with the worker's state machine: over every run the ledger covers what the worker holds, so a
scheduled create is never refused by an open worker with no slot mid-boot, and a health report that is applied late
breaks that exactly when a create was admitted and confirmed since it was taken. `KillRace` runs one placement and one
kill of the same sandbox against the whole worker, and says exactly when the kill loses. `Lifecycle` lets any number of
coroutines work on their own copies of one record and shows that no write ever leaves the transition table.
`ControlService` is the imperative code of placement and kill, each piece proved to be a move of `Lifecycle` and to do
what `KillRace` says. `WorkerStates`, `Scaler`, `ScaleDown`, `Inventory` and `Idempotency` are the worker life cycle,
the scaling decisions, the inventory pass and creates with an idempotency key.

**Streams.** `BoundedOutput`, `EventLog`, `TarHeader` and `Tar` follow the Python classes and loops, each proved against
a function of everything read or written, so that chunks never matter. `Sse` has the printer and both parsers;
`SseLaws` proves that the incremental TypeScript parser and a line-based reading agree on every text; `SseRoundTrip`
says which payloads survive.

**Firewall and identifiers.** `Firewall` builds the plan and runs it on a small interpreter of iptables chains;
`FirewallLaws` has the resulting chains and idempotence, `FirewallPackets` the verdicts of packets. `Uuid7` is the bit
packing and the monotonic counter of RFC 9562, sections 5.7 and 6.2.

## What is assumed

- A step is atomic between two suspensions. `try_reserve` never suspends, so the swap of a claim and its undoing
  (src/sandboxpilot/worker/service.py:521-528) are one step.
- `KillRace` and `ControlService.CreateReturned` take the re-check src/sandboxpilot/control/service.py:888 and the write
  behind it as one step, and `KillRace` begins after the write at 830. The code does not enforce either: a kill takes
  no lock, so it can write between the look at 817 or 888 and the write at 830 or 912. `Lifecycle` keeps the two apart
  and shows what that costs (`Lifecycle.OverlookedKillIsUndone`, `Lifecycle.EndedRecordRevivesIff`).
- Each sandbox id is sent to a worker at most once; the `excluded` set of the placement loop and fresh ids give this.
- In `Placement` a health report is read and applied at once, except in `Placement.LateReportCoversIff`, which has the
  exact condition for one that is not; and a create's answer is not overtaken by a kill.
- In `WorkerSafety.ContainersAreAccounted` and `KillRace` the runtime is truthful: removals go through, and an inspection
  that reports a container gone is right. The worker itself suppresses removal errors and takes inspection errors for
  absence; what that costs is stated by `WorkerSafety.StepLeavesContainerIff`.
- `Scaler.NeverAboveMax` and `Scaler.AlwaysWithinIff` let requests decide one at a time: nobody reads the list of
  workers while another still has workers to start. Only placement takes the pool lock; `pool_up` and the replacements
  (src/sandboxpilot/control/service.py:389-404 and 1341-1346) do not, and are suspended before every start.
  `Scaler.MaximumIsSafeIff` has the exact condition for requests that overlap.
- In `Scaler` workers are written from fresh copies, and its runs never clear a `terminate_when_empty` mark. A drain
  request can clear it (src/sandboxpilot/control/service.py:466); `Scaler.DrainKeepsBoundIff` has the exact condition.
- In `Inventory` listing and records do not change while a pass runs.

## Where the code does less than it seems to

- Of the worker's counters only running and pending together are exact: while a warm slot boots, the running figure
  alone is one too low (`WorkerCapacity.CapacityManager.Snapshot`).
- A worker adopts what it finds running without an admission check (`WorkerSafety.RestartKeepsLimitsIff`). Even with its
  limits unchanged it can exceed them: a restart finds a container that was still being discarded, beside the one that
  took its room (`WorkerSafety.RestartDuringDiscardExceeds`).
- A container can outlive its sandbox in three ways, and an inspection error on a running one is the easiest: the
  record becomes LOST, the reservation goes, the container stays (`WorkerSafety.StepLeavesContainerIff`,
  `WorkerSafety.FailedInspectionLeavesContainer`).
- A health report applied after a create was admitted and confirmed makes the ledger forget that sandbox
  (`Placement.LateReportForgets`).
- A kill that read the record while it was still waiting, and writes only after the create has been answered, ends the
  record as STOPPED and never asks the worker: the sandbox runs on. Nothing but the order of the two writes prevents it
  (`KillRace.StaleKillCanLose`, `KillRace.SandboxSurvivesIff`).
- The transition table guards the writer's copy, not the record. A finished record can change its label, and a killed
  one can come back to life: when the worker refuses the create after the kill, the placement writes its own copy back
  as waiting and places the sandbox again (`Lifecycle.KilledSandboxMayRevive`); and a kill that finishes between a
  placement's look at the record and its write is undone (`Lifecycle.OverlookedKillIsUndone`). What holds is that every
  write is legal for the copy it starts from, and for the record when the copy is fresh.
- Two `pool_up` at a time, or a replacement beside a placement's scale-up, can start more than `max_workers`
  (`Scaler.OverlappingPoolUpsExceed`, `Scaler.StaleReplacementExceeds`).
- `cleanup` raises for an active sandbox that was never placed, and a worker that is still connecting must not be found
  draining: these are the only two writes outside the tables (`Lifecycle.CleanupRaisesIff`,
  `WorkerStates.WorkerWriteRaisesIff`).
- The truncation flag of a command's output does not mean that bytes were lost, and an empty write can set it
  (`BoundedOutput.TextIsExactIff`, `BoundedOutput.FlagsIff`).
- Workers on their way out do not count towards the replacements, so more than `max_workers` machines can run at a time
  (`Scaler.CountedMayExceedMax`, and `Scaler.AlwaysWithinIff` for exactly when).
- A printed payload with a line break does not survive, and for the Python client U+0085, U+2028 and U+2029 are line
  breaks, which the printer leaves unescaped (`SseRoundTrip.SurvivesIff`, `SseRoundTrip.ClientsAgreeIff`).

## Model

| member | source | states |
|---|---|---|
| WorkerCapacity.CapacityManager.constructor | src/sandboxpilot/worker/capacity.py:29-51 | allocatable is the total minus the reserve, and never negative |
| WorkerCapacity.CapacityManager.Fits | src/sandboxpilot/worker/capacity.py:87-92 | a request fits exactly when the limits leave room beside the sum over the reservation map, warm slots included |
| WorkerCapacity.CapacityManager.DiskPressure | src/sandboxpilot/worker/capacity.py:78-85 | none without a reading; else exactly when too few bytes are free, or too small a part of a known total |
| WorkerCapacity.IsWarmIff | src/sandboxpilot/worker/capacity.py:25-25 | warm slots are the ids that begin with these five characters |
| WorkerCapacity.CapacityManager.TryReserve | src/sandboxpilot/worker/capacity.py:94-102 | true for an id already held; otherwise true exactly when open and fitting, and only then is the map extended |
| WorkerCapacity.CapacityManager.Adopt | src/sandboxpilot/worker/capacity.py:104-106 | registers a committed reservation without a check |
| WorkerCapacity.CapacityManager.Commit | src/sandboxpilot/worker/capacity.py:108-111 | marks a reservation and touches no other |
| WorkerCapacity.CapacityManager.Release | src/sandboxpilot/worker/capacity.py:113-114 | drops a reservation and touches no other |
| WorkerCapacity.CapacityManager.Snapshot | src/sandboxpilot/worker/capacity.py:119-139 | the advertised allocation and running + pending equal the sum over the reservations that are not warm slots; the running figure alone is off by the slots still booting |
| WorkerCapacity.Counts | src/sandboxpilot/worker/capacity.py:65-71 | the counters of the report, computed from the map, are the sizes of the sets they stand for |
| WorkerCapacity.HeldSplits | src/sandboxpilot/worker/capacity.py:122-131 | what is held is what real sandboxes hold plus what warm slots hold |
| WorkerProtocol.FailedSwapRestores | src/sandboxpilot/worker/service.py:521-528 | a claim that cannot take the request leaves reservations and slots exactly as they were |
| WorkerProtocol.ClaimKeepsOwned | src/sandboxpilot/worker/service.py:521-529 | a successful swap of reservations keeps ownership |
| WorkerProtocol.TryColdKeepsOwned | src/sandboxpilot/worker/service.py:426-444 | a turn of the admission loop keeps ownership |
| WorkerProtocol.EndBootKeepsOwned | src/sandboxpilot/worker/service.py:468-492 | the end of a cold boot keeps ownership when it failed, when a delete came first and when it went well |
| WorkerProtocol.EndClaimKeepsOwned | src/sandboxpilot/worker/service.py:546-567 | the end of an adoption keeps ownership |
| WorkerProtocol.EndInspectKeepsOwned | src/sandboxpilot/worker/service.py:370-392 | an inspection that relabels a sandbox after a concurrent delete keeps ownership |
| WorkerProtocol.EndDeleteKeepsOwned | src/sandboxpilot/worker/service.py:680-687 | the end of a delete or expiry keeps ownership |
| WorkerProtocol.EndWarmBootKeepsOwned | src/sandboxpilot/worker/service.py:597-617 | the end of a warm boot keeps ownership |
| WorkerProtocol.StepKeepsOwned | src/sandboxpilot/worker/service.py:370-716 | every step of every coroutine, in any interleaving, keeps the agreement of labels, slots, coroutines and reservations |
| WorkerSafety.StepKeepsAdmissible | src/sandboxpilot/worker/capacity.py:94-114 | every step keeps the sum over the reservations within the limits |
| WorkerSafety.NeverOverAdmits | src/sandboxpilot/worker/capacity.py:87-114 | over any run from an empty worker, reserved CPU and memory stay within allocatable and the number of reservations within the cap |
| WorkerSafety.ReservationsAreOwned | src/sandboxpilot/worker/service.py:370-492 | in every state reached from a fresh worker each reservation has exactly one owner (slot, warm boot, claim, live or stopping sandbox), and every creating or running sandbox has one |
| WorkerSafety.NoLeakWhenQuiet | src/sandboxpilot/worker/service.py:389-392 | in every such state with no create, boot or delete in flight, exactly the parked slots and the running sandboxes hold reservations |
| WorkerSafety.StepKeepsContained | src/sandboxpilot/worker/service.py:370-687 | a step whose runtime answers are truthful keeps every running container accounted for |
| WorkerSafety.ContainersAreAccounted | src/sandboxpilot/worker/service.py:370-687 | over every run from a fresh worker with a truthful runtime, a running container belongs to a sandbox that is booting, being discarded, running with its reservation, or about to be removed |
| WorkerSafety.StepLeavesContainerIff | src/sandboxpilot/worker/service.py:370-687 | whatever the runtime answers, a step leaves a running container with nobody to remove it exactly when the container is up, no removal is pending and the step is a discard whose removal failed, the end of a delete, or an inspection that missed it |
| WorkerSafety.FailedInspectionLeavesContainer | src/sandboxpilot/worker/service.py:370-375 | a run from any fresh worker with room in which an inspection error does that: the container stays up, unreserved, its record LOST |
| WorkerSafety.RestartRecovers | src/sandboxpilot/worker/service.py:188-249 | after a restart the reservation map is owned again, and admissible if what runs was reserved before |
| WorkerSafety.RestartKeepsLimitsIff | src/sandboxpilot/worker/service.py:188-249 | a restarted worker is within its limits exactly when what it adopts fits them |
| WorkerSafety.RestartKeepsLimits | src/sandboxpilot/worker/service.py:188-249 | after any such run, a restart with unchanged limits leaves an owned map within them if no container of a create or delete in flight was up unreserved |
| WorkerSafety.RestartDuringDiscardExceeds | src/sandboxpilot/worker/service.py:188-249 | without that it need not: a run from any fresh worker in which a restart adopts a container still being discarded beside the one that took its room |
| WorkerSafety.RestartMayExceedLimits | src/sandboxpilot/worker/service.py:188-249 | adopting what is found running does not check the limits: a worker whose limits shrank starts above them |
| WorkerSafety.ObtainableIsAdvertised | src/sandboxpilot/worker/capacity.py:119-139 | a request that fits the advertised free capacity is what the eviction loop can make room for |
| WorkerSafety.LastTurn | src/sandboxpilot/worker/service.py:426-435 | with no slot left and no boot in flight, the last turn admits exactly the obtainable requests |
| WorkerSafety.OtherTurn | src/sandboxpilot/worker/service.py:427-430 | a turn that evicts leaves what real sandboxes hold as it was and loses one slot |
| WorkerSafety.LoopAdmitsIffObtainable | src/sandboxpilot/worker/service.py:426-435 | a request running its eviction loop undisturbed is admitted exactly when it fits beside the real sandboxes |
| WorkerSafety.LoopEnds | src/sandboxpilot/worker/service.py:427-430 | the loop runs at most once more than there are warm slots |
| WorkerSafety.ArrivalAdmitsIffObtainable | src/sandboxpilot/worker/service.py:405-435 | an arriving create, whether its claim succeeds, is put back or it has none, ends admitted exactly when it fits beside everything but the parked slots |
| WorkerSafety.AdvertisedCapacityIsObtainable | src/sandboxpilot/worker/service.py:405-435 | an arriving create, undisturbed on an open worker with no slot booting, ends admitted exactly when it fits beside the allocation reported before it came, and no other sandbox loses anything |
| WorkerSafety.FallbackAdmitsIffAdvertised | src/sandboxpilot/worker/service.py:426-435 | the same for a create that is back in the eviction loop after its adoption failed |
| WorkerOutcomes.ClaimTakesSlotIff | src/sandboxpilot/worker/service.py:521-529 | an arriving create takes the slot it claims exactly when it fits in the slot's place, and no other sandbox loses anything |
| WorkerOutcomes.AdoptedClaimRuns | src/sandboxpilot/worker/service.py:529-567 | adopted, the sandbox runs in the slot's container with its own reservation in place of the slot's |
| WorkerOutcomes.FailedAdoptionAdmitsIffAdvertised | src/sandboxpilot/worker/service.py:542-550 | not adopted, the create goes on as a cold one and, undisturbed, ends booting with its reservation: it fits beside what real sandboxes held before it came, and these lose nothing |
| WorkerOutcomes.ClosedWorkerTurnsAway | src/sandboxpilot/worker/service.py:414-419 | a worker that is draining or short of disk turns an arrival away and evicts nothing for it |
| WorkerOutcomes.ClosedWorkerAdmitsNothing | src/sandboxpilot/worker/capacity.py:94-102 | over any run in which it stays closed, no sandbox gets a reservation it did not have |
| WorkerOutcomes.FailedBootLeavesNoTrace | src/sandboxpilot/worker/service.py:468-484 | after a failed boot and the removal of its container the worker is as it was, but for the used id |
| WorkerOutcomes.DeleteEndsSandbox | src/sandboxpilot/worker/service.py:664-687 | a delete ends a running sandbox with the label asked for, unreserved and removed |
| WorkerOutcomes.DeleteOvertakesBoot | src/sandboxpilot/worker/service.py:484-492 | so does one that overtakes the boot, whose container is then removed |
| WorkerOutcomes.WarmBootParksIff | src/sandboxpilot/worker/service.py:575-617 | a slot is parked exactly when it has room and boots; otherwise nothing changes |
| WorkerOutcomes.InspectionEndsOnlyRunning | src/sandboxpilot/worker/service.py:376-392 | an inspection that finds a container exited ends only a running sandbox |
| WorkerOutcomes.LabelsAreExplained | src/sandboxpilot/worker/service.py:370-716 | over every run from a fresh worker each label has the steps behind it that it stands for: running by a boot or an adoption, failed by a boot, expired or stopped by the delete asked for or an exited container, lost by a missing one |
| WorkerSafety.RealReservationsAreAsked | src/sandboxpilot/worker/service.py:426-426 | a real sandbox's reservation appears only as the request that the step admits |
| WorkerService.WorkerService.FindSlot | src/sandboxpilot/worker/service.py:514-520 | the first parked slot whose baked-in settings match, and none only if none matches |
| WorkerService.WorkerService.Unpark | src/sandboxpilot/worker/service.py:521-521 | takes one slot out of the ordered slot map, the others keep their order |
| WorkerService.WorkerService.Park | src/sandboxpilot/worker/service.py:526-527 | puts a slot behind the others |
| WorkerService.WorkerService.EvictOldest | src/sandboxpilot/worker/service.py:427-429 | the oldest slot leaves the map and the reservations, and the create waits |
| WorkerService.WorkerService.Turn | src/sandboxpilot/worker/service.py:426-444 | the code of one admission turn is the protocol's step, evicting the oldest slot |
| WorkerService.WorkerService.Swap | src/sandboxpilot/worker/service.py:521-528 | the swap of reservations, and its undoing |
| WorkerService.WorkerService.Claim | src/sandboxpilot/worker/service.py:512-528 | swap, or put back and go on with the admission loop |
| WorkerService.WorkerService.CreateBegins | src/sandboxpilot/worker/service.py:405-444 | a create up to its first suspension is the protocol's arrival step, claiming only a slot whose settings match and none only if none does, also for an id that has ended here before; a live id is answered without a change |
| WorkerService.WorkerService.ClaimReturns | src/sandboxpilot/worker/service.py:546-567 | the code behind the adoption is the protocol's step |
| WorkerService.WorkerService.BootReturns | src/sandboxpilot/worker/service.py:468-489 | the code behind a cold boot is the protocol's step, in all three outcomes |
| WorkerService.WorkerService.DiscardReturns | src/sandboxpilot/worker/service.py:472-486 | the code behind the removal of a failed or unwanted container is the protocol's step |
| WorkerService.WorkerService.DeleteBegins | src/sandboxpilot/worker/service.py:668-678 | a delete starts exactly when the sandbox is known, has not ended and is not being deleted |
| WorkerService.WorkerService.DeleteReturns | src/sandboxpilot/worker/service.py:684-687 | the end of a delete is the protocol's step |
| WorkerService.WorkerService.InspectReturns | src/sandboxpilot/worker/service.py:371-387 | the code behind an inspection is the protocol's step |
| WorkerService.WorkerService.WarmBootBegins | src/sandboxpilot/worker/service.py:577-582 | a warm boot starts exactly when its reservation is granted |
| WorkerService.WorkerService.WarmBootReturns | src/sandboxpilot/worker/service.py:597-617 | the end of a warm boot is the protocol's step |
| Ledger.CapacityLedger.Update | src/sandboxpilot/scheduler/capacity.py:54-60 | replaces the report, forgets confirmed sandboxes, keeps pending ones, touches no other worker |
| Ledger.CapacityLedger.Reserve | src/sandboxpilot/scheduler/capacity.py:62-63 | adds a pending amount and touches no other worker |
| Ledger.CapacityLedger.Confirm | src/sandboxpilot/scheduler/capacity.py:65-70 | moves a pending amount to the confirmed ones; nothing if it is not pending |
| Ledger.CapacityLedger.Release | src/sandboxpilot/scheduler/capacity.py:72-75 | drops the sandbox from both |
| Ledger.CapacityLedger.Forget | src/sandboxpilot/scheduler/capacity.py:77-78 | drops one worker's ledger |
| Ledger.CapacityLedger.Available | src/sandboxpilot/scheduler/capacity.py:80-82 | what is left of the report after pending and confirmed sandboxes; no ledger changes its meaning |
| Ledger.FreeOf | src/sandboxpilot/scheduler/capacity.py:23-44 | the three accounting properties are the report minus the sums over both maps |
| Ledger.UnknownIsEmpty | src/sandboxpilot/scheduler/capacity.py:51-52 | an unknown worker offers nothing and has nothing counted on it |
| Placement.ScheduleKeepsInv | src/sandboxpilot/control/service.py:823-830 | scheduling into a ledger that covers the demand keeps the demand within the worker's limits |
| Placement.WorkKeepsInv | src/sandboxpilot/worker/service.py:405-492 | no step of the worker adds to the demand |
| Placement.BookkeepingKeepsInv | src/sandboxpilot/scheduler/capacity.py:54-75 | confirming, dropping and refreshing keep the ledger covering |
| Placement.EventKeepsInv | src/sandboxpilot/control/service.py:823-830 | every event of the two-level system keeps its invariant |
| Placement.LedgerCoversDemand | src/sandboxpilot/scheduler/capacity.py:23-44 | the ledger never counts less than what the worker holds for sandboxes and has coming |
| Placement.LedgerCoversWorker | src/sandboxpilot/scheduler/capacity.py:23-78 | over every run the ledger's used amounts cover the worker's real allocation, count included |
| Placement.ScheduledCreateIsNeverRefused | src/sandboxpilot/worker/service.py:426-550 | over every run each of a scheduled create's own steps leaves it in flight or its sandbox running, the ends of an adoption and of a boot included; for a turn of its admission the worker has to be open with no slot booting |
| Placement.LedgerStaysWithinLimits | src/sandboxpilot/scheduler/capacity.py:62-75 | over any run without a report, scheduling, confirming and releasing never push the ledger above its limits |
| Placement.RefreshIsExactIff | src/sandboxpilot/scheduler/capacity.py:54-60 | a report makes the ledger exact exactly when no pending sandbox is already held by the worker; otherwise that sandbox counts twice |
| Placement.ForgottenIff | src/sandboxpilot/scheduler/capacity.py:54-60 | applying a report late forgets a held sandbox exactly when it was admitted after the report was taken and confirmed before it was applied |
| Placement.LateReportCoversIff | src/sandboxpilot/scheduler/capacity.py:54-60 | over every run, a late report keeps the ledger covering, and with it the whole invariant, exactly when there is no such sandbox; with no other report in between, exactly when none is only among the confirmed amounts |
| Placement.LateReportForgets | src/sandboxpilot/scheduler/capacity.py:54-60 | from every newly connected worker with room, a run after which a late report makes the ledger count less than the worker holds |
| Scheduler.BetterIsStrict | src/sandboxpilot/scheduler/binpack.py:33-39 | scores form a strict order, total up to equal ids |
| Scheduler.SelectWorker | src/sandboxpilot/scheduler/binpack.py:33-48 | none exactly when nothing fits; otherwise the fitting candidate with the least memory left, then the least CPU, then the oldest, then the first by id |
| Scheduler.ChoiceIsOrderFree | src/sandboxpilot/scheduler/binpack.py:42-48 | with distinct ids the choice does not depend on the order of the candidates |
| Scheduler.Candidates | src/sandboxpilot/scheduler/scheduler.py:30-45 | one candidate for every healthy worker that is neither draining nor marked, weighed by its ledger; no ledger changes |
| Scheduler.OpenOnesAre | src/sandboxpilot/scheduler/scheduler.py:30-45 | the workers weighed are exactly the healthy ones that are neither draining nor marked |
| Scheduler.Schedule | src/sandboxpilot/scheduler/scheduler.py:30-61 | a worker is chosen exactly when a healthy one, neither draining, marked nor excluded, has room in its ledger; by the ledgers no other has less memory left, then less CPU, then is older, then has the smaller id; else one is to be started exactly when none is on its way and fewer than the maximum are neither terminated nor lost |
| Scaler.AloneHasRoom | src/sandboxpilot/scheduler/scaler.py:24-43 | a request that decides while no other has workers to start decides within the maximum, of the workers not on their way out |
| Scaler.ScaleUpIff | src/sandboxpilot/scheduler/scaler.py:24-33 | placement has a worker started exactly when none is on its way and fewer than the maximum are neither terminated nor lost |
| Scaler.PoolUpReaches | src/sandboxpilot/control/service.py:389-404 | an undisturbed pool-up leaves exactly the number asked for, within the maximum, or the minimum, and at least one from nothing, and never fewer than there were |
| Scaler.ReplacementReaches | src/sandboxpilot/scheduler/scaler.py:36-43 | an undisturbed replacement brings the workers not on their way out up to the minimum |
| Scaler.PlacementReaches | src/sandboxpilot/control/service.py:831-834 | an undisturbed placement starts one worker exactly when none is coming and there is room |
| Scaler.StartedAreNew | src/sandboxpilot/control/service.py:476-501 | what a request starts is new, on its way and unmarked, and nothing else changes |
| Scaler.AtRiskIff | src/sandboxpilot/control/service.py:389-404 | without any further decision more than the maximum can come about exactly when the workers and those still to be started exceed it |
| Scaler.MaximumIsSafeIff | src/sandboxpilot/control/service.py:389-404 | however requests interleave between reading the list and each start, the maximum is never at risk exactly when every decision of the run has room for what it starts beside what others still start |
| Scaler.NeverAboveMax | src/sandboxpilot/control/service.py:389-404 | over any run of placement scale-ups, pool-ups and replacements that decide one at a time, workers that are not on their way out never exceed max_workers, suspensions before every start included |
| Scaler.OverlappingPoolUpsExceed | src/sandboxpilot/control/service.py:389-404 | overlapping they can: from every pool with a free place and nobody leaving, two pool-ups to the maximum that read one list exceed it |
| Scaler.StaleReplacementExceeds | src/sandboxpilot/control/service.py:1341-1346 | and so does, in every fixed-size pool below its size with nobody coming, a replacement carried out after a scale-up it has not seen |
| Scaler.StartsFitRoomIff | src/sandboxpilot/control/service.py:389-404 | from the moment a request reads the list, the maximum holds later exactly when all that was started since, less those that left, fits the room it read |
| Scaler.DrainKeepsBoundIff | src/sandboxpilot/control/service.py:463-470 | a drain request keeps that bound except when it takes the mark off a worker on its way out while the pool is full |
| Scaler.PlacementSharesPending | src/sandboxpilot/control/service.py:815-835 | placement alone, deciding and starting under the pool lock, never has two workers on their way |
| Scaler.AloneHasRoomIff | src/sandboxpilot/control/service.py:1341-1346 | counting those on their way out, a request that decides alone stays within the maximum exactly when it is not a replacement whose target, beside those on their way out, exceeds it |
| Scaler.AlwaysWithinIff | src/sandboxpilot/control/service.py:1341-1346 | a run of requests that decide one at a time never puts that maximum at risk exactly when no such replacement occurs in it |
| Scaler.CountedMayExceedMax | src/sandboxpilot/control/service.py:1341-1346 | a pool and a run in which it does: a draining worker is replaced before it is gone |
| Scaler.ChangeNeverRevives | src/sandboxpilot/schemas/common.py:156-197 | no write to a worker's state brings it back among the effective ones or back to pending |
| ScaleDown.SortByIdleness | src/sandboxpilot/scheduler/scaler.py:74-74 | sorted by idle time and id, nothing lost |
| ScaleDown.WorkersToScaleDown | src/sandboxpilot/scheduler/scaler.py:46-81 | the loops return the greedy picks from some idleness order of exactly the candidates |
| ScaleDown.ScaleDownIsSafe | src/sandboxpilot/scheduler/scaler.py:53-81 | every pick is up, without sandboxes or pending reservations, and marked or idle for the pool's time; unmarked picks number at most what the minimum leaves of the workers up or coming |
| ScaleDown.ScaleDownMissesNone | src/sandboxpilot/scheduler/scaler.py:62-81 | a worker that qualifies and stays is unmarked, and then no more than the minimum are left |
| ScaleDown.ScaleDownTakesLongestIdle | src/sandboxpilot/scheduler/scaler.py:74-81 | with no worker marked, as many candidates go as the minimum allows, nobody who stays has been idle longer than one who goes, and survivors are at least min(count, min_workers) |
| ScaleDown.LongestIdleGoFirst | src/sandboxpilot/scheduler/scaler.py:74-74 | nobody who stays has been idle, or else been there, for longer than one who goes, ties by id |
| ScaleDown.UnmarkedPicksLeaveMinimum | src/sandboxpilot/scheduler/scaler.py:77-80 | unmarked picks stop at the minimum, whatever marked ones are picked in between |
| ScaleDown.PrecedesIsTotal | src/sandboxpilot/scheduler/scaler.py:74-74 | the order on ids behind the sort and the score is total and asymmetric |
| ScaleDown.PrecedesIff | src/sandboxpilot/scheduler/scaler.py:74-74 | it is the order of strings: a proper prefix, or the smaller character at the first difference |
| Lifecycle.WritesAreLegal | src/sandboxpilot/control/service.py:260-276 | every write a coroutine may make from a copy it believes in is in the table, and keeps waiting sandboxes without and placed ones with a worker |
| Lifecycle.MoveKeepsInv | src/sandboxpilot/control/service.py:815-944 | every move of every coroutine keeps the copies believable |
| Lifecycle.NoStateError | src/sandboxpilot/schemas/common.py:60-128 | over all interleavings of placements, kills, expiries, inventory, worker loss, termination and recovery no write raises |
| Lifecycle.LegalIff | src/sandboxpilot/schemas/common.py:60-128 | the transition table by where a write leads |
| Lifecycle.FreshWritesAreLegal | src/sandboxpilot/schemas/common.py:124-128 | a write from a fresh copy is a legal change of the stored record |
| Lifecycle.EndedRecordRevivesIff | src/sandboxpilot/control/service.py:815-990 | a write to a record that has ended makes it live again exactly when a placement looked at it before it ended, a refused create goes back to waiting, or a kill or expiry announces itself from a copy it believes placed; it is in the table exactly when it keeps the label |
| Lifecycle.KilledSandboxMayRevive | src/sandboxpilot/control/service.py:855-880 | a run in which a sandbox killed during its create is refused by the worker, goes back to waiting and is created on another worker |
| Lifecycle.OverlookedKillIsUndone | src/sandboxpilot/control/service.py:815-830 | a run in which a kill that finishes between a placement's look at the record and its write is undone, and the record ends RUNNING |
| Lifecycle.TerminalLabelMayChange | src/sandboxpilot/control/service.py:976-1016 | a run in which an expiry overtaken by a kill rewrites STOPPED to EXPIRED |
| Lifecycle.CleanupRaisesIff | src/sandboxpilot/control/service.py:1404-1409 | on a placed record, marking it LOST is refused exactly when it has no worker |
| WorkerStates.WorkerWriteRaisesIff | src/sandboxpilot/control/service.py:615-618 | of all writes to a worker exactly one is refused: a connecting worker found draining |
| WorkerStates.SuccessorsAre | src/sandboxpilot/schemas/common.py:156-197 | the worker's transition table by where a write leads |
| WorkerStates.WorkerWritesAre | src/sandboxpilot/control/service.py:503-661 | from which states the code writes which |
| KillRace.GoneStays | src/sandboxpilot/worker/service.py:405-687 | once a sandbox's create has come and gone and it has ended, nothing on the worker brings it back |
| KillRace.ReturnedStays | src/sandboxpilot/worker/service.py:486-492 | after the create returned a view its record stays |
| KillRace.EventKeepsInv | src/sandboxpilot/control/service.py:886-912 | every event of the race keeps record, ledger and worker in step |
| KillRace.KillWins | src/sandboxpilot/control/service.py:886-912 | however a kill overlaps a create, also one that read the record while it was waiting, once both have ended the record is terminal; and unless the kill was overtaken the ledger has no entry, and if the delete went through, the worker has no container and no reservation |
| KillRace.RanWhenAnsweredFirst | src/sandboxpilot/control/service.py:980-990 | a kill that read the record before the placement leaves the sandbox to be recorded as running exactly when the create is answered, well, before the kill writes |
| KillRace.SandboxSurvivesIff | src/sandboxpilot/control/service.py:976-1016 | if nothing else ends the sandbox and no delete is lost, the worker still runs it at the end exactly when the kill was overtaken in that way |
| KillRace.StaleKillCanLose | src/sandboxpilot/control/service.py:986-990 | from every such start with room on the worker, a run in which the record ends STOPPED and the sandbox runs on, reserved and counted |
| KillRace.LostCleanupLeavesSandbox | src/sandboxpilot/control/service.py:892-897 | the proviso on the deletes is needed: from every start with room, a run in which an unreachable worker and a lost clean-up delete leave the sandbox running under a LOST record |
| ControlService.ControlPlane.SetState | src/sandboxpilot/control/service.py:260-271 | writes the copy back exactly when the table allows it, else the error and no change |
| ControlService.ControlPlane.PlacementLooks | src/sandboxpilot/control/service.py:815-820 | the placement goes on exactly if the record is there and has not ended |
| ControlService.ControlPlane.PlacementTurn | src/sandboxpilot/control/service.py:821-845 | a fitting worker is reserved for and the record created there, or nothing fits, the record keeps waiting and scaling decides |
| ControlService.ControlPlane.KeepWaiting | src/sandboxpilot/control/service.py:831-845 | the waiting state says whether a worker is on its way |
| ControlService.ControlPlane.PlacementRejected | src/sandboxpilot/control/service.py:855-880 | the ledger entry goes, the record waits again without a worker |
| ControlService.ControlPlane.CreateReturned | src/sandboxpilot/control/service.py:886-912 | the re-check and what follows it are the answer step of the kill race and a move of the life cycle, whatever the stored record says |
| ControlService.ControlPlane.CleanupReturned | src/sandboxpilot/control/service.py:892-897 | the write behind the placement's own delete |
| ControlService.ControlPlane.BrokenReturned | src/sandboxpilot/control/service.py:898-906 | the write behind a create that gave an unusable sandbox |
| ControlService.ControlPlane.WorkerGone | src/sandboxpilot/control/service.py:636-639 | what was placed on a worker that is gone is lost |
| ControlService.ControlPlane.Recover | src/sandboxpilot/control/service.py:170-209 | after a restart a waiting sandbox fails, and one being created runs exactly if its worker has it running |
| ControlService.ControlPlane.FailUnlessTerminal | src/sandboxpilot/control/service.py:939-944 | a create that is given up fails exactly if the record has not ended |
| ControlService.ControlPlane.StopBegins | src/sandboxpilot/control/service.py:985-990 | a kill or expiry ends a waiting sandbox at once and announces itself on a placed one |
| ControlService.ControlPlane.StopReturned | src/sandboxpilot/control/service.py:991-1016 | the ledger entry goes and the record ends in the asked state, or as LOST when the worker cannot be reached |
| Inventory.ControlPlane.ReconcileInventory | src/sandboxpilot/control/service.py:1279-1324 | a record running here ends LOST exactly when absent or listed lost, EXPIRED when listed expired, STOPPED or FAILED when its container ended with or without an explanation, and stays otherwise; no other record changes; the ledger drops exactly what ended; to delete are exactly the live containers of this pool without an active record here |
| Inventory.ControlPlane.EndOurs | src/sandboxpilot/control/service.py:1284-1310 | the first loop settles exactly the records placed here and releases what it ends |
| Inventory.SettlingIsLegal | src/sandboxpilot/control/service.py:1285-1310 | each such write is legal and no running record is left without a container that is still alive |
| Inventory.PassSettles | src/sandboxpilot/control/service.py:1279-1324 | a second pass over the same listing ends nothing more and asks for the same deletes |
| Idempotency.MoveKeepsInv | src/sandboxpilot/control/service.py:738-782 | every query of every create, and every housekeeping step, keeps keys and records in agreement |
| Idempotency.NeverTwo | src/sandboxpilot/control/service.py:738-782 | over every run from an empty store, two creates with one key answered with records that both still exist have been answered with the same one |
| Idempotency.FirstCreateIsAnswered | src/sandboxpilot/control/service.py:738-782 | from any state a create with an unused key is answered with a record of its own, and the key remembered |
| Idempotency.UnkeyedCreateIsAnswered | src/sandboxpilot/control/service.py:742-770 | without a key, or with an empty one, nothing is looked up and no key remembered |
| Idempotency.RetryIsAnswered | src/sandboxpilot/control/service.py:784-790 | a retry is answered with its key's record, through the key table or, once that has forgotten it, the index |
| Idempotency.LoserJoinsWinner | src/sandboxpilot/control/service.py:759-767 | a create that loses the race for the index is answered with the winner's record |
| Idempotency.KeysStay | src/sandboxpilot/control/service.py:768-769 | until it is expired a key stands for the record it was first remembered with |
| Idempotency.EveryRetryJoins | src/sandboxpilot/control/service.py:759-767 | over every such run without deletions, no create loses the race without joining the winner, even after the key table has forgotten the key |
| BoundedOutput.Output.Write | src/sandboxpilot/worker/commands.py:39-50 | head, tail, count and flag after a write, as functions of everything written |
| BoundedOutput.Output.Pump | src/sandboxpilot/worker/commands.py:218-229 | after any chunks the contents depend on their concatenation alone |
| BoundedOutput.Output.Text | src/sandboxpilot/worker/commands.py:52-57 | the text, with the exact number of dropped bytes |
| Bytes.DecimalIs | src/sandboxpilot/worker/commands.py:52-57 | the number of dropped bytes is written in decimal |
| BoundedOutput.HeadAndTail | src/sandboxpilot/worker/commands.py:39-50 | head and tail are a prefix and a suffix, fit the limit together, and what is dropped is exactly the rest |
| BoundedOutput.TextIsExactIff | src/sandboxpilot/worker/commands.py:52-57 | the text is the stream exactly when it is not flagged, or when the dropped bytes spell the marker |
| BoundedOutput.FlagsIff | src/sandboxpilot/worker/commands.py:41-47 | the flag is set exactly when the head overflows or a write starts with the head full |
| BoundedOutput.FlagIgnoresChunking | src/sandboxpilot/worker/commands.py:41-47 | without empty writes the flag depends on the stream alone |
| BoundedOutput.EmptyWriteSetsFlag | src/sandboxpilot/worker/commands.py:41-47 | an empty write can set it |
| EventLog.CommandRun.Push | src/sandboxpilot/worker/commands.py:90-98 | numbers the event and evicts until the rest fits or one is left |
| EventLog.CommandRun.Finish | src/sandboxpilot/worker/commands.py:105-116 | pushes the last event and marks the end |
| EventLog.CommandRun.Pending | src/sandboxpilot/worker/commands.py:130-130 | what a subscriber picks up is a suffix of the retained events |
| EventLog.KeptIsSuffix | src/sandboxpilot/worker/commands.py:90-98 | retained events are a block of consecutive numbers ending at the newest |
| EventLog.KeptIsLongest | src/sandboxpilot/worker/commands.py:95-98 | the longest such block within the byte limit, or the newest event alone |
| EventLog.KeptSnoc | src/sandboxpilot/worker/commands.py:95-98 | evicting after every event keeps the same block as evicting once at the end |
| EventLog.LookReturns | src/sandboxpilot/worker/commands.py:129-134 | a look starts at the cursor unless that was evicted, and reaches the newest event |
| EventLog.Subscription.LookAt | src/sandboxpilot/worker/commands.py:128-140 | the subscriber's code under the lock is the look step |
| EventLog.Subscription.Yield | src/sandboxpilot/worker/commands.py:135-139 | its code around a yield is the deliver step |
| EventLog.StepKeepsInv | src/sandboxpilot/worker/commands.py:90-140 | every step of writer and subscriber keeps the invariant |
| EventLog.OnlyEvictedEventsAreSkipped | src/sandboxpilot/worker/commands.py:125-140 | over every interleaving yielded numbers strictly increase, events are the logged ones, and only evicted ones are skipped |
| EventLog.SubscriberSeesTheEnd | src/sandboxpilot/worker/commands.py:135-140 | a subscriber ends only after the command, with the last event yielded, and yields nothing after a terminal one |
| EventLog.NothingEvictedNothingMissed | src/sandboxpilot/worker/commands.py:125-140 | if nothing it asked for was evicted, it has yielded exactly the log from its start |
| TarHeader.ValueOfOctal | src/sandboxpilot/utils/tarstream.py:16-22 | octal digits read back as the number written |
| TarHeader.ParseOfBlock | src/sandboxpilot/utils/tarstream.py:84-90 | for every header with values in range the reader recovers the size from the block the writer makes, checksum included, and by the type byte a file, a directory or neither |
| TarHeader.OctalIs | src/sandboxpilot/utils/tarstream.py:16-22 | the digits written, one by one |
| TarHeader.BlockIs | src/sandboxpilot/utils/tarstream.py:16-22 | where the fields stand in a block, and that its checksum is the sum of all its bytes with spaces in place of the checksum |
| TarHeader.DamageIsNoticed | src/sandboxpilot/utils/tarstream.py:87-90 | a header in which any one byte outside the checksum differs is invalid |
| TarHeader.BadNumberIsInvalid | src/sandboxpilot/utils/tarstream.py:87-90 | so is one with a number field that does not start with a digit, white space or NUL |
| TarHeader.SpacesAreIgnored | src/sandboxpilot/utils/tarstream.py:84-90 | white space around the digits of a number field changes nothing |
| TarHeader.ParseOfSignedBlock | src/sandboxpilot/utils/tarstream.py:84-90 | a checksum of signed bytes is read like the usual one |
| Tar.PaddingAgrees | src/sandboxpilot/utils/tarstream.py:25-27 | the writer's padding and the reader's rounding agree and give whole blocks |
| Tar.SingleFileTar | src/sandboxpilot/utils/tarstream.py:30-44 | header, content, padding and two zero blocks exactly when the body has the declared size; otherwise the error for too much or too little, after exactly the chunks that fit |
| Tar.Buffer.Read | src/sandboxpilot/utils/tarstream.py:64-74 | the next bytes of the stream, whatever its chunks |
| Tar.Buffer.Skip | src/sandboxpilot/utils/tarstream.py:76-81 | drops exactly that many, or all there is |
| Tar.FirstRegularFile | src/sandboxpilot/utils/tarstream.py:93-124 | content and ending depend on the bytes of the archive alone, not on its chunks |
| Tar.Content | src/sandboxpilot/utils/tarstream.py:110-118 | the loop over a file's content |
| Tar.ExtensionsAreSkipped | src/sandboxpilot/utils/tarstream.py:123-124 | any number of entries in front whose type byte is not one of a file or directory change nothing |
| Tar.DirectoriesAreRefused | src/sandboxpilot/utils/tarstream.py:118-122 | a directory behind any such entries ends in the error, with nothing returned |
| Tar.DamagedArchiveIsRefused | src/sandboxpilot/utils/tarstream.py:84-90 | a damaged header behind any such entries ends in the error, with nothing returned |
| Tar.NothingIsFound | src/sandboxpilot/utils/tarstream.py:102-107 | after such entries alone there is no regular file |
| Tar.RoundTrip | src/sandboxpilot/utils/tarstream.py:93-124 | for every content, every type byte of a file, every chunking and every list of extension entries reading gives the content back, and the length is a multiple of 512 |
| Tar.TruncationIsNoticed | src/sandboxpilot/utils/tarstream.py:111-115 | an archive cut anywhere inside the content ends in an error after yielding what there was |
| Sse.ParseLines | src/sandboxpilot/control/worker_client.py:34-45 | the line-based parser computes the fold over its lines |
| Sse.SpacesDiffer | src/sandboxpilot/control/worker_client.py:39-39 | where the two languages differ on the white space they strip |
| Sse.ParseChunks | sdk/typescript/src/index.ts:347-376 | the incremental parser's events depend on the text alone, not on its chunks |
| Sse.BreakIsStable | sdk/typescript/src/index.ts:364-368 | more text never moves the first blank line |
| SseLaws.BlocksAreLines | sdk/typescript/src/index.ts:351-374 | for every text, searching blank lines in a buffer reads the same events as going line by line |
| SseLaws.LinesAppend | sdk/typescript/src/index.ts:353-356 | splitting at LF or CRLF commutes with joining lines |
| SseRoundTrip.RoundTrip | src/sandboxpilot/schemas/commands.py:103-104 | printed events with clean payloads are read back by either parser, with either line end and the lines each client really cuts |
| SseRoundTrip.ParsersAgree | src/sandboxpilot/control/worker_client.py:34-45 | for JSON objects without line feeds the incremental parser returns the payloads for every chunking and either line end, and the line-based one does too if none contains a line separator |
| SseRoundTrip.LongPayloadIsCut | src/sandboxpilot/control/worker_client.py:34-45 | a payload that takes more than one line comes back shorter, whatever it contains |
| SseRoundTrip.SeveralDataLines | src/sandboxpilot/control/worker_client.py:38-43 | a block with several data lines is one event, whose lines they are |
| SseRoundTrip.SpaceIsOptional | src/sandboxpilot/control/worker_client.py:38-39 | the space behind the colon is not needed, and other fields are passed over |
| SseRoundTrip.SurvivesIff | src/sandboxpilot/schemas/commands.py:103-104 | a client returns a printed payload exactly when it is one line to that client and has no white space to lose |
| SseRoundTrip.ClientsAgreeIff | src/sandboxpilot/control/worker_client.py:195-200 | both clients return a JSON object exactly when it contains no separator of the Python client; without control characters exactly when U+0085, U+2028 and U+2029 are not in it |
| Firewall.BuildRules | src/sandboxpilot/worker/firewall.py:58-85 | an error exactly unless the name has one to fifteen letters, digits, dashes, dots or underscores, a final line feed aside; else exactly the plan |
| Firewall.ApplyRules | src/sandboxpilot/worker/firewall.py:96-112 | the loop with its skip flag runs the plan as the interpreter says and collects exactly its warnings |
| FirewallLaws.RunRebuild | src/sandboxpilot/worker/firewall.py:62-74 | a chain is rebuilt whether or not it existed |
| FirewallLaws.RunHook | src/sandboxpilot/worker/firewall.py:50-55 | check-then-insert leaves the jump in place once |
| FirewallLaws.PlanRuns | src/sandboxpilot/worker/firewall.py:96-112 | the chains and warnings after a plan, from any chains |
| FirewallLaws.NoWarningsIff | src/sandboxpilot/worker/firewall.py:105-112 | no warning exactly when both parent chains exist |
| FirewallLaws.PlanIsIdempotent | src/sandboxpilot/worker/firewall.py:96-112 | from any chains a second application changes nothing |
| FirewallLaws.HooksOnce | src/sandboxpilot/worker/firewall.py:50-55 | each hook is there max(initial count, 1) times |
| FirewallPackets.WalkForward | src/sandboxpilot/worker/firewall.py:62-74 | the forward chain rejects exactly what the policy forbids and returns for everything else |
| FirewallPackets.AllowedIsUnchanged | src/sandboxpilot/worker/firewall.py:58-85 | a packet the policy allows is treated as before from any rule of the old chains |
| FirewallPackets.ForwardedPackets | src/sandboxpilot/worker/firewall.py:58-75 | with no prior hook, a forwarded packet is rejected exactly when it comes from the interface, is not established, and goes to a blocked address or, with isolation, back to the interface; otherwise it gets its old verdict |
| FirewallPackets.HostPackets | src/sandboxpilot/worker/firewall.py:76-84 | a packet to the host is rejected exactly when it comes from the interface and is not established; otherwise it gets its old verdict |
| FirewallPackets.OtherPacketsAreUnchanged | src/sandboxpilot/worker/firewall.py:58-85 | packets from other interfaces and of established connections are treated as before in every old chain |
| FirewallPackets.BlockedIff | src/sandboxpilot/worker/firewall.py:24-30 | the blocked ranges as address intervals |
| Uuid7.Pack | src/sandboxpilot/utils/ids.py:32-39 | shifts, masks and ors give the layout of version 7 |
| Uuid7.Generator.Generate | src/sandboxpilot/utils/ids.py:21-39 | version 7, the variant, the clock or the last time, and the random bits or the counter stand at their places in the value, and the two globals advance accordingly |
| Uuid7.OrDisjoint | src/sandboxpilot/utils/ids.py:34-38 | or-ing fields that do not overlap adds them |
| Uuid7.PartsAreRecovered | src/sandboxpilot/utils/ids.py:32-39 | version, variant, time and random part can be read back; 128 bits |
| Uuid7.TimeIsLatest | src/sandboxpilot/utils/ids.py:22-31 | over any clock readings an identifier carries the latest one so far |
| Uuid7.NextIsGreaterIff | src/sandboxpilot/utils/ids.py:22-31 | one value exceeds the one before exactly when the counter stays below 2^74 |
| Uuid7.IncreasingIff | src/sandboxpilot/utils/ids.py:19-39 | for any clock readings below 2^48, repeats and jumps back included, values strictly increase exactly as long as the counter does not run over |

## Left out

- HTTP routes, SDK clients, command line, benchmarks, metrics, logging, templates: plumbing without a deep property.
- SSH tunnels, the provider, Docker, gVisor, shell scripts: foreign systems; the runtime is a set of operations that may
  succeed or fail, and iptables is the interpreter in `Firewall`.
- The proxy token, JSON, Pydantic, SQLite itself: the store is a map whose reads and writes are atomic.
- Task cancellation, timeouts and fairness of the event loop: only what is true between suspensions, no liveness.
- The exception branches src/sandboxpilot/control/service.py:855-885 are in `Lifecycle` but not in `KillRace`: they
  write back without reading again.
- `set_timeout` writes back the record it read without checking its state; it is not one of the modelled writers.
- `Placement` has one worker, because ledgers of different workers never touch each other, and no kill.
- Gauges and `idle_since` bookkeeping: they do not influence placement or deletion.
- `fits_empty_worker`, `short_id`, parsing of sizes and durations: easy members only.
- `_wants_warm_slot` only decides whether a warm boot is tried; the model allows one at any time, so its guard costs no
  generality.
- `_save_state` and the state file: only which containers are found matters for a restart.
- WorkerService.WorkerService.CreateBegins: does not answer a second create for an id whose first is still waiting for
  capacity or being discarded, or that a delete is holding; and the runs of `WorkerProtocol` send each id once.
- Idempotency.EveryRetryJoins: says nothing once housekeeping has deleted the record a late retry would join.
- TarHeader.ParseOfBlock: number fields are octal digits; Python's base-256 form, signs, prefixes and underscores read
  as a damaged header here, and sizes stay below 8^11, the width of the field. The writer's pax records for longer
  names and larger numbers are extension entries.
- Sse.ParseLines: takes its lines as given; that the HTTP client cuts them where `str.splitlines` does is that library's
  documented behaviour, and its own buffering of chunks is not modelled.
- Sse.ParseChunks: starts from decoded text; the decoder keeps incomplete byte sequences back by itself.
- SseRoundTrip.RoundTrip: an event is the text of its payload; reading it as JSON is left out.
- EventLog.CommandRun.Finish: is one step, because nothing suspends between the last event and the end mark.
- FirewallPackets.ForwardedPackets: starts at DOCKER-USER and INPUT, needs that nothing jumps into the two chains or into
  INPUT yet, and takes a depth of jumps, which the kernel bounds by forbidding circles.
- `verify_rules` and bridge_interface_for_network: string look-ups.

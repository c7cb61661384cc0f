# Phynned: verified models

Phynned moves Windows processes between the two core complexes of a CPU by changing their affinity
masks, and puts every mask back. These Dafny modules model the parts of it where correctness depends
on more than one function: the crash-durable revert protocol, the placement scheduler, the tick order
of the graph runtime, the configuration file, the policy engine, the agent's gates, the anti-cheat
probe, and five smaller state machines. `dafny verify dfyconfig.toml` checks all of it.

## How it is organised

`Common` holds the integer types and the case folding that several modules share.

**The revert protocol.** `Bytes` and `DiskRecord` are the 112-byte journal slots as bytes: encoding,
what a reader sees, the in-place flip, torn tails. `RevertJournal` has the specification of the index
and of recovery (`KeyedLists`, `JournalSpec`) and the class that keeps file and index. `Placement` is
the machine - processes, slots, active table, log - with each effect of the executor as a function.
`CrashSafety` runs that machine in micro-steps (append, Set, flip, activate, retire, ...) next to the
dead-man, a process with steps and a journal index of its own, with a crash of either, a process exit,
a new process or a change of rights allowed between any two, and any number of restarts.
`HeldProcesses`, `CrashRuns`, `DeadManRaces`, `Recovery`, `RunLaws` and `ActiveTable` draw the
consequences, and `JournalOnDisk` joins the runs to the bytes of the file. `PinEffects` and `RevertEffects`
say what a pin and a revert do to rows, processes, slots and log, without the steps.
`ActionExecutor` and `DeadMan` are the two clients of the journal, written as methods and proved to be
those functions. Each process carries its original mask as a history value that no code reads.

**Scheduler.** `Scheduler` is the greedy placement as functions and as the loops of the code, proved
equal; `SchedulerLaws` proves what a plan guarantees, `SchedulerChoice` which core a node gets, criterion
by criterion, `SchedulerOrder` when the order of the cores matters.

**Graph runtime.** `TickOrder` is Kahn's algorithm with its fallback, and the start and stop sequences.

**Configuration.** `ConfigText` is the line grammar (fgets chunks, keys, quoted strings, strtoull),
`ConfigStore` the printer and the parser, `ConfigRoundTrip` and `ConfigLimits` the round trip and its
exact limit, `ConfigReading` what becomes of a file that was edited by hand.

**The agent.** `PolicyEngine` is one evaluation cycle and `PolicyEffects` what its decisions mean;
`UserRules` the rule table; `AgentGates` the commands, modes and placement passes of a tick on the machine of
`Placement`. `AgentEffects` says what each command and each pass does to the agent, `AgentTicks` puts these
into whole ticks and runs, and `AgentRuntime` is the main loop as methods. `AcOracle` is the anti-cheat oracle,
`AcProbe` the per-game memory and the probe. `UserPlacement` says when a user's rule takes effect, and
`AgentRuns` puts the engine's decisions and the probes into whole runs of the agent.

**Smaller pieces.** `PidHash` and `PidSlots` (collector), `GregorianDay` (age of learned entries),
`BenchRunner` (five-run benchmark), `FrameStats` (order statistics of a recording).

The system is environment: whether a Set is granted, what a query answers, the clock, the contents of
the process table, the answers of PresentMon and of the drivers' list are parameters or fields.

## Results worth reading first

- `CrashSafety.CrashSafe`, `CrashRuns.RestartRestores`: after any run, with crashes anywhere and a
  dead-man interleaved anywhere, recovery leaves every living process at its original mask. The
  assumptions are the cases of `CrashSafety.Enabled`, listed under "Left out"; what happens without them
  is in `CrashRuns.LastPinWins`, `CrashRuns.UnloggedPin` and `DeadManRaces.LostIff`.
- `JournalOnDisk.BytesRestore`, `JournalOnDisk.Restart`: the same from the bytes that a run has left,
  wherever in a write the machine stopped.
- `HeldProcesses.MovedIsHeld`, `HeldProcesses.PinsFindOriginalMask`: the agent has a row for every process
  it moved, if only rows of dead processes are pruned.
- `DiskRecords.AppendVisibleIffWhole`: the journal is not truncated when it is opened, and appending is
  safe exactly on files of whole slots.
- `Recovery.SecondPassIdleIffTidy`: the dead-man is called idempotent; it is, exactly when no older slot
  of a key is unresolved. `RunLaws.SuccessfulRunsTidy` says which runs keep it so, and
  `RunLaws.SecondWalkFindsFailedPin` is one that does not.
- `ActiveTable.LogAccountsForTable`: over any sequence of calls the log accounts for the table.
- `SchedulerOrders.OrderMattersIff`: exactly when a plan is the same in every order of the cores.
- `ConfigLimits.RoundTripIffPathsFit`: loading what was saved gives it back exactly when every path has
  at most 244 characters, although the field holds 259.
- `AgentRuns.EngineKeepsGates`, `AgentRuns.OnlyEligiblePlaced`, `AgentRuns.OneOpenPerGame`,
  `AgentGates.PausedPlacesNothingIff`: the modes hold at every tick, only eligible processes are placed
  automatically, no game is opened twice over any run, and pausing does not stop the corral.
- `UserPlacements.AlwaysRuleTakesEffectIff`: which processes end a tick on the mask of the user's rule.
- `AgentTicks.TickMeaning`, `AgentTicks.RunMeaning`: what any tick and any run of the agent do, command by
  command and process by process, said of the states before and after.
- `AcOracles.OracleMeaning`, `AgentRuns.LiveAntiCheatOverRuns`: when a game may be opened, and that over any run
  nothing opens one beside a live anti-cheat.
- `SchedulerChoices.PlacedOnBest`, `SchedulerChoices.WorseCoreIsNotTaken`: the weights of the criteria.
- `PolicyEffects.NobodyOverlooked`, `PolicyEffects.OnlyCompetitorsMoved`: whom the load defense moves.
- `TickOrder.GraphRuntime.BuildTickOrder`, `PolicyEngines.PolicyEngine.Evaluate`,
  `PidHashes.PidHash.Insert`, `BenchRunners.DoneIsComplete`.

## Where the code and its documentation differ

The models follow the code.

- The dead-man is documented as idempotent and safe to run anytime (`tools/phynned-revert/main.cpp:12`).
  The first holds exactly on tidy journals (`Recovery.SecondPassIdleIffTidy`). The second holds in any
  interleaving with the agent (`CrashSafety.DeadManKeepsInv`) unless it reads the journal between an
  append and its Set; `DeadManRaces.LostIff` says exactly which interleavings then lose the process.
- A pin is documented to be on disk before the mask changes (`action/src/ActionExecutor.cpp:186`); the Set
  goes ahead when the write fails or there is no journal. `CrashRuns.UnloggedPin` says exactly which of
  those processes recovery still brings back.
- The scheduler's comment promises determinism regardless of vector order
  (`framework/scheduler/src/Scheduler.cpp:28`); `SchedulerOrders.OrderMattersIff` is the exact condition.
- `is_complete` is documented as true iff every node got a core
  (`framework/scheduler/include/phyriad/scheduler/Placement.hpp:146`); `SchedulerLaws.CompleteMeansIff`
  says what it is true of, and exactly when the two agree. A core outside the budget counts as well
  (`SchedulerOrders.LastResortBreaksBudget`).
- The config parser is documented as reading decimal integers only (`config/src/ConfigStore.cpp:10`);
  core masks may be hexadecimal, and are saved so.
- `gregorian_day` is commented as off by up to two days near leap years
  (`learn/src/PerGameMemory.cpp:639`); it is exact.
- The telemetry of the CCD load defense is documented as updated by every evaluation
  (`policy/include/phynned/policy/PolicyEngine.hpp:119`); an evaluation without targets or rules leaves
  it as it was.
- A user pin is documented to win over automatic placement (`core/src/AgentRuntime.cpp:1653`); it
  does on processes without a row, as long as the table has room (`UserPlacements.UserPinTakesIff`,
  `UserPlacements.AlwaysRuleTakesEffectIff`); `UserPlacements.EarlierRowWins` is a run in which it loses.
- The comments of revert say that the log row carries the default mask
  (`action/src/ActionExecutor.cpp:399`); it carries the captured one.
- The probe verdict is called permanent (`action/src/AcProbe.cpp:78`); it is stored exactly when its key
  fits the entry and the table has room (`AcProbes.LabelSticksIff`), and once stored it can be replaced only
  by that of a longer name that is cut to the same one (`AcProbes.VerdictsArePermanent`).

## Model

| member | source | states |
|---|---|---|
| Bytes.LeRoundTrip | action/src/RevertJournal.cpp:41-53 | a little-endian field reads back as the number written |
| Bytes.FromLeRoundTrip | action/src/RevertJournal.cpp:41-53 | every byte string of a field is the image of one number |
| DiskRecords.DecodeEncode | action/src/RevertJournal.cpp:41-55 | a slot reads back as the record written into it |
| DiskRecords.EncodeDecode | action/src/RevertJournal.cpp:41-55 | every 112-byte string is the image of exactly one record |
| DiskRecords.Layout | action/src/RevertJournal.cpp:41-53 | the offset of each field in a slot, least significant byte first |
| DiskRecords.CopyStrReadBack | action/src/RevertJournal.cpp:58-65 | the name field reads back as the first 63 characters of the name up to its terminator |
| DiskRecords.ScanAt | action/src/RevertJournal.cpp:222-243 | slot k of a scan is the k-th 112-byte block, and the scan ends at the first short block or wrong magic |
| DiskRecords.ScanEncoded | action/src/RevertJournal.cpp:222-243 | records followed by fewer than 112 bytes or by a wrong magic are read as the records alone |
| DiskRecords.FlipIsOneField | action/src/RevertJournal.cpp:298-309 | the 4-byte write at offset 4 of a slot changes that record's status and no other byte of the file |
| DiskRecords.FlipSeen | action/src/RevertJournal.cpp:298-309 | readers see exactly one status change, whatever follows the slots |
| DiskRecords.AppendWhole | action/src/RevertJournal.cpp:212-220 | on a file of whole slots an append adds exactly that record and keeps the slots whole |
| DiskRecords.TornAppend | action/src/RevertJournal.cpp:212-220 | an append cut short at any byte is invisible to every reader |
| DiskRecords.AppendVisibleIffWhole | action/src/RevertJournal.cpp:148-182 | appended records are read back, all of them, if and only if no torn bytes end the file |
| KeyedLists.UpsertMeaning | action/src/RevertJournal.cpp:232-240 | the linear search-and-replace of the index is a map update that keeps keys distinct |
| JournalSpec.IndexMeaning | action/src/RevertJournal.cpp:222-243 | the index maps each key to its last slot, and find_offset's scan agrees for every key |
| JournalSpec.SameKeysSameIndex | action/src/RevertJournal.cpp:298-309 | a flip leaves the index of the whole file unchanged |
| JournalSpec.RecoveredMeaning | action/src/RevertJournal.cpp:320-353 | recovery returns each key with an unresolved slot once, described by the last such slot |
| RevertJournals.RevertJournal.Open | action/src/RevertJournal.cpp:148-182 | opening indexes the readable slots of whatever the file holds |
| RevertJournals.RevertJournal.Close | action/src/RevertJournal.cpp:184-192 | closing drops the index and keeps the file |
| RevertJournals.RevertJournal.RebuildIndex | action/src/RevertJournal.cpp:222-243 | the loop computes the index of the scanned slots |
| RevertJournals.RevertJournal.FindOffset | action/src/RevertJournal.cpp:245-263 | with a current index the answer is the offset of the last slot of the key |
| RevertJournals.RevertJournal.AppendRecord | action/src/RevertJournal.cpp:212-220 | the bytes written go to the end of the file |
| RevertJournals.RevertJournal.RecordPending | action/src/RevertJournal.cpp:266-296 | a full write adds one PENDING record and its index entry; a torn one adds neither |
| RevertJournals.RevertJournal.SetStatus | action/src/RevertJournal.cpp:298-309 | the last slot of the key takes the status, other slots and the index stay |
| RevertJournals.RevertJournal.MarkApplied | action/src/RevertJournal.cpp:311-313 | the last slot of the key becomes APPLIED |
| RevertJournals.RevertJournal.MarkReverted | action/src/RevertJournal.cpp:315-317 | the last slot of the key becomes REVERTED |
| RevertJournals.RevertJournal.Recover | action/src/RevertJournal.cpp:320-353 | the loop returns the survivors of the scanned slots |
| CrashSafety.StepKeepsInv | action/src/ActionExecutor.cpp:139-235 | every micro-step of the agent or the dead-man, every crash, restart, process start and exit keeps the write-ahead invariant |
| CrashSafety.RunKeepsInv | action/src/ActionExecutor.cpp:139-235 | the invariant holds after every legal run |
| CrashSafety.CrashSafe | action/src/ActionExecutor.cpp:50-69 | when the walk of a starting agent, or of a dead-man without one, ends, every living process is at its original mask, over all runs with crashes and interleavings |
| CrashSafety.DeadManKeepsInv | tools/phynned-revert/main.cpp:65-90 | each step of a dead-man beside the agent keeps the invariant, whatever the agent did since the tool read the journal |
| HeldProcesses.MovedIsHeld | action/src/ActionExecutor.cpp:139-235 | if only rows of dead processes are pruned, an idle agent with a journal has a row with the true previous mask for every process that is moved |
| HeldProcesses.PinsFindOriginalMask | action/src/ActionExecutor.cpp:160-168 | in such runs a process without a row is at its original mask, so a pin captures that |
| CrashSafety.LiveMatches | action/src/RevertJournal.cpp:402-418 | the identity check lets through exactly the process with the recorded pid and creation time |
| CrashSafety.RecoveredCovers | action/src/RevertJournal.cpp:320-353 | recovery starts from a list that names every process still to be restored |
| CrashRuns.PinRunsOut | action/src/ActionExecutor.cpp:160-235 | the micro-steps of a pin, uninterrupted, are the executor's apply |
| CrashRuns.RevertRunsOut | action/src/ActionExecutor.cpp:432-452 | the micro-steps of a revert are the executor's revert |
| CrashRuns.RecoverRunsOut | action/src/ActionExecutor.cpp:50-69 | the micro-steps of a walk are the recovery pass |
| CrashRuns.RestartRestores | action/src/ActionExecutor.cpp:50-69 | at any point of any run, a pass over the file as it is then restores every living process |
| CrashRuns.RestoredIff | action/src/ActionExecutor.cpp:50-69 | with truthful slots the pass leaves a living process at its original mask exactly when it is there already or has an unresolved slot |
| CrashRuns.PassRestores | action/src/ActionExecutor.cpp:50-69 | under the slot invariant the pass changes nothing but masks, and sets each to the original |
| JournalOnDisk.AppendIsWrite | action/src/RevertJournal.cpp:212-220 | an append of a run writes the record behind the slots |
| JournalOnDisk.FlipIsWrite | action/src/RevertJournal.cpp:298-309 | a flip of a run is the write of four bytes at the offset the index has for the key |
| JournalOnDisk.ToolFlipIsWrite | tools/phynned-revert/main.cpp:82-88 | the dead-man's flip writes them at the offset its own index has |
| JournalOnDisk.TornFlip | action/src/RevertJournal.cpp:298-309 | a flip cut short after any of its four bytes has happened or has not |
| JournalOnDisk.BytesRestore | action/src/ActionExecutor.cpp:50-69 | after any run, recovery from the slots' bytes and a beginning of one more record restores every living process |
| JournalOnDisk.Restart | action/src/ActionExecutor.cpp:28-70 | a new executor on those bytes, and on the processes the run has left, restores every living process |
| CrashRuns.ToolRunsOut | tools/phynned-revert/main.cpp:65-90 | the steps of the dead-man, uninterrupted, are the recovery pass |
| CrashRuns.DeadManBetweenAppendAndSet | tools/phynned-revert/main.cpp:65-90 | a whole walk between an append and its Set: a crash after the Set is repaired exactly when an older slot of the key is unresolved |
| DeadManRaces.LostIff | tools/phynned-revert/main.cpp:65-90 | a dead-man that reads between an append and its Set, in any interleaving: the process is lost exactly when its mask was set back before the Set, its slot flipped and not flipped again, and no older slot is unresolved |
| CrashRuns.LastPinWins | action/src/ActionExecutor.cpp:167-188 | recovery brings a process back to where its last pin found it, so to its original mask exactly if it was there |
| CrashRuns.UnloggedPin | action/src/RevertJournal.cpp:281-285 | a pin whose record was not written is brought back exactly when an older slot of the key speaks for it |
| Recovery.PassWrites | tools/phynned-revert/main.cpp:65-90 | a pass writes a live process exactly when the last unresolved slot of its key matches it, and writes that slot's mask |
| Recovery.PassResolves | tools/phynned-revert/main.cpp:65-90 | a pass resolves the last slot of each open key and changes no other slot, row or process |
| Recovery.PassSetsMasks | action/src/ActionExecutor.cpp:50-69 | from the slots directly: a living process is set to the mask of the last unresolved slot of its pid and creation time, if it can be read, identified and set, and otherwise keeps its mask |
| Recovery.SecondPassIdleIffTidy | tools/phynned-revert/main.cpp:12-14 | a second pass finds nothing exactly when superseded slots were resolved before the first |
| Recovery.PassTwiceIsOnce | tools/phynned-revert/main.cpp:12-14 | on such journals a second pass is the identity |
| RunLaws.SecondWalkFindsFailedPin | tools/phynned-revert/main.cpp:12-14 | a legal run - a denied pin, then a granted one - after which a second walk still finds the process |
| ActiveTable.LogAccountsForTable | action/src/ActionExecutor.cpp:91-113 | over any sequence of pins, priority applies, reverts and prunes, and any change of the world between them, applies logged minus reverts logged is the number of rows, at most 32, one per pid |
| RunLaws.SuccessfulRunsTidy | action/src/ActionExecutor.cpp:186-214 | while no forward Set fails, every run keeps the journal tidy and a second pass idle |
| ActiveTable.RetireOne | action/src/ActionExecutor.cpp:396-412 | retiring a pid removes that one row and keeps the order |
| ActiveTable.RevertSelection | action/src/ActionExecutor.cpp:471-513 | reverting a selection removes exactly the selected rows, in stable order, with one log entry each |
| ActiveTable.PruneAccounted | action/src/ActionExecutor.cpp:527-557 | pruning logs one revert for each row it drops |
| RevertEffects.SelectionTakenBack | action/src/ActionExecutor.cpp:471-513 | reverting a selection from a table with one row per pid: the selected rows go and no others, in order; the process of each is on its captured mask if the Set is granted; the last slot of each is resolved; each is logged; nothing else changes |
| RevertEffects.RuleTakenBack | action/src/ActionExecutor.cpp:471-513 | for a rule and an exe filter: a row goes exactly when its rule is that one and its name is the filter up to case |
| RevertEffects.AllTakenBack | action/src/ActionExecutor.cpp:416-453 | reverting all empties the table and puts every held process back |
| RevertEffects.PidTakenBack | action/src/ActionExecutor.cpp:351-413 | reverting a pid takes back its row alone |
| PinEffects.PinMeaning | action/src/ActionExecutor.cpp:160-235 | a pin: mask, row with the mask found, record of the same, its status by whether the Set is granted, the older slot that is flipped if the record was not written, and that nothing else changes |
| PinEffects.PriorityMeaning | action/src/ActionExecutor.cpp:216-235 | a priority apply adds its row and log entry and touches neither slots nor masks |
| ActionExecutors.ActionExecutor.constructor | action/src/ActionExecutor.cpp:28-70 | opening the journal and reconciling is the recovery pass, before anything else |
| ActionExecutors.ActionExecutor.FindActive | action/src/ActionExecutor.cpp:77-82 | the row of a pid is found when there is one |
| ActionExecutors.ActionExecutor.Apply | action/src/ActionExecutor.cpp:139-235 | an active pid or a full table of 32 changes nothing; otherwise the process, if the Set is granted, is on the mask, and row, slot, log and older slots are as `PinMeaning` says, or a priority row is added; behind torn bytes the same but for the slots |
| ActionExecutors.ActionExecutor.ApplyPin | action/src/ActionExecutor.cpp:160-214 | capture, PENDING on disk, Set, flip: journal and processes as in a pin without its row; with a short write as in a pin without its record; behind torn bytes the processes |
| ActionExecutors.ActionExecutor.Revert | action/src/ActionExecutor.cpp:351-413 | the row of the pid goes, if there is one, and no other: its process is back on the captured mask if the Set is granted, its last slot is resolved, one log entry is added |
| ActionExecutors.ActionExecutor.RevertAll | action/src/ActionExecutor.cpp:416-453 | every row goes: each process is back on its captured mask if the Set is granted, each last slot is resolved, each revert logged, nothing else changes |
| ActionExecutors.ActionExecutor.RevertByRuleId | action/src/ActionExecutor.cpp:471-513 | a row stays exactly when its rule differs, or a filter is given and its name differs from it in length or in some letter; processes of rows that stay keep their masks; the count is the number of rows that went |
| ActionExecutors.ActionExecutor.Prune | action/src/ActionExecutor.cpp:527-557 | exactly the rows of absent pids go, with a log entry each and no system call |
| ActionExecutors.ActionExecutor.AppliedMask | action/src/ActionExecutor.cpp:602-609 | the mask held on a pid by a process-level row, or 0 |
| DeadMan.RunDeadMan | tools/phynned-revert/main.cpp:65-90 | the walk is the executor's recovery pass; a dry run changes nothing; the counts are those of the survivors |
| DeadMan.NoFailureMeansRestored | tools/phynned-revert/main.cpp:65-90 | every survivor is counted once, and failed is 0 exactly when the Set of every live one is granted |
| DeadMan.NoFailureMeansAtMask | tools/phynned-revert/main.cpp:65-90 | without failures every live survivor is at its captured mask after the walk |
| DeadMan.DryRunPredicts | tools/phynned-revert/main.cpp:77 | a dry run reports as reverted what the walk reverts or fails to revert |
| DeadMan.CountsExact | tools/phynned-revert/main.cpp:65-90 | the three counts are the numbers of survivors that are alive and granted, gone or replaced, and alive and denied |
| Scheduler.ScoreCore | framework/scheduler/src/Scheduler.cpp:131-205 | the accumulated value is the score that `ScoreMeaning` puts in terms of the cores and the earlier nodes |
| Scheduler.RunPass | framework/scheduler/src/Scheduler.cpp:335-350 | the loop computes the pass over the listed cores |
| Scheduler.FindFreqCcd | framework/scheduler/src/Scheduler.cpp:265-287 | the accumulators and their maximum give the frequency CCD |
| Scheduler.ChooseCore | framework/scheduler/src/Scheduler.cpp:332-370 | filtered pass, then unfiltered pass, then first core |
| Scheduler.ComputePlacement | framework/scheduler/src/Scheduler.cpp:226-407 | the plan of the greedy loop, with its degenerate cases |
| SchedulerLaws.PassWins | framework/scheduler/src/Scheduler.cpp:335-350 | a pass picks a highest-scoring candidate, and of those the lowest logical id |
| SchedulerLaws.FreqCcdMeaning | framework/scheduler/src/Scheduler.cpp:262-287 | with two CCDs the filter is one with the highest truncated average, of several the first core's if that is one of them; otherwise it is none |
| SchedulerLaws.NoLastResort | framework/scheduler/src/Scheduler.cpp:351-370 | if one core passes the static budget and siblings are paired, no node takes the last resort |
| SchedulerLaws.PlanIsSound | framework/scheduler/src/Scheduler.cpp:102-128 | every placed node obeys its effective budget and no two nodes sit on both siblings of a pair |
| SchedulerLaws.PlanShape | framework/scheduler/src/Scheduler.cpp:298-402 | node i has entry i: external exactly for UI nodes, with the promised priority, NUMA routing and hard pin |
| SchedulerLaws.EfficiencyCoresAreForIo | framework/scheduler/src/Scheduler.cpp:321-323 | with efficiency cores excluded, only IO nodes land on one |
| SchedulerChoices.ScoreMeaning | framework/scheduler/src/Scheduler.cpp:131-205 | the score of a core in terms of V-Cache, NUMA node, GPU, mate, number of conflicting nodes on its CCX, and use |
| SchedulerChoices.AllowedMeaning | framework/scheduler/src/Scheduler.cpp:102-128 | which cores a node may have: efficiency cores, budgets, busy siblings |
| SchedulerChoices.PlacedOnBest | framework/scheduler/src/Scheduler.cpp:332-370 | the core a node gets is allowed and weighs no less than any other allowed core between which no CCD preference decides, and of equal ones has the lowest id |
| SchedulerChoices.WorseCoreIsNotTaken | framework/scheduler/src/Scheduler.cpp:131-205 | better in one criterion wins; V-Cache outweighs a conflict, a conflict a mate or an unused core, either of these the NUMA node, that the GPU |
| SchedulerChoices.MateEqualsUnused | framework/scheduler/src/Scheduler.cpp:131-205 | a mate on a used core weighs as much as an unused core without one: the lower id decides |
| SchedulerChoices.CcdAskedFor | framework/scheduler/src/Scheduler.cpp:258-296 | a node goes to the CCD it asks for if that has an allowed core |
| SchedulerOrders.OrderDoesNotMatter | framework/scheduler/src/Scheduler.cpp:27-29 | permuting the cores leaves the plan unchanged if one core passes the budget and every CCD a placed node asks for is unique |
| SchedulerOrders.OrderMattersIff | framework/scheduler/src/Scheduler.cpp:332-370 | the plan is the same in every order exactly when there is one core, or each placed node has an eligible core and makes the same choice under every CCD its preference fits |
| SchedulerOrders.SameChoiceIff | framework/scheduler/src/Scheduler.cpp:351-367 | two CCDs give a node the same core exactly when at most one has a candidate and that one holds the best core of all |
| SchedulerOrders.FilterReached | framework/scheduler/src/Scheduler.cpp:258-287 | every CCD that a preference fits is the filter in some order of the cores |
| SchedulerOrders.TieGoesToFirst | framework/scheduler/src/Scheduler.cpp:258-287 | two tied CCDs: the node lands on the CCD whose core is listed first |
| SchedulerOrders.LastResortBreaksBudget | framework/scheduler/src/Scheduler.cpp:368-370 | under a budget that excludes every core the node sits on the first listed one |
| SchedulerLaws.CompleteMeansIff | framework/scheduler/src/Scheduler.cpp:233-246 | is_complete is true exactly with cores or without nodes, and agrees with its documentation exactly without cores or without UI nodes |
| SchedulerLaws.CompleteWithoutCore | framework/scheduler/src/Scheduler.cpp:298-310 | a complete plan in which a node has no core |
| TickOrder.GraphRuntime.BuildTickOrder | framework/runtime/src/GraphRuntime.cpp:132-170 | always a permutation; sources first if acyclic; the identity exactly when there is a cycle |
| TickOrder.SourcesFirstMeansAcyclic | framework/runtime/src/GraphRuntime.cpp:132-170 | an order of all nodes with sources first leaves no room for a cycle |
| TickOrder.NotDrainedMeansCyclic | framework/runtime/src/GraphRuntime.cpp:164-169 | a queue that stops early leaves a cycle behind |
| TickOrder.FedFromInside | framework/runtime/src/GraphRuntime.cpp:156-162 | nodes each fed from among themselves contain a cycle |
| TickOrder.GraphRuntime.Start | framework/runtime/src/GraphRuntime.cpp:298-310 | nodes start in tick order |
| TickOrder.GraphRuntime.Shutdown | framework/runtime/src/GraphRuntime.cpp:485-491 | nodes stop in reverse tick order |
| TickOrder.SourcesOutliveDestinations | framework/runtime/src/GraphRuntime.cpp:302-308 | a source starts before and stops after each of its destinations |
| ConfigText.DigitsOfPrint | config/src/ConfigStore.cpp:81-88 | reading printed digits consumes exactly them, whatever follows |
| ConfigText.DecimalRoundTrip | config/src/ConfigStore.cpp:81-88 | a printed decimal reads back in front of anything that is no digit |
| ConfigText.HexRoundTrip | config/src/ConfigStore.cpp:360-369 | every 64-bit mask printed in hexadecimal reads back |
| ConfigStore.LoadPolicies | config/src/ConfigStore.cpp:234-400 | the line loop computes the section machine over the text; a missing file gives the defaults |
| ConfigStore.SavePolicies | config/src/ConfigStore.cpp:404-508 | the printer's loops produce the lines of the configuration |
| ConfigRoundTrip.RunChunk | config/src/ConfigStore.cpp:283-289 | a printed line is read in chunks of 255 characters |
| ConfigRoundTrip.LoadOfSave | config/src/ConfigStore.cpp:234-508 | load of save is the configuration with the current version, without blank-named rules, all mask bits kept |
| ConfigLimits.LongPathIsLost | config/src/ConfigStore.cpp:283-289 | the first rule with a longer path loads back without it |
| ConfigLimits.RoundTripIffPathsFit | config/src/ConfigStore.cpp:404-508 | for every clean configuration the round trip holds if and only if every printed path has at most 244 characters |
| ConfigReadings.CommentChangesNothing | config/src/ConfigStore.cpp:283-294 | a blank or comment line, wherever it stands and however indented, changes nothing |
| ConfigReadings.KeysStayInTheirSection | config/src/ConfigStore.cpp:334-396 | a key changes only the fields of the section it stands in, and one that section does not know changes nothing |
| ConfigReadings.HeaderCommits | config/src/ConfigStore.cpp:255-332 | a header keeps the entry before it exactly if that has a name and its table has room, and starts the next one blank |
| ConfigReadings.ActionWords | config/src/ConfigStore.cpp:140-150 | only the two placing words place; any other action vetoes |
| ConfigReadings.ProfileWords | config/src/ConfigStore.cpp:118-126 | each profile but the corral one is set by its own word alone; any other word means the corral profile |
| ConfigReadings.ModeWords | config/src/ConfigStore.cpp:97-103 | assist and manual are set by their own words alone; any other means automatic |
| ConfigReadings.Switches | config/src/ConfigStore.cpp:90-95 | a switch is on exactly if its value begins with the word true |
| ConfigReadings.ConfidenceRange | config/src/ConfigStore.cpp:334-396 | a confidence above 100 means the rule's own |
| ConfigReadings.QuotedCut | config/src/ConfigStore.cpp:62-79 | a quoted value is what stands between the quotes, cut to its field, whatever surrounds it |
| ConfigReadings.NotClosed | config/src/ConfigStore.cpp:62-79 | a value without its closing quote is none |
| ConfigReadings.NumbersSaturate | config/src/ConfigStore.cpp:81-88 | a decimal number counts up to the first other character and saturates at 64 bits |
| ConfigReadings.NegativeNumbers | config/src/ConfigStore.cpp:360-369 | a negative number is 0, and as a mask counts down from two to the 64 |
| ConfigReadings.HexSaturates | config/src/ConfigStore.cpp:360-369 | a mask with either prefix counts up to the first other character and saturates |
| ConfigReadings.LoadedTablesFit | config/src/ConfigStore.cpp:255-282 | whatever the file holds, the two tables stay within 32 and 128 entries |
| ConfigReadings.ReturnsAreCut | config/src/ConfigStore.cpp:283-289 | lines that end in a carriage return and a newline read as those that end in a newline |
| ConfigReadings.FirstVersionKeepsDefaults | config/src/ConfigStore.cpp:255-258 | a file of the first version leaves profile, corral and user rules at their defaults |
| PolicyEngines.FiringExact | policy/src/PolicyEngine.cpp:318-343 | the list of firings holds exactly the matching pairs, target-major and rule-minor |
| PolicyEngines.StandardExact | policy/src/PolicyEngine.cpp:316-372 | the standard decisions are the first sixteen firings, each with its rule's own action and mask, relabelled only from Rule 1 to 7 |
| PolicyEngines.PolicyEngine.StandardPass | policy/src/PolicyEngine.cpp:318-372 | the nested loops with their break fill the buffer with that list |
| PolicyEngines.PolicyEngine.RuleFires | policy/src/PolicyEngine.cpp:322-338 | the condition loop decides the conjunction |
| PolicyEngines.PolicyEngine.CollectCandidates | policy/src/PolicyEngine.cpp:411-440 | the contending processes, in target order; who contends is `CompetesMeaning` |
| PolicyEngines.SortedPrefixIsBusiest | policy/src/PolicyEngine.cpp:445-456 | the first k of any arrangement by falling CPU share are the k busiest |
| PolicyEngines.PolicyEngine.DefensePass | policy/src/PolicyEngine.cpp:396-478 | at most eight and at most what fits: the busiest candidates follow the standard decisions |
| PolicyEngines.PolicyEngine.Evaluate | policy/src/PolicyEngine.cpp:297-481 | one cycle: buffer, count and telemetry |
| PolicyEngines.DefenseIsLast | policy/src/PolicyEngine.cpp:374-437 | no process gets Rule 8 if an earlier decision names it, nor a game, system or protected process |
| PolicyEngines.LeftOutIsLessBusy | policy/src/PolicyEngine.cpp:445-476 | a contender without a decision is no busier than any that got one, and the quota or the buffer is full |
| PolicyEngines.AutomaticIds | policy/include/phynned/policy/PolicyEngine.hpp:105-113 | with the built-in rules the engine never speaks as rule 20 or 21 |
| PolicyEngines.DecisionsAreOnTargets | policy/src/PolicyEngine.cpp:340-371 | every decision is on a target of the cycle, with the action and mask of one of its rules |
| PolicyEffects.ConditionMeaning | policy/include/phynned/policy/Condition.hpp:51-95 | which reading each field compares, with which bound and operator |
| PolicyEffects.StandardMeaning | policy/src/PolicyEngine.cpp:316-372 | at most sixteen standard decisions; each is what a rule that applies asks for, and each rule that applies is heard unless the buffer is full |
| PolicyEffects.CompetesMeaning | policy/src/PolicyEngine.cpp:411-440 | a candidate of the load defense is exactly a process that is no game and no system process, takes half a percent or more, has no protected name in any case, and is not named by a standard decision |
| PolicyEffects.NobodyOverlooked | policy/src/PolicyEngine.cpp:396-478 | with a game running and the rule on, such a process is moved unless eight were or the buffer is full, and then none that is moved is less busy |
| PolicyEffects.OnlyCompetitorsMoved | policy/src/PolicyEngine.cpp:396-478 | a Rule 8 decision means that a game runs, the rule is on and its process competes, and carries the action and mask of that rule |
| UserRules.RuleTable.constructor | core/src/AgentRuntime.cpp:529-534 | the rules of the loaded configuration, generation 0 |
| UserRules.RuleTable.Set | core/src/AgentRuntime.cpp:1130-1203 | the name-only rule of the exe is updated or added, and the generation moves on |
| UserRules.RuleTable.Remove | core/src/AgentRuntime.cpp:1204-1252 | a current request removes the slot and shifts the rest down; a stale one changes nothing |
| UserRules.GenerationCounts | core/src/AgentRuntime.cpp:1188 | the generation counts the accepted commands modulo two to the 32 |
| UserRules.AcceptedIff | core/src/AgentRuntime.cpp:1213-1214 | a request with an earlier generation is accepted exactly when the changes since are a multiple of two to the 32 |
| UserRules.StaleIndexIsSafe | core/src/AgentRuntime.cpp:2294-2311 | an accepted removal deletes exactly the rule the UI saw in that slot and keeps the others in order |
| UserRules.SetRuleGoverns | core/include/phynned/core/UserRuleLookup.hpp:92-123 | after the command the name is governed by that action, unless the table was full |
| UserRules.ChangeMeaning | core/src/AgentRuntime.cpp:1130-1252 | a set updates the first rule for the name and any path, or adds one below 128; a removal takes that slot out; a refused change changes nothing |
| UserRules.GoverningRule | core/include/phynned/core/UserRuleLookup.hpp:92-123 | the first rule for the name and any path governs; without one, the first for name and path, unless the title must not be touched |
| AgentGates.HandleKeeps | core/src/AgentRuntime.cpp:1037-1306 | every command keeps the gates |
| AgentGates.AcScanKeeps | core/src/AgentRuntime.cpp:1461-1487 | entering quiet mode reverts both kinds of rows |
| AgentGates.TickKeepsGates | core/src/AgentRuntime.cpp:1314-1317 | one tick keeps the gates |
| AgentGates.GatesHold | core/src/AgentRuntime.cpp:1664-1670 | at every tick of every run: corral rows only in GamesCorral, user pins never in Monitor, neither in quiet mode, neither on the agent itself |
| AgentGates.MonitorPlacesNothing | core/src/AgentRuntime.cpp:1309-1317 | in Monitor a tick places nothing |
| AgentGates.QuietPlacesNoUserPins | core/src/AgentRuntime.cpp:1828-1831 | in quiet mode every new row is on the process and for the rule of one of the automatic decisions |
| AgentGates.PausedPlacesNothingIff | core/src/AgentRuntime.cpp:1823-1831 | a paused tick is the corral pass alone, and leaves the rows exactly when the corral is shut or has nothing to move |
| AgentGates.CorralRespectsUsers | core/src/AgentRuntime.cpp:1834-1856 | every corral row is on a busy, unrestricted background process that no user rule, denylist or cache advice speaks for |
| AgentGates.UserPinsAreAsked | core/include/phynned/core/UserPinRule.hpp:49-108 | every user-pin row follows a rule to the CCD it names, past the anti-cheat gate, and never fights another manager |
| AgentGates.AutomationRespectsUsers | core/src/AgentRuntime.cpp:2093-2102 | automatic decisions never act on a tracked process with a user rule |
| AgentEffects.CommandMeaning | core/src/AgentRuntime.cpp:1037-1306 | the effect of every command: Pause and Revert-all empty the table, put every held process back and pause; Resume unpauses; a new differential setting empties the table; the corral switch removes rule 20 rows when it should; the profile removes the rows it ends; a removed rule takes its pins with it; nothing else changes |
| AgentEffects.ScanMeaning | core/src/AgentRuntime.cpp:1461-1487 | every third scan counts, and the begin of quiet mode takes back exactly the rows of rules 20 and 21 |
| AgentEffects.PruneMeaning | action/src/ActionExecutor.cpp:527-557 | exactly the rows of untracked pids go, logged and without a system call |
| AgentEffects.RuleMeaning | core/include/phynned/core/UserRuleLookup.hpp:92-123 | the rule the agent finds for a process is the one its table, the title and the path name |
| AgentEffects.RefusedMeaning | action/src/AcProbe.cpp:98-169 | the gate is shut exactly by a verdict Blocked, or without a verdict by the oracle or a failing call |
| AgentEffects.PassesRun | core/src/AgentRuntime.cpp:1664-1670 | when the user pass and the corral pass run, in terms of profile, pause, quiet mode, coexistence and the corral switch |
| AgentEffects.UserPinMeaning | core/src/AgentRuntime.cpp:1667-1770 | one target of the user pass: asked for exactly when rule, machine, present mask and gate allow it |
| AgentEffects.CorralMeaning | core/src/AgentRuntime.cpp:1833-1940 | one target of the corral pass: asked for exactly when it is a busy, unrestricted background process off the frequency CCD |
| AgentEffects.DecisionMeaning | core/src/AgentRuntime.cpp:2061-2167 | one decision of the apply pass: carried out exactly when neither the mode, the bad list, a user rule nor the gate stands against it |
| AgentTicks.TickMeaning | core/src/AgentRuntime.cpp:1011-2167 | one tick is the command, the pruning, the scan, the user pins, the corral and the decisions, in this order, each pass one process after the other with those effects |
| AgentTicks.RunMeaning | core/src/AgentRuntime.cpp:1011-2343 | every run from an empty table is a chain of such ticks |
| UserPlacements.UserPinTakesIff | core/src/AgentRuntime.cpp:1667-1770 | a user pin past the gate adds its row and sets the mask exactly when the process has no row, the table has room and the Set is granted |
| UserPlacements.UserPassExact | core/src/AgentRuntime.cpp:1667-1770 | the user pass adds the rows of the ready targets, in their order, up to the room there is, and makes exactly the probes of those that ask |
| UserPlacements.AlwaysRuleTakesEffectIff | core/src/AgentRuntime.cpp:1650-1656 | a process with an Always rule ends the tick on the mask of its rule exactly when it had a row with it or was served by the user pass |
| UserPlacements.EarlierRowWins | action/src/ActionExecutor.cpp:145-146 | a run in which the corral's row from an earlier tick makes the user pin lose |
| UserPlacements.PausedTickPlaces | core/src/AgentRuntime.cpp:1828-1831 | a run in which the tick that pauses gives the corral a row |
| AgentRuns.OneOpenPerGame | core/src/AgentRuntime.cpp:2103-2127 | over any run of ticks, whichever pass asks, a game identity is opened at most once if its verdict has a place, and a do-not-probe title never |
| AgentRuns.LiveAntiCheatOverRuns | core/src/AgentRuntime.cpp:2103-2127 | over any run nothing opens a game that, whenever it is tracked, must not be opened by its title or by a live anti-cheat among the drivers or services |
| AgentRuns.RunProbesLead | action/src/AcProbe.cpp:98-169 | the verdicts after a run are those that its probes, in order, lead to |
| AgentRuns.DecisionsAreEligible | core/src/AgentRuntime.cpp:1972-2053 | every automatic decision is the memory's (99) or a built-in rule's (1 to 8), and on an eligible target |
| AgentRuns.MemoryAndEngineApart | core/src/AgentRuntime.cpp:2027-2040 | the engine speaks for no process that the memory speaks for |
| AgentRuns.EngineKeepsGates | core/src/AgentRuntime.cpp:1664-1670 | with the decisions of the memory and the built-in engine, as the tick puts them together, the gates hold at every tick of every run |
| AgentRuns.OnlyEligiblePlaced | core/src/AgentRuntime.cpp:1961-1971 | over every run, a process that no tick found placement-eligible has no row except by a user rule or the corral |
| AgentRuntimes.AgentRuntime.HandleCommand | core/src/AgentRuntime.cpp:1037-1306 | from any table with one row per pid: which rows go, that their processes are put back, which mode field changes, and that nothing else does |
| AgentRuntimes.AgentRuntime.PinForUsers | core/src/AgentRuntime.cpp:1667-1770 | every target in turn: pinned to the CCD of its rule exactly when the rule, the machine, its present mask and the anti-cheat gate allow it |
| AgentRuntimes.AgentRuntime.CorralBackground | core/src/AgentRuntime.cpp:1833-1940 | every target in turn: moved to the frequency CCD exactly when it is a busy background process that is nobody else's business |
| AgentRuntimes.AgentRuntime.ApplyDecisions | core/src/AgentRuntime.cpp:2061-2167 | every decision in turn: carried out unless paused, in Monitor, on a bad or user-ruled process, or refused by the gate |
| AgentRuntimes.AgentRuntime.Run | core/src/AgentRuntime.cpp:1011-2343 | the main loop over any ticks, each as `TickMeaning` says; after the shutdown no row is left and every process held is put back |
| AcOracles.ContainsCi | observer/src/AcDriverOracle.cpp:29-41 | the nested loops find a case-insensitive occurrence exactly when there is one |
| AcOracles.NameMeaning | observer/src/AcDriverOracle.cpp:74-130 | a driver or service speaks for a live anti-cheat exactly when it names none of the resident ones and names, in any case, one of the twelve on-demand ones or a word for anti-cheat |
| AcOracles.TitleMeaning | observer/src/AcDriverOracle.cpp:132-171 | which titles are known, and which of them must not be probed |
| AcOracles.OracleMeaning | observer/src/AcDriverOracle.cpp:266-286 | a probe is forbidden exactly when the title is not one of those that may be probed, and either must not be or a driver or a service speaks for a live anti-cheat |
| AcOracles.ResidentAloneIsNoReason | observer/src/AcDriverOracle.cpp:74-130 | a resident anti-cheat alone forbids nothing |
| AcProbes.LabelSticksIff | action/src/AcProbe.cpp:81-93 | the verdict of a probe is found again exactly when its entry exists or its key fits and there is room |
| AcProbes.VerdictsArePermanent | learn/src/PerGameMemory.cpp:683-704 | no later probe and no expiry takes a verdict away, and a probe changes it exactly when its overlong name is cut to this one and its verdict is the other |
| AcProbes.NoOpenWithVerdict | action/src/AcProbe.cpp:105-115 | once there is a verdict nothing opens the process again |
| AcProbes.AtMostOneOpen | action/src/AcProbe.cpp:98-169 | over any probes and expiries, under any spelling, at most one OpenProcess per identity |
| AcProbes.FullTableForgets | learn/src/PerGameMemory.cpp:262-266 | without a place for the verdict the next probe opens the process again |
| AcProbes.ForbiddenTitlesStayClosed | observer/src/AcDriverOracle.cpp:160-171 | a do-not-probe title is never opened, whatever runs and whatever is stored |
| AcProbes.LiveAntiCheatStaysClosed | action/src/AcProbe.cpp:118-121 | over any probes and expiries, an identity that must not be opened at each of its probes is never opened |
| AcProbes.ProbeMeaning | action/src/AcProbe.cpp:98-169 | a title with a verdict or one that must not be opened leaves the memory alone; any other leaves the verdict of its three calls |
| AcProbes.LabelledMeaning | action/src/AcProbe.cpp:81-93 | a verdict goes into the first entry of the key and changes nothing else of it; without one, into a blank entry under the cut key, replacing, appended, or lost at 256 |
| AcProbes.ExpiryMeaning | learn/src/PerGameMemory.cpp:683-704 | an entry is kept or loses its result whole; identity, lock and verdict stay, locked entries stay, and an unlocked one without a valid result has none afterwards |
| AcProbes.PerGameMemory.Find | learn/src/PerGameMemory.cpp:234-244 | the first entry with the key |
| AcProbes.PerGameMemory.UpsertEntry | learn/src/PerGameMemory.cpp:252-267 | replaced, appended, or discarded when full |
| AcProbes.PerGameMemory.ExpireStale | learn/src/PerGameMemory.cpp:683-704 | the entries that are due lose their result and are counted; keys, locks and verdicts stay, and so do locked entries |
| AcProbes.ProbeAndLabel | action/src/AcProbe.cpp:98-169 | the result and the verdict stored, by what the memory, the title, the drivers and the services say; one audit row in front of each attempt to open, none when the probe is refused |
| PidHashes.PidHash.Lookup | observer/include/phynned/observer/MetricsCollector.hpp:346-355 | the slot of a stored pid, -1 for any other, tombstones notwithstanding |
| PidHashes.PidHash.Insert | observer/include/phynned/observer/MetricsCollector.hpp:330-342 | the hash gains exactly that pair, reusing the first empty or tombstoned cell |
| PidHashes.PidHash.Remove | observer/include/phynned/observer/MetricsCollector.hpp:274-288 | the hash loses exactly that pid and every other stays reachable |
| PidHashes.PidHash.FullTable | observer/include/phynned/observer/MetricsCollector.hpp:341 | a probe sequence without a free cell means as many pids as cells |
| PidSlots.TakeFreeGood | observer/src/MetricsCollector_win32.cpp:210-211 | a popped slot was nobody's, and the partition of the slots is kept |
| PidSlots.TakeNextGood | observer/src/MetricsCollector_win32.cpp:212-213 | so was a slot at the high-water mark |
| PidSlots.SweepKeepsTracked | observer/src/MetricsCollector_win32.cpp:231-247 | a sweep leaves exactly the tracked pids, each in its own slot |
| PidSlots.RoomForOne | observer/src/MetricsCollector_win32.cpp:244-245 | the guard on the free list never refuses a slot |
| PidSlots.SlotTable.FindOrCreate | observer/src/MetricsCollector_win32.cpp:193-223 | fails exactly for pid 0 or a new pid with all 1024 slots taken; otherwise a slot of its own |
| PidSlots.SlotTable.EvictAbsent | observer/src/MetricsCollector_win32.cpp:231-247 | the pids left are the valid ones that are tracked |
| GregorianDays.NextDayIsOneMore | learn/src/PerGameMemory.cpp:640-647 | the next date is the next number, across month ends, leap days and century rules |
| GregorianDays.DayCountIsExact | learn/src/PerGameMemory.cpp:640-647 | n days later is n more |
| GregorianDays.Monotone | learn/src/PerGameMemory.cpp:640-647 | later dates have greater numbers |
| GregorianDays.OrderIff | learn/src/PerGameMemory.cpp:640-647 | the numbers order the dates and tell them apart |
| GregorianDays.ParseOfIsoDate | learn/src/PerGameMemory.cpp:617-635 | a date printed as YYYY-MM-DD is read back, with or without a time behind it |
| GregorianDays.AgeIsTrueDayCount | learn/src/PerGameMemory.cpp:654-680 | an entry is due exactly when more than the allowed number of days has passed; what a clock set back and a limit of two to the 31 or more give |
| BenchRunners.TickKeepsInv | tools/phynned-ui/BenchRunner.hpp:296-359 | every tick keeps the invariant of the five-run protocol |
| BenchRunners.CapturesAreClean | tools/phynned-ui/BenchRunner.hpp:361-371 | capturing run i: the last command was Pause exactly when i is even, three seconds or more before |
| BenchRunners.DoneIsComplete | tools/phynned-ui/BenchRunner.hpp:404-484 | Done: five captures in order, imported with exit code 0; the agent is resumed exactly if the client was reachable |
| BenchRunners.ElapsedIsReal | tools/phynned-ui/BenchRunner.hpp:337-339 | the wrapping tick counter never overstates the time since the command |
| BenchRunners.TickMakesProgress | tools/phynned-ui/BenchRunner.hpp:296-359 | a tick changes nothing or brings the benchmark closer to its end |
| BenchRunners.TickMeaning | tools/phynned-ui/BenchRunner.hpp:296-359 | what a tick does in each state, by what the child, the capture, the client and the clock say |
| BenchRunners.StartMeaning | tools/phynned-ui/BenchRunner.hpp:223-270 | when a five-run benchmark starts, and that it starts with a Pause behind the Resume of what it cleans up |
| BenchRunners.StartOneMeaning | tools/phynned-ui/BenchRunner.hpp:187-220 | a single run from rest: one baseline capture, and no command but the Resume of what is cleaned up |
| BenchRunners.CancelLeavesResumed | tools/phynned-ui/BenchRunner.hpp:273-294 | after any calls, a cancelled five-run benchmark leaves Resume as the last command if the client can be reached |
| BenchRunners.BenchRunner.StartFiveRuns | tools/phynned-ui/BenchRunner.hpp:223-270 | the protocol starts with a Pause, only with a client and from rest |
| BenchRunners.BenchRunner.StartOneRun | tools/phynned-ui/BenchRunner.hpp:187-220 | one capture as a baseline, only from rest and with the PresentMon path set; Idle again if it cannot be spawned |
| BenchRunners.BenchRunner.CancelRun | tools/phynned-ui/BenchRunner.hpp:273-294 | back to rest; the last command sent is then Resume if a five-run benchmark had a client that can be reached, and none is sent otherwise |
| BenchRunners.BenchRunner.Tick | tools/phynned-ui/BenchRunner.hpp:296-359 | what each tick does in each state: command sent, capture started, exit code noted, next phase |
| BenchRunners.BenchRunner.FinishOrContinue | tools/phynned-ui/BenchRunner.hpp:435-484 | the next run, the aggregation, or the end |
| FrameStats.RankIsUnique | bench/src/PerceptualMetrics.cpp:73-74 | there is one value of each rank, however it is found |
| FrameStats.SortedHasRank | bench/src/PerceptualMetrics.cpp:69-74 | position k of a sorted buffer is the value of rank k of the samples |
| FrameStats.ReportLaws | bench/src/PerceptualMetrics.cpp:76-83 | the figures are determined by the samples, and at most n-1-n/2 ticks are stutters |
| FrameStats.ReportMeaning | bench/src/PerceptualMetrics.cpp:69-105 | the figures of a report counted tick by tick: how many averages are above twice the median, how many worst frames above 50 ms, and where median, percentile and maximum divide the values |
| FrameStats.LowsOrderedIff | bench/src/PerceptualMetrics.cpp:94-105 | the 0.1% low is at most the 1% low, except when the percentile is no positive time and the maximum is |
| FrameStats.ComputePerceptual | bench/src/PerceptualMetrics.cpp:28-108 | the passes and sorts compute the median, the percentiles, the counts of stutters and hitches and the FPS figures, counted tick by tick |

## Left out

- Differential (thread) pins, their table and their journal-free revert to the all-cores mask: rule 7 decisions are skipped by the agent's apply pass here.
- Priority classes of processes: a SetPriority row is in the active table and the log, the class itself is not in the process table.
- ActionExecutors.ActionExecutor.Apply: behind torn bytes a record is appended at an offset that is no slot's; which slots the file holds from then on is not followed (`tracked`), while rows, log and processes are.
- ActionExecutors.ActionExecutor.Revert: the thread table and the priority class are not restored here; the same holds for RevertAll, Prune and AppliedMask, which speak of the process-level rows.
- ActionExecutors.ActionExecutor.RevertAll: as Revert.
- ActionExecutors.ActionExecutor.Prune: as Revert.
- ActionExecutors.ActionExecutor.AppliedMask: as Revert; the agent's lookup takes the mask of a thread pin as an input.
- CrashSafety.CrashSafe: assumes what `Enabled` lists - only Phynned changes masks; a process is pinned while the journal is open and while it is at its original mask (met by itself if only rows of dead processes are pruned, `HeldProcesses.PinsFindOriginalMask`); its mask and creation time are readable, and what the caller says of it is true; its PENDING record is written whole; the identity check in front of a restoring Set can read the process, and the Set succeeds; a new process has a creation time that no slot of its pid carries; a pid is not reused while the agent holds a row for it or a walk is at its record; the dead-man does not read the journal between an append and its Set.
- CrashSafety.DeadManKeepsInv: opening the file and reading the survivors are one step of the dead-man; a record that the agent appends between the two is not modelled.
- DiskRecords.AppendVisibleIffWhole: what later appends behind a torn tail look like is not modelled further; multi-restart theorems use record-atomic appends.
- Text mode of the C library (CR LF translation, Ctrl-Z) and file system errors in loading and saving the configuration; embedded CR, LF, NUL or quotes in names and paths.
- memory.toml: loading and saving, and the bad list; the memory here starts empty or as given.
- Registration of the built-in rules from the CPU topology: the engine evaluates any rules.
- Rounding: CPU shares, frame times and thresholds are reals.
- PolicyEngines.PolicyEngine.SortByScore: an insertion sort stands for std::sort; only its result is used.
- AgentGates.GatesHold: the world is still during one tick; logs, publishing, telemetry, auto-discovery, classification and the failure backoff of the corral are inputs or absent.
- PidSlots.SlotTable.FindOrCreate: pid 0xFFFFFFFF, the tombstone, is taken never to be a real pid; the hot-thread pool with its second free list is not modelled.
- BenchRunners.BenchRunner.Tick: child processes, paths and command lines are answers of the environment; the exit code of the aggregation is ignored, as in the code.
- AcProbes.AtMostOneOpen: upserts of results from elsewhere are not among the events.
- AgentRuntimes.AgentRuntime.ApplyDecisions: rule 7 decisions reach the anti-cheat gate and are then skipped; their rows are in the thread table.
- AgentRuntimes.AgentRuntime.Run: the auto-revert guard and the learning steps behind the apply pass are not part of the tick; the engine's evaluation is in `AgentRuns.EngineKeepsGates`.
- AgentRuns.EngineKeepsGates: the built-in rules and the remembered actions pin; priorities are not among them. What the memory answers for a target is a function of the target, fixed during the tick.
- FrameStats.ComputePerceptual: the smoothness score with its square root, the hitching index (hitches by samples) and rounding are not modelled.
- The branches for Linux, where comparisons are case-sensitive and probes are always refused.
- The action log as a ring: the log here keeps every entry.
- UI, tray, installer, CLI, HWiNFO parsing, topology probing, ETW, the shared-memory seqlock and rings, worker threads and their memory ordering.

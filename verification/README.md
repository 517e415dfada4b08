# Safety-incident reporting: a verified model

The system records workplace incidents. A Telegram bot triages reports and writes the serious ones to an
append-only contract; the same triage also runs inside a trusted execution environment (TEE) as an
extension, which Go tools and shell scripts deploy, register, verify and exercise. The Dafny files here model
the parts whose correctness depends on whole runs or on several pieces of code agreeing, and prove:

* **TEE registration that resumes after failures** (`Registration`, `RegistrationRuns`, `RegistrationEffects`). A run takes the steps
  `r`, `R`, `a`, `p`. It may start fresh or resume, every external call may succeed, be refused, or take effect
  although the run then ends (an error or a crash), and every save of the state file may fail. Over every chain
  of such runs, each with a command of its own, recorded steps are not repeated while recorded; requests carry the
  latest attestation and promotions use the latest request exactly for the sets of commands that attest before
  requesting, request before promoting, and emit by no step that a requesting command of the set lacks. Every
  event of a run has its reason in what the run was given; the file outlives every failure; and a run that gets far
  enough requests, promotes and records exactly when it should.
* **The sequencer** (`Rotation`, `LockProtocol`, `LockProgress`). Weighted fairness of the rotation, across dead agents and
  restarts, and the lock file as a timed protocol: a run and its orderly continuations keep at most one agent at
  work exactly when no dispatch overtakes a cleanup, that is, reaches its agent while some cleanup is about to
  remove the lock, or one of that same agent is still about to read it. (For the lock file also naming that agent
  this holds of every configuration; for one agent at work, of those in which consecutive slots belong to
  different agents and agents may work for at least a second, as in the shipped one.) And it makes progress: live
  agents are dispatched, dead ones skipped, stale locks cleared and slots begun, each at its time.
* **The extension-id pipeline** (`ExtensionRegistry`, `RegistrationChecks`, `EnvFile`, `Text`, `Numerals`).
  One number passes through `SetupExtension`, `0x%064x`, the config file, two parsers, seven checks and a scan
  on chain; these agree, and where they do not, the exact condition is proved.
* **Triage, records, log** (`ActionServer`, `RecordPayload`, `PayloadAmbiguity`, `Bot`, `IncidentLog`). Handlers that classify
  outside a lock and commit inside it, in every interleaving; two serialisers of one record, each against a
  reader for JSON strings (section 7 of RFC 8259); the bot as a state machine over the append-only contract.
* **Verification report** (`Report`, `Revert`). The in-place filter, stable grouping, counts and exit verdict;
  and the matching of revert data to custom errors.

Code that updates state is a class or a method with loops, each proved against a function of the old state;
what the code promises is proved about that function. Randomness, clocks, transactions, queries and the
classifier are parameters: each `Plan`, `Outside`, `Queries`, `SetupPlan` or `Step` says what they do, and the
theorems hold for all of them.

## Where the code does not do what it seems to promise

* `RegistrationRuns.MixedExactly`: the state file does not record the command it belongs to; when a command emits
  an attestation by a step that a requesting command lacks, a chain of both can request availability with an
  attestation that has been superseded (`MixedCommandsAreUnsound`: `rap` and `rRap`).
* `LockProtocol.OvertakenCleanupBreaksExclusion`: testing/README.md says only one agent has services running at
  a time, but a cleanup that read the lock before it went stale can remove the next agent's lock.
  `LockProtocol.ExclusionExactly` gives the exact condition.
* `RecordPayload.PayloadsNeverEqual`: the comment on `hashRecord` says TEE and bot hashes stay comparable; the
  two hash inputs are never the same text. `PayloadAmbiguity.GoAmbiguousExactly`: which records share their TEE
  input with a different record.
* `RegistrationChecks.ScanAgreesExactly`: R7 scans from id 0 up to the counter as a signed 64-bit number, while
  `setExtensionId` scans from 0x10000 up to the counter; from 2^63 on R7 can miss a duplicate.
* `EnvFile.CheckAll`: S2 takes a missing file for a failure where D7, V4 and E1 skip.
* `Revert.SelectsByDataExactly`: a decoded reason that happens to be hexadecimal is itself matched as data, so the
  error selected need not be that of the data; the exact condition is proved.
* `Bot.DeliveredExactly`: the alert is sent unguarded after the entry is mined, so a refused alert leaves an entry
  of which no officer is told.
* test/IncidentLog.test.js calls `logIncident` with two arguments; the model follows the contract, which takes three.

## Model

| member | source | states |
|---|---|---|
| RegistrationRuns.MixedExactly | fce-extension-scaffold/tools/pkg/fccutils/registration.go:59-172 | over every chain of interrupted, resumed or fresh runs on a new TEE, each with any command of a given set, every availability request carries the most recent attestation and every promotion uses the most recent request, whose attestation is still the most recent; this holds if and only if every command has `r` or `R` when it has `a` and `a` when it has `p`, and every command's `r` and `R` are among those of each command with `a` |
| RegistrationRuns.AlwaysBooked | fce-extension-scaffold/tools/pkg/fccutils/registration.go:99-151 | over every chain of runs of any commands, no step is executed while the file lists it, every write strictly extends the file, and every request directly follows a gate reading without confirmed mismatch |
| RegistrationRuns.ProvenanceExactly | fce-extension-scaffold/tools/pkg/fccutils/registration.go:59-172 | for chains of one command, all of that, and every write lists a prefix of the command's recorded steps in order, if and only if the command has `r` or `R` when it has `a`, and `a` when it has `p` |
| RegistrationRuns.RunKeeps | fce-extension-scaffold/tools/pkg/fccutils/registration.go:59-172 | one run, wherever it fails or crashes and whichever saves fail, keeps the bookkeeping for any command, and for fitting commands the state file truthful about the chain |
| RegistrationRuns.ChainKeeps | fce-extension-scaffold/tools/cmd/register-tee/main.go:31-74 | the same over any chain of runs from any world that meets it |
| RegistrationRuns.ForeignEmission | fce-extension-scaffold/tools/pkg/fccutils/registration.go:74-124 | for any two commands of which the second emits by a step the first lacks: the first records its attestation, the second emits another and loses it, and the first resumes and requests with the superseded one |
| RegistrationRuns.EmitStepKeeps | fce-extension-scaffold/tools/pkg/fccutils/registration.go:93-103 | an executed `r` or `R` leaves memory truthful and never behind the file, and the run's attestation variable equal to the recorded one |
| RegistrationRuns.RequestKeeps | fce-extension-scaffold/tools/pkg/fccutils/registration.go:126-155 | an `a` step keeps the invariant, and afterwards the run's instruction id is the recorded one, whether the step was executed or skipped |
| RegistrationRuns.RequestWithoutAttestation | fce-extension-scaffold/tools/pkg/fccutils/registration.go:74-74 | with `a` but neither `r` nor `R`, a failure-free run requests availability with the zero id although nothing was emitted |
| RegistrationRuns.PromotionWithoutRequest | fce-extension-scaffold/tools/pkg/fccutils/registration.go:153-155 | with `p` but not `a`, the proof is fetched with the id given on the command line, which no request returned |
| RegistrationRuns.MixedCommandsAreUnsound | fce-extension-scaffold/tools/cmd/register-tee/main.go:23-25 | the default command `rap` and `rRap`, each well-ordered, are such a pair |
| RegistrationRuns.CountBound | fce-extension-scaffold/tools/pkg/fccutils/registration.go:99-103 | in every history with that bookkeeping a step is executed at most as often as executions were not persisted, plus removals of the file, plus one if the file lists it, plus one if the current run has yet to persist it |
| RegistrationRuns.BoundedRepetition | fce-extension-scaffold/tools/pkg/fccutils/registration.go:138-150 | over every chain of runs of any commands a step is executed at most once more than the executions whose run ended before persisting them, plus one for every removal of the file |
| RegistrationRuns.MissingStepsExactly | fce-extension-scaffold/tools/pkg/fccutils/registration.go:75-155 | a failure-free run executes exactly the steps its file does not list, in order, and records them all |
| RegistrationRuns.Recovery | fce-extension-scaffold/tools/pkg/fccutils/registration.go:157-171 | after every chain of runs of a well-ordered command with `p`, one failure-free run reaches production with the proof of the latest request as its last chain action, and leaves no state file if the removal works |
| RegistrationEffects.RunExplained | fce-extension-scaffold/tools/pkg/fccutils/registration.go:59-172 | every event of every run has its reason, and but for the fresh start none happens if the checks before the steps fail: emissions come from the calls of their steps, with a pre-registration exactly when step `r` did not find the machine registered; requests and promotions only from calls not refused, behind an open gate or with a proof; writes from saves that worked, with the ids of their step; removals only at a fresh start or after the whole command succeeded |
| RegistrationEffects.RegisteredExactly | fce-extension-scaffold/tools/pkg/fccutils/registration.go:80-98 | over every chain the machine is registered exactly once some emission came with a pre-registration |
| RegistrationEffects.SyncExactly | fce-extension-scaffold/tools/pkg/fccutils/policy_consistency.go:22-24 | epochs are in sync exactly when their difference is 0 or 1 plus a multiple of 2^64 |
| RegistrationEffects.RequestsFollowTheGate | fce-extension-scaffold/tools/pkg/fccutils/policy_consistency.go:49-75 | in every chain a request directly follows a reading whose two epochs, if both were read, differ by 0 or 1 modulo 2^64 |
| RegistrationEffects.RequestsExactly | fce-extension-scaffold/tools/pkg/fccutils/registration.go:132-145 | if all else succeeds, a run whose file lists no `a` requests exactly when an epoch could not be read or they differ so |
| RegistrationEffects.PromotesExactly | fce-extension-scaffold/tools/pkg/fccutils/registration.go:157-167 | if everything up to it succeeds, the promotion takes place exactly when the proof is there and the call not refused |
| RegistrationEffects.FileSurvivesFailure | fce-extension-scaffold/tools/pkg/fccutils/registration.go:157-171 | a resumed run leaves a file with fewer steps, or none, only if the removal worked and, with `p` in the command, the proof was there and the production transaction confirmed |
| RegistrationEffects.RemovalsFlanked | fce-extension-scaffold/tools/pkg/fccutils/registration.go:157-171 | over every chain of commands with `p`, every removal of the file belongs to a fresh start or directly follows a promotion |
| RegistrationEffects.SavedExactly | fce-extension-scaffold/tools/pkg/fccutils/registration.go:99-103 | if the saves work, a run that fails at the promotion leaves a file listing every step before it |
| RegistrationEffects.UnsavedKeeps | fce-extension-scaffold/tools/pkg/fccutils/registration.go:48-57 | if no save and no removal works, the file is as it was |
| Registration.RegistrationTool.RegisterTee | fce-extension-scaffold/tools/cmd/register-tee/main.go:31-74 | the step-by-step program (stale file removed unless resuming, state loaded, four steps, file removed at the end) leaves exactly the world given by the run function the theorems are about |
| Registration.RegistrationTool.PreRegister | fce-extension-scaffold/tools/pkg/fccutils/registration.go:74-106 | step `r`: skipped with the recorded id, or a fresh attestation if the machine is known to be registered, or a pre-registration; then recorded in memory and, if the save works, on disk |
| Registration.RegistrationTool.RequestAttestation | fce-extension-scaffold/tools/pkg/fccutils/registration.go:108-124 | step `R` likewise, always with a fresh attestation request when it is not recorded |
| Registration.RegistrationTool.RequestAvailability | fce-extension-scaffold/tools/pkg/fccutils/registration.go:126-155 | step `a`: skipped with the recorded id, or gated, requested with the run's attestation and recorded; without `a` the id comes from the command line |
| Registration.RegistrationTool.Promote | fce-extension-scaffold/tools/pkg/fccutils/registration.go:157-167 | step `p`: nothing on the chain unless the proof is there and the transaction is mined; errors after mining still end the run |
| Registration.RegistrationTool.SaveState | fce-extension-scaffold/tools/pkg/fccutils/registration.go:48-57 | a failed save leaves file and history alone, a successful one replaces the whole file |
| Registration.RegistrationTool.SendAttestation | fce-extension-scaffold/tools/pkg/fccutils/registration.go:258-287 | a refused call changes nothing, a lost one leaves its effect on the chain and ends the run |
| Rotation.FullCycle | fce-extension-scaffold/testing/scripts/sequencer.sh:53-54 | any L consecutive slots, from any index, visit an agent exactly as often as the rotation lists it |
| Rotation.ListedOrder | fce-extension-scaffold/testing/scripts/sequencer.sh:53-54 | every cycle serves the agents in the order listed |
| Rotation.FullCycles | fce-extension-scaffold/testing/scripts/sequencer.sh:53-54 | k full cycles from any index visit an agent k times its weight |
| Rotation.Fairness | fce-extension-scaffold/testing/scripts/sequencer.sh:53-54 | any n consecutive slots visit an agent between floor(n/L) and ceil(n/L) times its weight |
| Rotation.NeverSkips | fce-extension-scaffold/testing/scripts/sequencer.sh:29-36 | over any sequence of slots and crashes the visited positions advance by one after a completed slot and repeat after a crash |
| Rotation.CompletedAreConsecutive | fce-extension-scaffold/testing/scripts/sequencer.sh:101-103 | the slots carried through are exactly consecutive positions, and slots are completed ones plus crashes |
| Rotation.ResumedExactly | fce-extension-scaffold/testing/scripts/sequencer.sh:29-36 | the start index is 0 without a file of digits only, otherwise the number written there |
| Rotation.DispatchesSnoc | fce-extension-scaffold/testing/scripts/sequencer.sh:57-64 | each further slot dispatches its agent, at the position reached, exactly if the session is alive |
| Rotation.FairAcrossRestarts | fce-extension-scaffold/testing/scripts/sequencer.sh:29-64 | fairness of the completed slots over every chain of restarts between edits of the rotation, from whatever the saved file held |
| Rotation.Sequencer.Visit | fce-extension-scaffold/testing/scripts/sequencer.sh:43-108 | one pass visits the current index, dispatches its agent if alive, and leaves the file agreeing with the index, one further unless it crashed |
| Rotation.Sequencer.Advance | fce-extension-scaffold/testing/scripts/sequencer.sh:101-103 | after the write a restarted sequencer would resume at exactly the new index |
| Rotation.Sequencer.Serve | fce-extension-scaffold/testing/scripts/sequencer.sh:43-108 | the loop, reading a rotation for every slot, visits exactly the positions and dispatches exactly the agents of the specification |
| LockProtocol.ExclusionExactly | fce-extension-scaffold/testing/scripts/sequencer.sh:57-107 | with agents that take the lock within 15 s of dispatch or never and work at most LOCK_TIMEOUT: a run keeps at most one agent at work, named by the lock file, in all its states and all their orderly continuations, if and only if none of its dispatches overtakes a cleanup (some cleanup about to remove the lock, or one of the dispatched agent still to read it); and likewise for at most one agent at work alone, if consecutive slots belong to different agents and LOCK_TIMEOUT is not 0 |
| LockProtocol.StepKeeps | fce-extension-scaffold/testing/scripts/sequencer.sh:57-107 | every step of sequencer, agents, sessions and any number of cleanups other than such a dispatch keeps the invariant |
| LockProtocol.MutualExclusion | fce-extension-scaffold/testing/scripts/sequencer.sh:66-107 | at most one agent holds the lock in every state of every orderly run |
| LockProtocol.OvertakingBreaks | fce-extension-scaffold/testing/shared/hooks/teardown.sh:26-32 | from every state satisfying the invariant, an overtaking dispatch has an orderly continuation in which the dispatched agent works without its lock and, if the next slot is another agent's, one in which two agents work at once |
| LockProtocol.ExclusionFromStart | fce-extension-scaffold/testing/scripts/sequencer.sh:29-107 | both equivalences, and exclusion itself, for all runs from a start without lock at any index |
| LockProtocol.ShippedAlternates | fce-extension-scaffold/testing/shared/rotation.conf:8-15 | the shipped rotation and timeout meet the condition of the second equivalence |
| LockProtocol.OvertakenCleanupBreaksExclusion | fce-extension-scaffold/testing/scripts/start-agent.sh:27-39 | with the shipped configuration a run from the start ends with two agents at work |
| LockProtocol.WaitForLock | fce-extension-scaffold/testing/scripts/sequencer.sh:66-82 | for a lock with a fixed timestamp the wait ends at the first poll at which it is gone or stale, hence at most one poll after it turned stale, and force-clears only a stale lock |
| LockProgress.StaleLockIsCleared | fce-extension-scaffold/testing/scripts/sequencer.sh:66-82 | from every state of the wait with nobody at work, time and polls alone lead to a cleared lock and the dispatch, no later than the first poll or a poll after the lock turned stale, at the time of the wait loop |
| LockProgress.WaitAlone | fce-extension-scaffold/testing/scripts/sequencer.sh:70-81 | the wait loop, on a lock nobody else removes, returns at that time |
| LockProgress.LiveSlotIsDispatched | fce-extension-scaffold/testing/scripts/sequencer.sh:57-86 | with nobody at work the agent of a slot, if alive, is dispatched: at once without a lock, otherwise at that time |
| LockProgress.DeadSlotIsSkipped | fce-extension-scaffold/testing/scripts/sequencer.sh:57-64 | a dead agent's slot is passed over in ten seconds without a dispatch |
| LockProgress.NextSlotBegins | fce-extension-scaffold/testing/scripts/sequencer.sh:88-107 | the slot after a dispatch begins 15 seconds and the slot interval later |
| LockProgress.NoSlotSooner | fce-extension-scaffold/testing/scripts/sequencer.sh:88-107 | and, unless the sequencer crashes, never sooner, however the others act |
| LockProgress.UntakenSlotPasses | fce-extension-scaffold/testing/scripts/sequencer.sh:97-107 | also when the dispatched agent never takes the lock |
| LockProgress.DeadDispatchStops | fce-extension-scaffold/testing/scripts/sequencer.sh:84-86 | a dispatch to a session that died since the check ends the script: only a restart moves it |
| LockProgress.CleanupReleases | fce-extension-scaffold/testing/shared/hooks/teardown.sh:26-32 | the cleanup of the lock's own agent removes it |
| LockProgress.WorkIsAllowed | fce-extension-scaffold/testing/shared/rotation.conf:14-15 | the agent that took the lock may work for the whole timeout |
| EnvFile.LastAssignmentWins | fce-extension-scaffold/tools/pkg/validate/checks.go:168-180 | the last line that assigns a key decides its value |
| EnvFile.SpacedAssignment | fce-extension-scaffold/tools/pkg/validate/checks.go:172-178 | white space around line, key and value does not matter, the first `=` separates, and the value may hold others |
| EnvFile.NoAssignmentExactly | fce-extension-scaffold/tools/pkg/validate/checks.go:172-178 | a line assigns nothing exactly if it is blank, a comment, or without `=` |
| Text.TrimExactly | fce-extension-scaffold/tools/pkg/validate/checks.go:172-172 | trimming is exactly taking off the white space around a core that has none at its ends |
| Text.SpaceCodes | fce-extension-scaffold/tools/pkg/validate/checks.go:172-172 | the white space trimmed, by code point |
| Text.AsciiLines | fce-extension-scaffold/tools/pkg/validate/checks.go:170-172 | ASCII lines shorter than 65536 characters are scanned as they were written |
| Text.LinesConsReturn | fce-extension-scaffold/tools/pkg/validate/checks.go:170-172 | a carriage return before the newline is not part of the line |
| Text.LastLine | fce-extension-scaffold/tools/pkg/validate/checks.go:170-172 | the last line needs no newline |
| Text.LongLineEndsScan | fce-extension-scaffold/tools/pkg/validate/checks.go:170-172 | a line of 65536 bytes or more and everything after it is not delivered |
| EnvFile.ParseAll | fce-extension-scaffold/tools/pkg/validate/checks.go:168-180 | the map parser returns exactly the assigned keys, each with its last value |
| EnvFile.ParseBoth | fce-extension-scaffold/tools/pkg/validate/checks.go:246-275 | the two-variable parser returns the last values of its two keys, or empty strings |
| EnvFile.CheckD7 | fce-extension-scaffold/tools/pkg/validate/checks.go:154-244 | D7 passes a key exactly when its last value has the format, and skips a missing file |
| EnvFile.CheckS2 | fce-extension-scaffold/tools/pkg/validate/checks.go:557-584 | S2 passes exactly when the last EXTENSION_ID has the format, and fails a missing file |
| EnvFile.CheckV4 | fce-extension-scaffold/tools/pkg/validate/checks.go:754-800 | V4 passes exactly when the last EXTENSION_ID has the format, and skips a missing file |
| EnvFile.CheckE1 | fce-extension-scaffold/tools/pkg/validate/checks.go:958-993 | E1 passes exactly when the last INSTRUCTION_SENDER has the format, and skips a missing file |
| EnvFile.CheckAll | fce-extension-scaffold/tools/pkg/validate/checks.go:154-275 | for every file, D7 agrees with V4 on the id and with E1 on the sender, and with S2 if and only if the file exists |
| EnvFile.PreBuildParsesBack | fce-extension-scaffold/scripts/pre-build.sh:103-136 | the file written for a validated id and address parses back to exactly those values |
| ExtensionRegistry.Registry.SetupExtension | fce-extension-scaffold/tools/pkg/fccutils/extension.go:18-88 | succeeds exactly when registration, the queries and the transactions still needed do; success leaves exactly the complete setup of the next id, failure the chain reached, between the old one and that setup |
| ExtensionRegistry.ReachedExactly | fce-extension-scaffold/tools/pkg/fccutils/extension.go:34-85 | after a failed setup each allowance is there exactly if it was before, or everything due before it succeeded and its own call landed |
| ExtensionRegistry.Registry.Register | fce-extension-scaffold/tools/pkg/fccutils/extension.go:121-159 | the next id goes to the sender if the transaction is mined, even when its result is lost |
| ExtensionRegistry.InstructionSender.SetExtensionId | fce-extension-scaffold/contracts/InstructionSender.sol:58-69 | stores the least public id whose sender is this contract; reverts with nothing changed exactly when an id is already stored or there is none |
| ExtensionRegistry.LeastSurvivesAppend | fce-extension-scaffold/contracts/InstructionSender.sol:61-67 | registering further extensions never changes what the scan finds |
| ExtensionRegistry.StoredIdIsStable | fce-extension-scaffold/contracts/InstructionSender.sol:58-69 | over every run of registrations and setExtensionId calls the stored id is 0 until set, then constant and still the least public id of the contract |
| ExtensionRegistry.NewIdIsFoundExactly | fce-extension-scaffold/contracts/InstructionSender.sol:61-67 | the scan finds the id just set up if and only if its sender had no public id before |
| RegistrationChecks.PrintIdExactly | fce-extension-scaffold/tools/cmd/register-extension/main.go:53-57 | the printed id matches the extension-id pattern exactly when it is below 2^256, and then parses back to the id |
| RegistrationChecks.PatternIsPrint | fce-extension-scaffold/tools/pkg/validate/checks.go:355-369 | every text of the pattern is the print of the id it denotes, up to letter case |
| RegistrationChecks.AddressExactly | fce-extension-scaffold/tools/pkg/validate/checks.go:383-383 | an address is read as the number its 40 digits denote |
| RegistrationChecks.RegisterRegistrationChecks | fce-extension-scaffold/tools/pkg/validate/checks.go:278-502 | the findings R1 to R7 for every file, registry and failing query |
| RegistrationChecks.FailsExactly | fce-extension-scaffold/tools/pkg/validate/checks.go:310-468 | for any two values no check fails exactly if both are missing, or the id has the format, the sender if of the format is the id's, the deployer and the key type are allowed, and the queries succeed |
| RegistrationChecks.WarnsExactly | fce-extension-scaffold/tools/pkg/validate/checks.go:323-352 | R1 warns exactly of an empty registry, R7 exactly of two ids below its bound, both read, with the sender |
| RegistrationChecks.CheckR7 | fce-extension-scaffold/tools/pkg/validate/checks.go:470-501 | R7 warns exactly when more than one id below the signed 64-bit counter, queried successfully, has the sender |
| RegistrationChecks.PipelineAgrees | fce-extension-scaffold/tools/pkg/validate/checks.go:298-468 | after a successful setup, on any later registry, the checks on the file pre-build writes produce no FAIL if and only if the queries of R1 to R4 succeed |
| RegistrationChecks.ScanFindsCheckedId | fce-extension-scaffold/tools/pkg/validate/checks.go:371-501 | if R2 and R7 pass with no query errors and the public id is below R7's bound, the contract's scan finds that id |
| RegistrationChecks.ScanAgreesExactly | fce-extension-scaffold/tools/pkg/validate/checks.go:470-484 | for a given counter and public id, R2 and R7 guarantee the scan's result if and only if the id is below the counter as a signed 64-bit number or is 0x10000; the two counters coincide below 2^63 |
| RegistrationChecks.HiddenDuplicate | fce-extension-scaffold/tools/pkg/validate/checks.go:474-474 | for every id at or beyond that bound a registry exists on which R2 and R7 pass and the scan finds another id |
| Numerals.PrintThenParse | fce-extension-scaffold/testing/scripts/sequencer.sh:101-103 | a printed number parses back to itself, in base 10 and 16 |
| Numerals.PrintLength | fce-extension-scaffold/tools/cmd/register-extension/main.go:53-53 | a number prints in at most k digits exactly when it is below base^k |
| Numerals.PadThenPrint | fce-extension-scaffold/tools/pkg/validate/checks.go:367-369 | every numeral is the zero-padded print of its value, up to letter case |
| ActionServer.EveryInterleaving | fce-extension-scaffold/internal/extension/extension.go:110-145 | in every interleaving of handlers and state requests, at the grain of single assignments and reads: succeeded handlers committed exactly once, failed ones never, the unlocked fields are the number of commits and the severity of the last, and every answered state request shows one prefix of the commit order that includes all commits before it arrived |
| ActionServer.StepsTell | fce-extension-scaffold/internal/extension/extension.go:121-145 | in every interleaving a handler carries exactly the severity it was classified with, has failed or succeeded exactly if it took that step, the commits are the Store steps in order with those severities, and a state request's floor is the number of stores before it |
| ActionServer.ReadyCommits | fce-extension-scaffold/internal/extension/extension.go:138-141 | a classified handler that finds the lock free adds exactly its commit |
| ActionServer.WaitingIsAnswered | fce-extension-scaffold/internal/extension/extension.go:51-60 | a state request that finds no writer is answered with the two fields |
| ActionServer.StepKeeps | fce-extension-scaffold/internal/extension/extension.go:138-141 | every atomic step keeps the invariant on lock, fields, commits and readers |
| ActionServer.CommitsAreFinal | fce-extension-scaffold/internal/extension/extension.go:138-141 | the commit order only grows, so an answer given stays true |
| ActionServer.Extension.ProcessClassifySeverity | fce-extension-scaffold/internal/extension/extension.go:110-145 | status 1 comes with exactly one commit and the right logging flag, any other result with no change |
| RecordPayload.PythonRoundTrip | bot/chain.py:81-84 | the bot's hash input is undone by a JSON reader, for all records of Unicode scalar values, surrogate pairs included |
| RecordPayload.PythonInjective | bot/chain.py:81-84 | different records give the bot different hash inputs |
| RecordPayload.PythonLayout | bot/chain.py:83-83 | the hash input laid out: sorted keys, `": "` and `", "` |
| RecordPayload.EscapeIsCanonical | bot/chain.py:83-83 | each character is itself, its two-character escape if JSON has one, or lower-case `\u` digits |
| RecordPayload.PythonIsAscii | bot/chain.py:83-83 | the hash input is ASCII, so its UTF-8 encoding is the text itself |
| RecordPayload.EncodedParses | bot/triage.py:89-96 | every escaped string, and every plain unescaped one, is read back up to its closing quote |
| RecordPayload.GoRoundTripExactly | fce-extension-scaffold/internal/extension/extension.go:281-288 | the TEE's hash input reads back as the record if and only if no field holds a quote, a backslash or a control character |
| RecordPayload.GoInjective | fce-extension-scaffold/internal/extension/extension.go:281-288 | the TEE's hash input determines the record when the first three fields hold no quote |
| PayloadAmbiguity.GoAmbiguousExactly | fce-extension-scaffold/internal/extension/extension.go:281-288 | a record shares its TEE input with a different record if and only if a separator (end of one value to start of the next) occurs elsewhere in the text of its two neighbouring fields and itself |
| PayloadAmbiguity.GoCollision | fce-extension-scaffold/internal/extension/extension.go:281-288 | for instance a justification that spells the next key, with the other record |
| RecordPayload.CompactPythonIsGoExactly | bot/chain.py:81-84 | the bot's input without its structural spaces equals the TEE's input if and only if all fields are printable ASCII without quote and backslash |
| RecordPayload.PayloadsNeverEqual | fce-extension-scaffold/internal/extension/extension.go:277-288 | no record's bot input equals any record's TEE input |
| IncidentLog.Log.LogIncident | contracts/IncidentLog.sol:32-46 | appends one incident under the next id; the array stays the replay of the events, whose ids are dense |
| IncidentLog.LogAll | contracts/IncidentLog.sol:32-46 | any sequence of calls leaves the incidents of the specification and a replayable event log |
| IncidentLog.NeverChanges | contracts/IncidentLog.sol:52-61 | an incident with an id is the same after any later calls |
| IncidentLog.TimeOrdered | contracts/IncidentLog.sol:42-42 | timestamps are non-decreasing when block times are |
| Bot.EveryRun | bot/main.py:39-122 | over all messages, failures (of the alert too) and foreign entries: the relayer's entries are exactly those of the bot's history, each for a report of a user authorised at that moment, of Medium or above, with the hashes of that record and that user; alerts sent with a link <= entries <= serious reports, exactly one alert is sent for each serious report even when the chain call fails, and at most that many are delivered |
| Bot.DeliveredExactly | bot/main.py:113-122 | as many alerts are delivered as there are serious reports if and only if no sending failed |
| Bot.HandleKeeps | bot/main.py:39-92 | one message, whatever fails, keeps all of that |
| Bot.EntriesAreEarned | bot/chain.py:92-135 | an entry of the relayer is on the chain if and only if some message was the report of it, by a user authorised when it arrived |
| Bot.AuthorizationGrows | bot/main.py:43-45 | the authorised set after some inputs is part of the authorised set after more |
| Bot.AuthorizedExactly | bot/main.py:43-55 | over all messages a user is authorised exactly if from the start, or by a message that is the non-empty access code with nothing but white space around it |
| Bot.PythonStripsMore | bot/main.py:44-44 | Python strips what Go trims, and the code points 28 to 31 |
| Bot.AlertsExactly | bot/main.py:75-82 | the alerts are those of the authorised reports triaged Medium or above, in order, linked exactly if the chain call was confirmed |
| Bot.EntryTells | bot/chain.py:81-89 | an entry holds the hash of a text that reads back as the four fields under their names, the hash of the user's decimal id, and the severity, relayer and time given |
| Bot.HashInputsDiffer | bot/chain.py:87-89 | different users, and different triage results, are hashed from different texts |
| Bot.SafetyBot.HandleReport | bot/main.py:39-92 | the handler's effect on authorised users, chain and alerts is that of the message function the theorems are about |
| Bot.SafetyBot.LogOnChain | bot/chain.py:92-135 | a refused call changes nothing; a mined one adds exactly one entry, also when the bot then sees an error |
| Report.FailureIsCounted | fce-extension-scaffold/tools/pkg/validate/report.go:58-84 | the failed count is positive exactly when a result failed |
| Report.CountsCover | fce-extension-scaffold/tools/pkg/validate/report.go:68-84 | the four counts add up to the number of results if and only if no status is unknown |
| Report.CountIsCardinality | fce-extension-scaffold/tools/pkg/validate/report.go:68-84 | each count is the number of positions with that status |
| Report.Report.HasFailures | fce-extension-scaffold/tools/pkg/validate/report.go:58-65 | true exactly when a result failed |
| Report.Report.Summary | fce-extension-scaffold/tools/pkg/validate/report.go:68-84 | the four counts, with the two facts above |
| Report.Report.CollectSteps | fce-extension-scaffold/tools/pkg/validate/report.go:126-134 | every step once, in order of first appearance |
| Report.Report.Fprint | fce-extension-scaffold/tools/pkg/validate/report.go:123-163 | prints a permutation of the results, grouped by step in order of first appearance, each group in its original order |
| Report.SameGroupsSameCounts | fce-extension-scaffold/tools/pkg/validate/report.go:136-160 | equal groups for every step mean the same results with the same multiplicities |
| Report.FilterInPlace | fce-extension-scaffold/tools/cmd/verify-deploy/main.go:91-97 | writing into the array being read leaves exactly the allowed results, in order, and the tail untouched |
| Report.KeepCounts | fce-extension-scaffold/tools/cmd/verify-deploy/main.go:91-97 | every allowed result is kept as often as it occurs, every other dropped |
| Report.KeepConcat | fce-extension-scaffold/tools/cmd/verify-deploy/main.go:91-97 | and in their order |
| Report.KeepFailure | fce-extension-scaffold/tools/cmd/verify-deploy/main.go:91-108 | what is kept holds a failure exactly if an allowed result failed |
| Report.ParseFilter | fce-extension-scaffold/tools/cmd/verify-deploy/main.go:85-90 | an id is allowed exactly when it is not empty and some part of the filter trims to it |
| Text.Split | fce-extension-scaffold/tools/cmd/verify-deploy/main.go:86-86 | the parts hold no separator and join to the text |
| Report.VerifyDeploy | fce-extension-scaffold/tools/cmd/verify-deploy/main.go:83-109 | the exit code is 1 exactly when the original list held an allowed FAIL |
| Revert.MatchCustomError | fce-extension-scaffold/tools/pkg/fccutils/revert.go:88-107 | answers with the name, and the arguments if it has any, of an error with the data's selector if there is one, whatever the order of the map |
| Revert.SelectsByDataExactly | fce-extension-scaffold/tools/pkg/fccutils/revert.go:88-123 | for every text of at least four bytes and every reason decoder, decoding and matching select exactly the errors with the data's selector if and only if the data have no reason, or the reason is hexadecimal data with the same selector, or no error has either selector |
| Revert.OrderIrrelevantExactly | fce-extension-scaffold/tools/pkg/fccutils/revert.go:94-106 | no text's answer depends on that order if and only if the selectors are pairwise distinct |
| Revert.FallbackSelectsBySelector | fce-extension-scaffold/tools/pkg/fccutils/revert.go:109-123 | for data the reason decoder does not accept, decoding and matching select an error exactly when it has the data's selector, with or without `0x` on either text |
| Revert.HexReasonIsMatchedAsData | fce-extension-scaffold/tools/pkg/fccutils/revert.go:116-119 | for instance a reason spelling other data, with or without `0x`: the error of those data is selected instead |
| Revert.DecodeEncoded | fce-extension-scaffold/tools/pkg/fccutils/revert.go:109-114 | hexadecimal decoding undoes encoding |
| Revert.DecodesExactly | fce-extension-scaffold/tools/pkg/fccutils/revert.go:90-93 | decoding accepts exactly the even-length digit strings |
| Revert.TrimPrefixExactly | fce-extension-scaffold/tools/pkg/fccutils/revert.go:110-110 | one leading `0x` is taken off, no other |

## Left out

- HTTP, RPC, Telegram, Docker and tmux: present only as success, failure, or success whose result is lost.
- keccak256 and signatures: hashes are an arbitrary function, so results about hashes are stated on the texts hashed.
- The classifier: any value or an error.
- External Flare contracts: only the append-only registry, allowlists, key types and emitted ids.
- State files that exist but cannot be read or parsed, and partial writes.
- One TEE per state file: the file is not keyed by TEE, so a chain of runs concerns a single one.
- Expiry of attestation challenges, and the waits of one second between registration steps.
- The values of the ids the chain hands out: a plan supplies them, and they need not be distinct.
- Rotation.FairAcrossRestarts: speaks of stretches between edits of rotation.conf; in the lock protocol rotation, slot interval and lock timeout are fixed during a run. Two sequencers at once, and stop.sh.
- In the lock protocol the sequencer's age test and removal of a stale lock are one step, as is an agent's own test for a lock and its writing; a cleanup's start, read and removal are three. An agent's work ends when its cleanup starts on the lock, after its services are down or its session killed.
- LockProtocol.ExclusionExactly: rotations with one agent in consecutive slots are covered for the lock file naming the agent at work, not for one agent at work alone.
- Lock files with malformed contents.
- 64-bit wrap-around of INDEX and of classificationCount, and bash reading a saved index with leading zeros as octal.
- The branch of the checks taken when no config path is given, and R1 to R7 without a client or key.
- Texts of messages, fixes and errors (outOfSyncError among them), colours and JSON output; printing is modelled as the order of results.
- Report.VerifyDeploy: the choice of checks by `-step` is not modelled; the results they add are the input.
- Checks D1 to D6, S1, S3 to S10, V1 to V3, the machine checks, E3 and E6: single queries with a two-way verdict.
- RecordPayload.PythonRoundTrip: strings are sequences of Unicode scalar values; lone surrogates, which Python strings can hold, are not modelled.
- RecordPayload.GoRoundTripExactly: nor are Go strings that are not UTF-8; the reader covers one non-empty object of strings, which is what both writers produce.
- Bot.EveryRun: messages are handled one after another, as run_polling does; replies to the worker are not part of the history.
- Bot.SafetyBot.constructor: parsing of ALLOWED_USER_IDS; the initial set is a parameter.
- ExtensionRegistry.InstructionSender: sendClassifySeverity, whose only local effect is the id test.

# Verified model of the slot scheduler, the sequential lab and its statistics

The repository runs WebAssembly workers behind a service that must not leak through timing, and
measures how well it succeeds.  This project models the four parts on which that claim rests and proves
what they promise, for all inputs and all runs.

**The fixed-slot scheduler.**  `SlotSchedule` is the timetable as a function of arrival times.
`SlotMachine` is the server as a timed step system: admission counter, permits, deadlines, guards, worker
ends and disconnects as events in any order.  `SlotGuarantees` holds the theorems over all runs, and
`SlotScheduler` the same steps as methods of a class that updates the counters in place.

**The sequential lab.**  `Wasm32`, `StreamCapitalize` and `SequentialProbe` give the two guest programs
their byte-level meaning.  `LabSpec` is the service as one atomic object, `LabMachine` the service as it
runs, with the session lock free while a worker executes, and `LabGuarantees` relates the two;
`LabProgress` shows that every schedule finishes, and `LabSecrecy` what the stored states give away.  `LabServer` has the handlers' bodies and `Decimal` the
arguments of a runner.  `StreamClient`, `StreamAgreement` and `StreamScenario` are the benchmark client,
what it and the server agree on, and the whole scenario.

**The statistics.**  `Xorshift`, `XorshiftPermutation`, `FisherYates`, `TrialDesign` and `TrialPlan` build
the balanced random design; `Decoding` decodes bits; `MutualInformation` and `InformationBounds` measure
them; `Strata` and `PermutationTest` test against labels shuffled within strata, with `Sorting` for the
library's sorts.

**The artifact.**  `Artifact` is the bounded pull and the opening of the encrypted worker.

`Counting`, `Division` and `Wrappers` hold shared facts.

## How to read the models

- Clocks are ideal: `sleep_until` wakes at its deadline, a permit is taken in admission order, and what is
  due at an instant happens before an arrival at the same instant.
- A runner process is an arbitrary end at an arbitrary time; HTTP and JSON are reduced to requests and
  replies.
- The logarithm, the authenticated cipher and the digests are parameters.  Theorems that need laws of them
  state these laws as a precondition: `InformationBounds.IsLog2` (additive, one at two, above its tangent
  bound) and `Artifact.Cipher.Lawful` (sealing adds 16 bytes; exactly sealed texts open, to what was
  sealed).
- Rates and means are exact reals.  A library sort is any method that returns a sorted rearrangement.
- `hide` statements keep definitions a proof does not need away from the solver; they assume nothing.

## Where the code is less than it seems

- The generator is seeded with `seed.max(1)` so that it never starts at zero, but the seed is then mixed
  with a salt.  `Xorshift.DegenerateSeed`: the state is zero, and stays so, exactly when the seed equals
  the salt.
- The lab's analysis recomputes the length of the calibration part from the different gaps of the plan,
  while the plan is built from the gaps as given.  `TrialDesign.AnalysisSplit`: the two agree exactly when
  no gap was given twice or the calibration is empty, and otherwise calibration trials are scored;
  `TrialDesign.RepeatedGap` is an input.  The overlap benchmark recomputes it in the same way
  (`crates/bench-client/src/main.rs:417-424`), and its profiles need not have distinct offsets
  (`crates/protocol/src/lib.rs:311-322`).
- The stored state is meant to be independent of the transmitted bit.  Iteration counts of 2^31 and more
  pass the start-up checks but are rejected by the runner's signed argument, so a turn flips its slot only
  if its count is smaller (`LabSpec.StateEffect`).  `LabSecrecy.BitIsHidden`: for equal fates of the workers
  (running out of time or fuel is a fate), independence holds exactly when the two counts that a sender's
  bit selects lie on the same side of 2^31;
  `LabSecrecy.LeakyLabStoresTheBit` is an input for which one stored byte gives the bit away.
- A decoder whose calibration means coincide decodes every zero sample's mean as one
  (`Decoding.OwnSamples`).

## Model

| member | source | states |
|---|---|---|
| SlotSchedule.PlanFollows | crates/scheduler/src/main.rs:142-169 | the timetable computed arrival by arrival obeys the recurrence start_i = max(arrival_i, start_(i-k) + slot), with arrivals in order |
| SlotSchedule.StartsAscend | crates/scheduler/src/main.rs:156-160 | slots start in admission order |
| SlotSchedule.LiveIsSuffix | crates/scheduler/src/main.rs:60-66 | the runs still pending at any time are exactly the last ones of the timetable, as many as the counter says |
| SlotSchedule.AdmissionBound | crates/scheduler/src/main.rs:143-160 | whoever is admitted below the cap at time t is finished by t + rounds * slot |
| SlotSchedule.BoundedCompletion | crates/scheduler/src/main.rs:142-169 | every admitted run ends within ceil(cap / workers) slots of its admission, for every arrival sequence and every policy |
| SlotSchedule.ProductionRounds | crates/scheduler/src/main.rs:37-49 | under the production policy that bound is 16 slots |
| SlotSchedule.WindowBound | crates/scheduler/src/main.rs:156-165 | a window of n slot lengths never contains more than n * workers slot starts, wherever it begins |
| SlotSchedule.BurstIsTight | crates/scheduler/src/main.rs:142-169 | a simultaneous burst up to the cap is admitted whole and served in rounds of `workers` |
| SlotSchedule.BurstMeetsTheBound | crates/scheduler/src/main.rs:142-169 | the last run of a full burst ends exactly at the completion bound, so the bound cannot be improved |
| SlotMachine.DecisionFollows | crates/scheduler/src/main.rs:143-149 | whenever no release is due, the atomic counter is below the cap exactly when the timetable of the arrivals admits the request |
| SlotMachine.HeadIsDue | crates/scheduler/src/main.rs:156-160 | when the first waiting task can get a permit, the time is exactly its booked start |
| SlotMachine.QueuedWaitsForHolder | crates/scheduler/src/main.rs:156-165 | at a settled instant every waiting run is booked behind the deadline of an earlier run that still holds a permit |
| SlotMachine.StepKeeps | crates/scheduler/src/main.rs:142-169 | every step (arrival, disconnect, permit, worker end, timeout, wake-up, guard drop, clock) keeps all tasks on the timetable and both counters equal to what is held |
| SlotMachine.RunKeeps | crates/scheduler/src/main.rs:142-169 | hence the invariant holds after every sequence of events |
| SlotGuarantees.Conservation | crates/scheduler/src/main.rs:60-66 | in every reachable state permits held plus free equal `workers`, pending equals the live guards and never exceeds the cap, and permit holders are among the pending |
| SlotGuarantees.PlanOfPrefix | crates/scheduler/src/main.rs:142-169 | the timetable of the requests seen so far is a prefix of every later one: no later request moves or removes a booking |
| SlotGuarantees.ScheduleIndependence | crates/scheduler/src/main.rs:142-178 | two runs whose arrivals agree make the same admission decisions and give each task the same start, release time and body, whatever the workers, their durations, the disconnects and the interleaving were |
| SlotGuarantees.SettledIndependence | crates/scheduler/src/main.rs:142-178 | at the same settled instant two such runs agree on every counter and on the standing of every task |
| SlotGuarantees.CompletesInTime | crates/scheduler/src/main.rs:142-169 | in every run an admitted task is released no later than ceil(cap / workers) slots after its arrival, and has been once the clock is past that |
| SlotGuarantees.KilledAtTheDeadline | crates/scheduler/src/main.rs:160-163 | in every run a worker may end by itself at any time, is never still running past its deadline, and is killed exactly at it: a kill before then has no effect |
| SlotGuarantees.ThroughputBound | crates/scheduler/src/main.rs:156-165 | in every run at most n * workers slots start within n slot lengths |
| SlotGuarantees.UrgentStep | crates/scheduler/src/main.rs:156-165 | an unsettled state always has a step the server can take by itself at that instant |
| SlotGuarantees.NextDeadline | crates/scheduler/src/main.rs:160-165 | with work left at a settled instant, the clock can move to a deadline that is then due |
| SlotGuarantees.Drains | crates/scheduler/src/main.rs:142-169 | from every reachable state the queue can be worked off by server and clock steps alone, with no help from any worker or caller |
| SlotGuarantees.EveryStepHelps | crates/scheduler/src/main.rs:153-166 | while work is left, every step of server, worker or clock uses up part of it |
| SlotGuarantees.LeavingChangesNothing | crates/scheduler/src/main.rs:154-168 | a caller that leaves changes nothing about what is left to do |
| SlotGuarantees.EveryScheduleFinishes | crates/scheduler/src/main.rs:142-169 | every schedule of steps without arrivals is bounded by the steps and the time left, and while a run is unfinished a step without help from workers or callers is possible |
| SlotScheduler.Scheduler.constructor | crates/scheduler/src/main.rs:107-126 | the initial state: all permits free, nothing pending |
| SlotScheduler.Scheduler.Arrive | crates/scheduler/src/main.rs:142-152 | rejects exactly when the timetable holds cap live runs, leaving everything unchanged; otherwise counts and queues the task |
| SlotScheduler.Scheduler.AcquirePermit | crates/scheduler/src/main.rs:156-160 | takes a permit; the deadline it fixes is the booked start plus one slot |
| SlotScheduler.Scheduler.DropPermit | crates/scheduler/src/main.rs:163-164 | the permit comes back exactly one slot after it was taken |
| SlotScheduler.Scheduler.DropGuard | crates/scheduler/src/main.rs:60-66 | the pending count falls by one and the reply is the normalized one, at the booked time |
| SlotScheduler.Scheduler.HoldSlot | crates/scheduler/src/main.rs:160-163 | whether the worker ends by itself or is killed, the clock stands exactly at the deadline |
| SlotScheduler.Scheduler.RunWorker | crates/scheduler/src/main.rs:142-169 | a caller that meets an idle scheduler is answered after exactly one slot, whenever and however its worker ends and whether or not the caller leaves, and the scheduler is idle again with all counters restored |
| Wasm32.BitAndOnes | crates/sequential-lab/fixtures/sequential_probe.wat:36-38 | masking with n ones is the remainder modulo 2^n |
| Wasm32.BitXorTwice | crates/sequential-lab/fixtures/sequential_probe.wat:22 | exclusive or with the same operand undoes itself |
| Wasm32.Bitwise | crates/sequential-lab/fixtures/sequential_probe.wat:22-42 | and and exclusive or work on each bit separately |
| StreamCapitalize.Process | crates/sequential-lab/fixtures/stream_capitalize.wat:16-38 | refuses wrap-around and overfull sums without touching memory, traps exactly past the end of memory, and otherwise returns the new length, leaves no byte of 97..122 among the new bytes, turns 97 + k into 65 + k, and changes no other byte of memory |
| StreamCapitalize.UpperIsUppercase | crates/sequential-lab/fixtures/stream_capitalize.wat:27-35 | uppercasing leaves no lower-case letter, moves each of the 26 to its capital, keeps every other byte, and done twice is done once |
| StreamCapitalize.ExecuteStream | crates/sequential-lab/src/wasm.rs:59-118 | the host call yields the previous bytes and behind them the chunk with 97 + k replaced by 65 + k and nothing else changed; neither a guest trap nor a wrong length can occur |
| StreamCapitalize.StreamingEqualsBatch | crates/sequential-lab/src/wasm.rs:59-118 | for every split of an input, folding the host calls equals uppercasing it whole, exactly when it fits |
| StreamCapitalize.SplitIndependence | crates/sequential-lab/src/wasm.rs:59-118 | two splits of one input give the same result or the same error |
| SequentialProbe.AddressForm | crates/sequential-lab/fixtures/sequential_probe.wat:33-38 | the masked wrapping product is 65536 + 64 * (i mod 131072) for every 32-bit i |
| SequentialProbe.AccessInBounds | crates/sequential-lab/fixtures/sequential_probe.wat:39-45 | every access stays inside the 129 pages and above the state page; with one page less the sweep would leave memory |
| SequentialProbe.SweepIsExact | crates/sequential-lab/fixtures/sequential_probe.wat:26-38 | each byte of the working set lies on the line of exactly one i of a sweep |
| SequentialProbe.SweepRepeats | crates/sequential-lab/fixtures/sequential_probe.wat:33-38 | two rounds touch the same line exactly when they are congruent modulo 131072 |
| SequentialProbe.WorkSparesState | crates/sequential-lab/fixtures/sequential_probe.wat:30-47 | no number of working-set rounds alters the state page |
| SequentialProbe.RoundRemembers | crates/sequential-lab/fixtures/sequential_probe.wat:33-46 | a round folds the word of its line bit by bit into the accumulator, leaves the accumulator plus the round number there, and changes no other byte |
| SequentialProbe.FlipState | crates/sequential-lab/fixtures/sequential_probe.wat:16-24 | the first loop flips exactly the state bytes, and traps exactly when the state exceeds memory |
| SequentialProbe.Sweep | crates/sequential-lab/fixtures/sequential_probe.wat:28-48 | the second loop computes the round-by-round meaning of memory and accumulator |
| SequentialProbe.Run | crates/sequential-lab/fixtures/sequential_probe.wat:5-48 | both loops together, for every role, bit, iteration count and state length |
| SequentialProbe.ExecuteTurn | crates/sequential-lab/src/wasm.rs:12-57 | the count travels as decimal text; if it parses, the state comes back flipped, independent of role, bit and iterations, and no guest trap can occur |
| Decimal.TextParses | crates/sequential-lab/src/main.rs:807 | a count written in decimal is parsed back exactly, unless it exceeds a signed 32-bit integer, when the runner rejects it |
| Decimal.TextIsDecimal | crates/sequential-lab/src/main.rs:660-669 | the argument is the usual decimal text: the digit itself, or the text of the tens followed by the digit of the units |
| Decimal.SignedTextParses | crates/sequential-lab/src/main.rs:884 | a sign may come first, and the negative range is wider by one |
| LabSpec.AppendChunk | crates/sequential-lab/src/main.rs:493-501 | storing a worker's result is appending one chunk to the log of chunks |
| LabSpec.StreamSucceeds | crates/sequential-lab/src/main.rs:722-788 | a stream runner succeeds when it is undisturbed and has room, and then appends the uppercased chunk; it counts as timed out exactly when it was killed |
| LabSpec.SessionsAreAppendLogs | crates/sequential-lab/src/main.rs:466-514 | in every legal history a session is the uppercased concatenation of the chunks accepted since its last reset, with chunks == next_sequence == their number, within the capacity |
| LabSpec.RepliesFollowTheLog | crates/sequential-lab/src/main.rs:466-526 | in every legal history each reply is determined by the chunks accepted before it: conflict, full state and counts by the log, the rest by the fate of the worker |
| LabSpec.StatesAreParities | crates/sequential-lab/src/main.rs:590-605 | in every legal history a slot's bytes depend on nothing but the parity of its successful turns; when success itself depends on role and bit is the subject of LabSecrecy |
| LabSpec.StateEffect | crates/sequential-lab/src/main.rs:590-605 | a request flips a slot's bytes exactly when it is an undisturbed turn of that slot with an accepted count, and leaves them alone otherwise |
| LabSpec.TurnFlips | crates/sequential-lab/src/main.rs:619-626 | probe, control, sender with bit 0 and sender with bit 1 each have the count configured for them, and an undisturbed turn flips its slot exactly when that count is below 2^31 |
| LabSecrecy.SameSidesHide | crates/sequential-lab/src/main.rs:590-605 | legal histories that differ in roles and bits of turns that fare alike leave the same states |
| LabSecrecy.BitIsHidden | crates/sequential-lab/src/main.rs:619-626 | the stored states are independent of the transmitted bits if and only if the two counts that a sender's bit selects are both accepted or both rejected |
| LabSecrecy.RoleAndBitAreHidden | crates/sequential-lab/src/main.rs:619-626 | the stored states are independent of roles and bits if and only if all four configured counts are accepted by the runner or all are rejected |
| LabSecrecy.LeakyLabStoresTheBit | crates/sequential-lab/src/main.rs:78-86 | a hot count of 2^31 passes the start-up checks, and then one turn with bit 0 leaves 0x5a and one with bit 1 leaves zeros |
| LabSecrecy.RunsAreTwins | crates/sequential-lab/src/main.rs:395-617 | non-interference: two runs of the server whose events differ only in roles and bits of turns that fare alike have the same stores, phases and replies throughout |
| LabMachine.CommitIsAtomic | crates/sequential-lab/src/main.rs:492-514 | although the session lock was free while the worker ran, committing its result equals running the whole request at once |
| LabMachine.StepKeeps | crates/sequential-lab/src/main.rs:450-570 | every step of every handler and slot task keeps the lane exclusive, snapshots current, the history legal, and the counter equal to the guards that are alive |
| LabMachine.RunKeeps | crates/sequential-lab/src/main.rs:450-570 | hence the invariant holds after every sequence of events |
| LabGuarantees.Linearizable | crates/sequential-lab/src/main.rs:450-570 | every interleaving ends in the store of a legal sequential history that contains each answered request exactly once with its caller's reply |
| LabGuarantees.RunIsLater | crates/sequential-lab/src/main.rs:450-570 | what was stored in the history or answered is never revised by later steps |
| LabGuarantees.RealTimeOrder | crates/sequential-lab/src/main.rs:450-570 | a request answered before another is submitted precedes it in the history |
| LabGuarantees.SnapshotStillCurrent | crates/sequential-lab/src/main.rs:456-514 | at commit the session still equals the snapshot and its next sequence number still equals the request's |
| LabGuarantees.AdmittedBelowTheCap | crates/sequential-lab/src/main.rs:395-570 | over every run: a malformed request is refused as such, a well-formed chunk or turn is throttled if and only if exactly 256 guards are alive, and everything else is admitted |
| LabGuarantees.CallerMayLeave | crates/sequential-lab/src/main.rs:529-570 | a reset or read whose caller leaves before it takes effect is dropped without a trace, and gives the lane back |
| LabGuarantees.WaitingGetsOn | crates/sequential-lab/src/main.rs:456-462 | whoever waits may proceed in any order: a read at once, reporting what its session holds then, anything else as soon as the lane is free |
| LabGuarantees.FateIsRecorded | crates/sequential-lab/src/main.rs:492-527 | a runner may end in any way, and whatever happens next its request takes effect with exactly that fate |
| LabGuarantees.StoresAreLogs | crates/sequential-lab/src/main.rs:466-514 | append log and parity hold of the real store after every run |
| LabGuarantees.AnswersFollowTheLog | crates/sequential-lab/src/main.rs:450-570 | in every run each answer given to a caller is the one its slot's append log implies at the point where the request took effect, reads included |
| LabGuarantees.OnlyCompletionWrites | crates/sequential-lab/src/main.rs:492-514 | a session changes only by a completed chunk for it or a reset covering it: timeouts, failures, conflicts and full states change none |
| LabGuarantees.QuiescentIsClean | crates/sequential-lab/src/main.rs:183-189 | once nothing is in flight the lane is free and the pending count is zero |
| LabProgress.SomeStep | crates/sequential-lab/src/main.rs:450-570 | with work left, some step of the server alone is possible and reduces what remains |
| LabProgress.Drains | crates/sequential-lab/src/main.rs:450-570 | from every reachable state some continuation without new requests or helpful workers finishes every chunk, turn, reset and read, leaving the lane free and nothing pending |
| LabProgress.EveryStepHelps | crates/sequential-lab/src/main.rs:450-570 | every possible step other than a new request reduces what remains |
| LabProgress.EveryScheduleFinishes | crates/sequential-lab/src/main.rs:450-570 | every schedule without new requests ends within the steps its tasks have left, and it can only end with everything finished, the lane free and nothing pending |
| LabServer.Server.constructor | crates/sequential-lab/src/main.rs:315-343 | the initial stores: empty sessions and zeroed states, all counters zero |
| LabServer.Server.ExecuteStreamProcess | crates/sequential-lab/src/main.rs:722-788 | an undisturbed runner within capacity yields the previous bytes plus the uppercased chunk |
| LabServer.Server.ExecuteProcess | crates/sequential-lab/src/main.rs:648-708 | the classification of a probe runner's end |
| LabServer.Server.RunStreamSlot | crates/sequential-lab/src/main.rs:450-527 | has the atomic effect and reply of its request, raises exactly the counter its outcome names, and is late exactly when its runner was killed |
| LabServer.Server.RunSlot | crates/sequential-lab/src/main.rs:572-617 | has the atomic effect of its turn and raises exactly one counter: successful, timed out if the runner was killed, failed otherwise; without success the state stays |
| LabServer.Server.Handle | crates/sequential-lab/src/main.rs:395-448 | rejects malformed requests and, at the cap, counts a throttled one, changing nothing else; otherwise runs the slot and gives the guard back |
| LabServer.Server.ResetSessions | crates/sequential-lab/src/main.rs:529-551 | validates the count and clears atomically |
| LabServer.Server.Stream | crates/sequential-lab/src/main.rs:422-570 | through the handlers, in place: after a reset, an input sent in sequence is read back as its uppercased whole however it was cut |
| StreamClient.PeriodicByte | crates/sequential-lab/src/main.rs:1302-1307 | the text looks the same from positions that differ by whole periods |
| StreamClient.GapFree | crates/sequential-lab/src/main.rs:1302-1307 | the regenerated chunks 0..n join to exactly the first n * bytes characters of the cyclic text |
| StreamClient.Digest | crates/sequential-lab/src/main.rs:1245-1297 | one reply's bookkeeping keeps the predicted bytes equal to the uppercased cyclic text of the completed chunks |
| StreamClient.RunSession | crates/sequential-lab/src/main.rs:1206-1300 | against arbitrary responses: every request carries the completed count and its chunk, every index is recorded in exactly one total, and an index is held back exactly when it is due before the client is free |
| StreamClient.HeldBackWhileBusy | crates/sequential-lab/src/main.rs:1226-1243 | an index is held back exactly when it is due before the answer to the last index that was sent |
| StreamClient.FirstIsSent | crates/sequential-lab/src/main.rs:1226-1243 | the first index of a session is always sent |
| StreamAgreement.FaithfulWriterAgrees | crates/sequential-lab/src/main.rs:1206-1300 | in every legal history a client that follows the protocol within capacity is never refused, and its completions say what the server holds |
| StreamAgreement.RequestsAreWellFormed | crates/sequential-lab/src/main.rs:428-434 | every regenerated chunk of an accepted size passes the handler's checks |
| StreamAgreement.HistoryIsTranscript | crates/sequential-lab/src/main.rs:450-514 | the server's history of the slot is exactly the client's admitted transcript |
| StreamAgreement.AnswersResolve | crates/sequential-lab/src/main.rs:422-448 | whatever such a client is answered is a 429 or comes from the history: never a malformed request |
| StreamAgreement.WaitingIsOneAtATime | crates/sequential-lab/src/main.rs:1225-1262 | a client that sends only when its reset and its earlier requests have been answered takes effect in that order |
| StreamAgreement.AgreementInEveryRun | crates/sequential-lab/src/main.rs:1072-1300 | in every interleaving, a client that waits for its answers and owns its slot since a reset never receives a bad request, a conflict or a full state, and the stored session is the uppercased cyclic prefix of its completed count |
| StreamScenario.StepBy | crates/sequential-lab/src/main.rs:1068-1119 | the step_by loop yields exactly the indices congruent to the slot |
| StreamScenario.ClaimAll | crates/sequential-lab/src/main.rs:1068-1119 | the slices of all sessions together claim every offered index once |
| StreamScenario.DealtExactly | crates/sequential-lab/src/main.rs:1072-1075 | an index is dealt to the slot it is congruent to and to no other |
| StreamScenario.FairShares | crates/sequential-lab/src/main.rs:1072-1075 | shares differ by at most one |
| StreamScenario.PlanSession | crates/sequential-lab/src/main.rs:1072-1079 | indices kept plus indices omitted for capacity are the session's share |
| StreamScenario.CountAttempts | crates/sequential-lab/src/main.rs:1108-1112 | the attempted count is the records that the client did not hold back |
| StreamScenario.Collect | crates/sequential-lab/src/main.rs:1099-1119 | completed + failed + server-throttled + client-backpressured = offered and attempted = completed + failed + server-throttled, in whatever order sessions join |
| StreamScenario.Verify | crates/sequential-lab/src/main.rs:1125-1154 | the mismatches are exactly as many as the sessions that differ in digest, length or number of chunks, and all others are verified |
| StreamScenario.SessionVerifies | crates/sequential-lab/src/main.rs:1125-1154 | such a session passes the final comparison for every hash function |
| StreamScenario.RunSessions | crates/sequential-lab/src/main.rs:1071-1098 | all sessions end balanced and faithful to the protocol, or the last one gave up for a lost response or an unusable answer |
| StreamScenario.RunScenario | crates/sequential-lab/src/main.rs:1061-1204 | planning, sessions, totals and comparison composed: totals account for every offered index, and if one run of the server explains what the clients saw then no session mismatches and none gives up except for a lost response |
| Xorshift.NextOfNonzero | crates/bench-client/src/main.rs:891-896 | the three shifts map zero to zero and nothing else to zero |
| Xorshift.DegenerateSeed | crates/bench-client/src/main.rs:861 | raising the seed to one does not protect the generator: it is stuck at zero exactly when the seed equals the salt |
| Xorshift.Generator.Index | crates/bench-client/src/main.rs:891-896 | advances the state by the three shifts and returns the remainder of the new state modulo the bound |
| Xorshift.NextOfKnownStates | crates/bench-client/src/main.rs:891-895 | three known answers of the step |
| Xorshift.PickIsRemainder | crates/bench-client/src/main.rs:895 | a draw is the remainder of the stepped state, so states congruent after the step draw alike |
| XorshiftPermutation.NextIsOnto | crates/bench-client/src/main.rs:892-894 | every state is the successor of some state |
| XorshiftPermutation.NextIsOneToOne | crates/bench-client/src/main.rs:892-894 | and of one only: the step permutes the 2^64 states |
| XorshiftPermutation.AfterIsOneToOne | crates/bench-client/src/main.rs:892-894 | so any number of steps keeps different states apart |
| XorshiftPermutation.EveryIndexIsDrawn | crates/bench-client/src/main.rs:891-896 | every index below the bound that a 64-bit word can name is drawn from some state |
| FisherYates.Shuffle | crates/bench-client/src/main.rs:884-889 | the in-place shuffle computes the swap recurrence on array and generator state |
| FisherYates.ShuffleSteps | crates/bench-client/src/main.rs:884-889 | a shuffle steps the generator once for each position but the first |
| FisherYates.DrawIsRemainder | crates/bench-client/src/main.rs:884-896 | the pick for position k of a shuffle from position i is the remainder, modulo k + 1, of the state after i - k + 1 steps |
| FisherYates.ShuffleIsItsDraws | crates/bench-client/src/main.rs:884-889 | the generator enters a shuffle through its picks only |
| FisherYates.ShufflePermutes | crates/bench-client/src/main.rs:884-889 | a shuffle rearranges its input |
| FisherYates.EveryArrangementArises | crates/bench-client/src/main.rs:884-889 | every rearrangement is the result of some picks |
| FisherYates.PicksAreUnique | crates/bench-client/src/main.rs:884-889 | among distinct elements of exactly one vector of picks, so uniform picks shuffle uniformly |
| TrialDesign.PrefixBalance | crates/bench-client/src/main.rs:866-880 | a sequence of shuffled blocks holds, in every prefix of length n, each combination floor(n / 2m) to ceil(n / 2m) times its multiplicity |
| TrialDesign.DesignIsBalanced | crates/bench-client/src/main.rs:848-882 | the calibration part holds every (offset, bit) c times per mention of the offset, and every scoring prefix is balanced |
| TrialDesign.BitsAreBalanced | crates/sequential-lab/src/main.rs:1607-1633 | over a whole plan the two bits of an offset differ by at most one trial for every time the offset was given |
| TrialDesign.CombinationAt | crates/bench-client/src/main.rs:865-873 | before shuffling, a block holds bit 0 and bit 1 of each offset in the order given |
| TrialDesign.CalibrationAt | crates/bench-client/src/main.rs:851-859 | before shuffling, the calibration part holds for each offset in turn c pairs of bit 0 and bit 1 |
| TrialDesign.AnalysisSplit | crates/sequential-lab/src/main.rs:1503 | the calibration length recomputed from the different gaps of the whole plan never exceeds the real one, and equals it exactly when no gap was given twice or there is no calibration |
| TrialDesign.GapsFound | crates/sequential-lab/src/main.rs:1635-1640 | the gaps of a whole plan are the given ones: shuffling, repeating and cutting blocks adds and loses none |
| TrialDesign.RepeatedGap | crates/sequential-lab/src/main.rs:1503 | gaps 0 and 0 with ten samples: 40 calibration trials, of which the analysis finds 20 |
| TrialPlan.PlanIsDesigned | crates/sequential-lab/src/main.rs:1607-1633 | for every seed and generator state the plan has the requested length and is such a design |
| TrialPlan.ScoredBlock | crates/sequential-lab/src/main.rs:1627-1631 | block m of the scored trials is the shuffle of the block from the state that the m shuffles before it leave, cut to what is missing |
| TrialPlan.PlanIsShuffled | crates/sequential-lab/src/main.rs:1621-1631 | in every plan the calibration part is the shuffled calibration, and each scored block the shuffle of the combinations from the state all shuffles before it leave |
| TrialPlan.ExtendInBlocks | crates/sequential-lab/src/main.rs:1627-1631 | the block loop terminates with the appended blocks, each shuffled from the state the one before left, and the last one cut to the target length |
| TrialPlan.BuildLabPlan | crates/sequential-lab/src/main.rs:1607-1633 | builds that plan in place: designed, and shuffled throughout |
| TrialPlan.BuildClientPlan | crates/bench-client/src/main.rs:848-882 | collecting the scored trials separately and appending them gives the same plan, shuffled throughout |
| Decoding.NearestMean | crates/bench-client/src/main.rs:476-496 | the decoder picks the bit with the nearer calibration mean; ties go to the higher mean |
| Decoding.MeanOfJoined | crates/bench-client/src/main.rs:903-907 | the mean of one value is the value, and a joined sample weighs each part by its size |
| Decoding.OwnSamples | crates/bench-client/src/main.rs:417-461 | the calibration samples decode as themselves, except that zeros decode as ones when the means coincide |
| MutualInformation.MutualInformation | crates/bench-client/src/main.rs:617-639 | the counting and summing loops compute the table's information, clamped at zero |
| MutualInformation.ReorderingKeepsInformation | crates/bench-client/src/main.rs:617-639 | reordering the pairs changes neither table nor information |
| MutualInformation.SymmetriesKeepInformation | crates/bench-client/src/main.rs:617-639 | flipping either bit or exchanging the variables changes nothing |
| InformationBounds.ClampIsIdle | crates/bench-client/src/main.rs:626-638 | the sum is never negative before the clamp, even with pairs that the table ignores |
| InformationBounds.InformationIsSharedEntropy | crates/bench-client/src/main.rs:626-638 | the information of bits is the entropy of the expected ones plus that of the decoded ones less that of the pairs |
| InformationBounds.NothingIffIndependent | crates/bench-client/src/main.rs:626-638 | the information of bits is zero exactly when the table is independent |
| InformationBounds.ConstantTellsNothing | crates/bench-client/src/main.rs:626-638 | a constant variable carries no information |
| InformationBounds.AtMostOneBit | crates/bench-client/src/main.rs:626-638 | it never exceeds one bit |
| InformationBounds.PerfectIsOneBit | crates/bench-client/src/main.rs:922-927 | error-free and always-wrong decoding of balanced bits are worth exactly one bit |
| Strata.OffsetsAreSorted | crates/bench-client/src/main.rs:698-700 | the strata come in strictly ascending order |
| Strata.OffsetsAreThose | crates/bench-client/src/main.rs:698-700 | they are exactly the offsets that occur |
| Sorting.SortedIsUnique | crates/bench-client/src/main.rs:699 | a sequence has one sorted rearrangement only, so the choice of algorithm is immaterial |
| Sorting.DedupIsAscending | crates/bench-client/src/main.rs:699-700 | merging equal neighbours of a sorted sequence leaves every value once |
| Strata.SortedOffsets | crates/bench-client/src/main.rs:698-700 | however the offsets are sorted, merging equal neighbours leaves exactly the strata |
| Strata.StrataPartition | crates/bench-client/src/main.rs:698-711 | every position lies in exactly one group, that of its offset |
| Strata.ShuffleGroup | crates/bench-client/src/main.rs:717-722 | the loop over one group computes the group shuffle on labels and generator state |
| Strata.ShuffleGroups | crates/bench-client/src/main.rs:716-722 | and so for all groups in order |
| Strata.GroupShuffleIsShuffle | crates/bench-client/src/main.rs:717-722 | seen through its positions a group shuffle is the ordinary Fisher-Yates shuffle |
| Strata.GroupLeavesRest | crates/bench-client/src/main.rs:717-722 | labels outside the group stay where they are |
| Strata.RoundShufflesEachStratum | crates/bench-client/src/main.rs:715-722 | for every real stratum, a whole round does to its labels what the ordinary shuffle does to them alone |
| Strata.RoundSteps | crates/bench-client/src/main.rs:715-722 | n rounds step the generator n times as often as one round does |
| Strata.EveryRoundShuffles | crates/bench-client/src/main.rs:712-722 | round n + 1 leaves in every stratum the ordinary shuffle of what round n left there, from the state all rounds and strata before it leave; the first starts from the observed labels |
| Strata.RoundsKeep | crates/bench-client/src/main.rs:715-722 | whatever every swap within a stratum keeps, any number of rounds keeps |
| Strata.RoundsStayInStrata | crates/bench-client/src/main.rs:712-722 | after any number of rounds each stratum holds exactly the labels it held at first |
| Strata.MarginsAreFixed | crates/bench-client/src/main.rs:712-722 | every count of labels, in a stratum or overall, is unchanged |
| PermutationTest.FindGroups | crates/bench-client/src/main.rs:698-711 | sorting by any algorithm, merging equal neighbours and filtering yield the groups |
| PermutationTest.PermutationTest | crates/bench-client/src/main.rs:688-741 | p value, null mean and null 95th percentile over the shuffled labels, with the early return for empty input; the next rows say what these are |
| PermutationTest.PCountsReaching | crates/bench-client/src/main.rs:729-736 | p is one more than the number of rounds whose information is at least the observed one less 2^-52, divided by n + 1 |
| PermutationTest.UnreachedIsExtreme | crates/bench-client/src/main.rs:729-736 | p is 1 / (n + 1) when no round reaches the observed information |
| PermutationTest.NullMeanIsAverage | crates/bench-client/src/main.rs:733 | the null mean is the average over the rounds, and the corrected information what the observed one exceeds it by, never negative |
| PermutationTest.TableMarginsAreFixed | crates/bench-client/src/main.rs:723-728 | all four margins of every round's 2x2 table equal the observed ones |
| PermutationTest.PIsBounded | crates/bench-client/src/main.rs:735-736 | 1 / (n + 1) <= p <= 1 |
| PermutationTest.P95Splits | crates/bench-client/src/main.rs:733-740 | the reported percentile is one of the estimates and splits them at its rank |
| PermutationTest.DetectionThreshold | crates/bench-client/src/main.rs:549-551 | a leak is called detected exactly when fewer than 100 of the 2000 shuffles reach the observed information |
| PermutationTest.RoundsChangeNothing | crates/bench-client/src/main.rs:715-728 | with every stratum constant in one variable, each round reproduces the observed pairs |
| PermutationTest.DegenerateStrataGiveNoSignal | crates/bench-client/src/main.rs:548-551 | then p is 1, null mean and percentile are the observed information and the corrected information is 0 |
| Artifact.EnvelopeOpens | crates/scheduler/src/artifact.rs:121-143 | what an envelope of any module opens to, at every size limit |
| Artifact.OnlyEnvelopesLoad | crates/scheduler/src/artifact.rs:121-143 | whatever loads is the content of an envelope sealed under the same key, non-empty and within the limit |
| Artifact.WhyNothingOpens | crates/scheduler/src/artifact.rs:121-134 | which error an unopenable body gives: a wrong header or nothing inside, a key that is not 32 bytes, or, exactly then, a header under which no module was sealed |
| Artifact.PullAndDecrypt | crates/scheduler/src/artifact.rs:69-111 | the bounded reading loop computes the pull outcome |
| Artifact.AccumulatedIsArrived | crates/scheduler/src/artifact.rs:99-109 | the loop ends too large, broken or complete by the bytes that arrived alone |
| Artifact.PullIgnoresChunking | crates/scheduler/src/artifact.rs:99-110 | without a declared length, how the body is cut makes no difference |
| Artifact.DeclaredLengthOnlyRefuses | crates/scheduler/src/artifact.rs:73-98 | a declared length over the limit refuses the body unread, any other is ignored, and a limit that overflows refuses everything |
| Artifact.RoundTrip | crates/scheduler/src/artifact.rs:69-143 | every module of 1..=max bytes survives sealing, any chunking, pulling and opening |
| Artifact.SizeCheckIsIdleAfterPull | crates/scheduler/src/artifact.rs:135-137 | the final size check can never reject a body that was pulled |
| Artifact.PullLoadsOnlyEnvelopes | crates/scheduler/src/artifact.rs:69-143 | what loads arrived whole, as the envelope of what loads |

## Left out

- Kernel sandbox, process spawning, environment clearing, HTTP routing, JSON, command line and file output.
- Module validation, fuel metering and the interpreter: only the two fixed guest programs have a meaning here.
- The comparison of the bearer token, URL and header checks, and the constant-time digest comparison.
- Microarchitectural timing, and the unpadded early replies for conflicts and full states: schedule
  independence is a statement about the production scheduler's slots.
- Floating-point rounding, bootstrap intervals, percentiles of latencies, histograms and the assembly of
  reports.
- Wall-clock latencies in records; the client's clock enters only through response times.
- The lab's own permutation test differs from the modelled one in summing estimates as it goes and in
  having no case for zero iterations; it is only called with 2000 and 4000.
- The lab's own table indexes with the labels directly; the modelled one ignores labels above one, and the
  two agree on bits.
- SequentialProbe.ExecuteTurn: fuel is not metered, so a count that parses always finishes here; in the lab
  models a runner that exhausts its fuel is one that breaks down, which any turn may.
- LabSecrecy.BitIsHidden: compares runs in which the workers fare alike; that a larger accepted count may
  exhaust time or fuel where a smaller one does not is not modelled.
- StreamScenario.RunScenario: the final states are read at one point of the run, and sessions run one after
  the other, which their separate slots and responses make immaterial.
- LabServer.Server.Handle: runs the slot task to its end before answering; interleavings are the subject of
  LabMachine, on values.
- LabMachine.Step: the lane's first-in-first-out order and the lab's optional padded release are not
  modelled; any waiting task may take the lane, which only adds runs.
- SlotScheduler.Scheduler.RunWorker: one caller at a time; queued callers are the subject of SlotMachine.
- SlotScheduler.Scheduler.AcquirePermit: the semaphore's queue is the admission order of the tasks.
- Artifact.PullAndDecrypt: opening in place is modelled on values, and buffers are not zeroed.
- StreamClient.RunSession: the 64-bit product of sequence number and chunk size is unbounded here; within
  the capacity it cannot wrap.
- Xorshift.Generator.Index: the period of the generator and the bias of the remainder are not treated.

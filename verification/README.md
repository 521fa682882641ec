# Verified model of the QKD link control

This project models the software that runs a quantum-key-distribution link between two machines,
Alice and Bob, and proves what it is meant to guarantee. Bob's detector produces click records. Their
counters go to Alice over TCP and into both FPGAs, and their results into a local fifo. Key material
is right only if all of these follow one sequence. Around that pipeline stand a session protocol, a
readiness handshake with an external node, a calibration dialogue of some forty commands, and the
arithmetic that places the detector gate and finds the fibre delay.

`dafny verify dfyconfig.toml` checks everything.

| File | Part of the system |
|---|---|
| `Bytes.dfy`, `Text.dfy`, `Utf8.dfy`, `Maybe.dfy`, `Runs.dfy`, `Counting.dfy` | little-endian integers, shifts and masks; numbers as text, lines, separators; UTF-8, strict and with replacement; runs of a transition system; counting in lists |
| `GcCodec.dfy`, `GcRecords.dfy`, `GcBatches.dfy` | click records, counter streams, power-of-two batches |
| `GcLinks.dfy`, `GcLoops.dfy` | the reading, writing and relaying loops on byte streams with arbitrary chunks |
| `GcPipeline.dfy`, `GcShortReads.dfy`, `GcDelivery.dfy` | Bob's loop, the TCP link and Alice's loop as interleaved steps; what short top-up reads do, over all inputs; that delivery can always complete |
| `GcSession.dfy` | the control thread, the receiver threads and RUNNING |
| `ReadyHandshake.dfy` | gc, the calibration server, the node and the two flag files |
| `Dialogue.dfy`, `HwsCommands.dfy` | two-party programs over typed messages; every calibration command on both sides |
| `Wire.dfy`, `HwsBytes.dfy` | how messages lie on a byte stream; the dialogue over its bytes |
| `GateDelay.dfy`, `GateSearch.dfy` | the gate's delay line, its position file and registers; the placement check on both machines |
| `FiberDelay.dfy` | the two test sequences and the two-stage delay search |
| `LogTail.dfy`, `QberTally.dfy`, `ParamFile.dfy` | the log server's tail, the error-rate tally, the parameter file shared by Python and Rust |

How the model takes the system's form:

* Loops that fill buffers, relay streams, search, build histograms, tally or read a file backwards
  are methods with loop invariants. Objects that are updated (streams, the delay line, the position
  file, the gate, the parameter file) are classes. Each method is tied to a function or predicate,
  and the lemmas are about those.
* Protocols between threads or machines are state machines. Every flag test, store, reply, read,
  write, spawn and join is one step, the schedule is arbitrary, and results are about every reachable
  state or every run.
* What comes from outside is a parameter or an arbitrary choice: chunk sizes, short top-up reads,
  failing writes, read times, detector counts, exceptions while counting or anywhere inside a move of
  the gate, when a peer closes, when a node polls or crashes. Noise-free counts and bounded noise are
  hypotheses only where a row says so.
* Float thresholds such as `base * (1 + 0.08)` are compared exactly as rationals, and rounding to a
  tap is exact (a tie cannot occur).

What the proofs bring out, where the code does not do quite what one would expect:

* "At most one receiver thread" holds for receivers that can still write or touch RUNNING. The
  thread of an ended session may still be closing its files while the next one runs
  (`GcSession.TwoThreadsCanCoexist`).
* A top-up read of Alice's that stops short with the stream going on is only logged, and her counters
  can be wrong from then on. A schedule keeps them in order on every input of its length iff she
  decodes nothing after the first such read (`GcShortReads.ShortTopUpsExactly`). The same holds of
  Bob's clicks (`GcShortReads.BobShortReadsExactly`). Nothing else can misplace them.
* The node's contract, that a poll taken while gc is not streaming finds its fds closed, is exactly
  what the handshake needs (`ReadyHandshake.ContractIsExact`). A poll sent at a round boundary and
  taken just after the stream ended breaks it (`ReadyHandshake.RoundBoundaryPollCanBreakIt`). That
  polls are answered HwNotReady needs no contract.
* The `wait_for_node_idle` timeout really does allow a re-initialisation under open fds
  (`ReadyHandshake.TimedOutWaitIsUnsafe`).
* `set_angles_a` raises on an undefined name right after announcing itself with a word Bob does not
  know. As written it leaves both sides in their loops, and it is one of the modelled commands.
* A coarse delay of sixteen or more spills into the duty field and loses the delay
  (`GateDelay.MasterWordDecodes`, `GateDelay.PlacedIsExact`). The calibrated range never gets there.
* A move of the gate that raises between its first trigger and its last line can leave the position
  file wrong, and then every later move is off by the same amount until the next reset
  (`GateDelay.DisplacementStays`). The rollback ends at the start iff the file still told the truth
  when it began (`GateDelay.RollbackEnds`), and `GateDelay.FaultKeepsTruthIff` says for each action
  after which that is so. The lines have no fixed length, so a failure after one line only can even
  leave the file unreadable (`GateDelay.FaultAfterShorterLine`).
* The delay search finds its bin for sure iff four times the noise of a bin is less than the contrast,
  or no more than it for the first bin (`FiberDelay.ToleranceIsExact`).
* A failed gate side test ends in a move exactly for those starts whose clamped side probes lie on
  the scan grid (`GateSearch.FailedTestMovesIffOnGrid`).
* The tail's reply is the last lines of the file iff these, with every bad byte replaced by a
  three-byte character, are at most 5 MiB (`LogTail.DoTail`). A much smaller file of bad bytes does
  not fit (`LogTail.SmallFileNeedNotFit`), and a cut reply can exceed the limit by the notice and six
  bytes (`LogTail.CappedLength`).
* The parameter file loses strings with a carriage return as well as those with tabs and newlines
  (`ParamFile.RoundTripIffStorable`), and `decoy_fiber_delay` is unreadable for the Rust programs
  when the fibre delay is below 25 (`ParamFile.DecoyDelayIsReadable`).
* The length byte of a dialogue string counts characters, so a string keeps the stream in step iff it
  is ASCII (`Wire.TextInStepIffAscii`).

## Model

| member | source | states |
|---|---|---|
| GcCodec.SplitGcr | gc/src/hw.rs:240-250 | a split counter is below 2^49 and the result is one bit; which bits they are is the next row |
| GcCodec.SplitAfterLaid | gc/src/hw.rs:240-250 | from a record laid out independently (48 upper counter bits lowest byte first, then lowest counter bit, result, spare bits), splitting gives exactly the counter and the result |
| GcCodec.EveryRecordIsLaid | gc/src/hw.rs:240-250 | every eight bytes are laid out like that, so splitting is determined everywhere |
| GcCodec.SplitAfterFormat | gc/src/hw.rs:240-259 | splitting a formatted counter gives it modulo 2^49, so it comes back iff it is below 2^49 |
| GcCodec.FormatAfterSplit | gc/src/hw.rs:240-259 | formatting a split record gives back bytes 0-5 and the low bit of byte 6, all else zero |
| GcRecords.CountersRoundTrip | gc/src/hw.rs:350-357 | counters encoded for the link decode to themselves, for all 64-bit values |
| GcRecords.FpgaRoundTrip | gc/src/hw.rs:339-347 | counters below 2^49 survive the trip through FPGA records |
| GcRecords.ClicksOfFifo | gc/src/hw.rs:264-320 | the clicks of a whole fifo are exactly the counters and results laid out in it, in order, whatever its spare bits and bytes; a partial record at the end gives none |
| GcRecords.EveryFifoIsLaid | gc/src/hw.rs:264-320 | every sequence of whole records is such a fifo |
| Bytes.ToLeAt | gc/src/hw.rs:339-357 | byte i of an encoded integer is its digit of weight 256^i |
| GcBatches.DecomposeNumClicks | gc/src/hw.rs:323-336 | for any power-of-two batch size: powers of two no larger than it, full ones first and then strictly ascending, summing to the click count |
| GcBatches.DecomposeIsUnique | gc/src/hw.rs:323-336 | it is the only such list: any acceptable batch list is the decomposition of its own sum |
| GcBatches.SlicesPartition | gc/src/bin/alice.rs:78-88 | slicing an array by sizes that add up to its length partitions it in order, without gap or overlap |
| GcBatches.SubBatches | gc/src/bin/alice.rs:78-88 | Alice's sub-batches, joined, are the received counters, and each has 1 to 256 of them |
| GcLinks.ReadAligned | gc/src/hw.rs:277-298 | a read and its one top-up take a prefix of the stream, never more than asked for; aligned iff the length is whole records |
| GcLinks.ProcessGcrStream | gc/src/hw.rs:264-320 | counters and results are exactly the clicks in the bytes taken, at most read_length of them, so the clamp on num_clicks never fires; Len0 iff the fifo has ended |
| GcLinks.ReadGcFromBob | gc/src/hw.rs:373-400 | at most 1024 counters, exactly those in the bytes taken; with full top-ups, none iff the stream has ended |
| GcLinks.WriteGcToFpga | gc/src/hw.rs:339-347 | one record a counter is appended to the FPGA's stream; a write that fails appends a first part of them |
| GcLinks.WriteGcToAlice | gc/src/hw.rs:350-369 | eight bytes a counter are appended to Alice's link or the user fifo; a write that fails appends a first part |
| GcLoops.ReadLengthInRange | gc/src/bin/bob.rs:90-105 | for every run of read times the batch size stays a power of two in 1..256 |
| GcLoops.FastReadsFillTheBatch | gc/src/bin/bob.rs:90-101 | k fast reads from the start give batches of 2^k, then of 256 |
| GcLoops.ReadTimeDecides | gc/src/bin/bob.rs:94-105 | one read: below 20 ms the batch doubles up to 256, from 20 to 80 it stays, above 80 and below 160 it halves down to 1, from 160 it is 1 |
| GcLoops.SlowReadsShrinkTheBatch | gc/src/bin/bob.rs:94-105 | runs of slow reads halve the batch down to 1, runs of steady reads leave it alone |
| GcLoops.SendGc | gc/src/bin/bob.rs:42-126 | runs until the click fifo ends or any write fails; with complete top-ups, Alice, Bob's FPGA, the result fifo and the user fifo, if there is one, hold exactly the clicks of all full rounds, plus a first part of the batch in which a write failed |
| GcLoops.ForwardBatch | gc/src/bin/bob.rs:94-119 | one round: Alice, Bob's FPGA, the result fifo and the user fifo each get something only after the one before got its whole batch |
| GcLoops.RecvGc | gc/src/bin/alice.rs:58-103 | whenever RUNNING is cleared or a write fails, with complete top-ups: Alice's FPGA got exactly the counters of the bytes taken, of the whole stream if it ended by end of stream, and a first part of the array in which a write failed |
| GcLoops.WriteBatches | gc/src/bin/alice.rs:78-88 | whatever the count, the slices written to the FPGA amount to the received counters in order, or to a first part of them if a write fails |
| GcPipeline.StepKeepsInv | gc/src/bin/bob.rs:94-125 | every step of Bob, the link and Alice keeps the pipeline invariant, short reads included |
| GcPipeline.CountersConserved | gc/src/bin/alice.rs:58-88 | in every reachable state in which Alice has discarded nothing: her FPGA, then her unwritten sub-batches, then the decoded bytes in flight are exactly the counters Bob made of his click fifo |
| GcPipeline.OneClickSequence | gc/src/bin/bob.rs:94-125 | in every reachable state Bob's FPGA log and result log are prefixes of one click sequence, lagging it by at most one batch; Alice's is one too while no top-up of hers has stopped short with the stream going on; the sequence is that of the click fifo while Bob's top-ups are complete |
| GcPipeline.ResultsBelongToCounters | gc/src/bin/bob.rs:106-113 | in every reachable state result i and counter i on Bob's side are the two halves of click i |
| GcPipeline.CleanEndIsComplete | gc/src/bin/alice.rs:66-76 | once Bob has finished a round and Alice has left at end of stream without discarding anything, all three logs are complete |
| GcDelivery.DeliveryCanComplete | gc/src/bin/bob.rs:94-125 | from every reachable state in which both loops run, Bob's top-ups were complete and Alice discarded nothing, some run ends with exactly the clicks of the whole fifo on both FPGAs and in the result fifo |
| GcDelivery.AnySizeIsPossible | gc/src/hw.rs:273-298 | reads, writes and top-ups of every size that buffers and waiting bytes allow are steps of the model |
| GcShortReads.ShortTopUpsExactly | gc/src/hw.rs:373-400 | a schedule gives Alice, on every input of a length, a prefix of Bob's counters iff no top-up of hers stops short with the stream going on, or she decodes no counter after the first that does; the same of her FPGA iff no counter is written after it |
| GcShortReads.BobShortReadsExactly | gc/src/hw.rs:277-298 | a schedule gives Bob, on every input of a length, a prefix of the clicks of his fifo iff no top-up of his stops short, or he makes no click after the first that does |
| GcShortReads.RunShape | gc/src/bin/alice.rs:58-88 | which steps are possible depends on lengths only: a schedule possible on one input is possible on every other of its length and leaves states of the same shape |
| GcPipeline.ShortTopUpMisplacesCounters | gc/src/hw.rs:379-389 | a reachable state in which, after a top-up of one byte out of seven, 2^48 stands at Alice where Bob took 0 |
| GcSession.AtMostOneLive | gc/src/bin/alice.rs:243-314 | in every reachable state at most one receiver is live, and it is the one behind recv_handle |
| GcSession.OnlyTheCurrentReceiverClears | gc/src/bin/alice.rs:97-103 | a receiver that clears RUNNING is the latest one and no new session is being started, so it never ends a later session |
| GcSession.StopAndTearDownAreQuiet | gc/src/bin/alice.rs:286-314 | Done in reply to Stop, and the end of a control connection, imply that no receiver is live and RUNNING is clear |
| GcSession.QuietUntilNextStart | gc/src/bin/alice.rs:243-314 | with no live receiver, over every run in which no receiver is spawned, no FPGA write happens and none comes to life |
| GcSession.BatchesAreWritten | gc/src/bin/alice.rs:78-88 | a receiver with n sub-batches makes exactly n FPGA writes before it tests RUNNING again |
| GcSession.MisplacedRequestsDoNothing | gc/src/bin/alice.rs:243-297 | a Start while running and a Stop while not are answered DidNothing and change nothing else |
| GcSession.OnlyMisplacedRequestsDoNothing | gc/src/bin/alice.rs:243-297 | no other request is answered DidNothing |
| GcSession.JoinCanComplete | gc/src/bin/alice.rs:286-314 | whenever the control thread joins a receiver, some run completes: the Stop is answered Done, the next connection accepted |
| GcSession.TwoThreadsCanCoexist | gc/src/bin/alice.rs:97-103 | a reachable state with two receiver threads, the older one past its last store |
| ReadyHandshake.StepKeepsInv | gc/src/control.rs:27-61 | every atomic step of gc, calibration server and node that keeps the node's contract keeps the handshake invariant |
| ReadyHandshake.AnswerFollowsTheFlag | gc/src/control.rs:27-61 | over every run from the test of the ready flag to the answer: HwReady iff the flag was up, streaming or not, to the connection that polled; on the way gc raises the idle flag only if the ready flag was down and it did not stream, and lowers it only if it was up |
| ReadyHandshake.PollIsHandled | gc/src/control.rs:27-61 | gc's own steps for a poll run from any state; afterwards the idle flag is down if the ready flag was up, else raised iff gc did not stream when it took the poll, else left alone, and nothing but the reply has changed |
| ReadyHandshake.StreamingIsReadOnce | gc/src/bin/alice.rs:278-286 | the streaming flag that decides is the one of the moment the poll is taken |
| ReadyHandshake.WaitCanBeAcknowledged | remote/hws_bob.py:61-73 | from every state in which the calibration server waits, a node that keeps its contract can still bring about an acknowledged, safe re-initialisation |
| ReadyHandshake.IdleFlagMeansClosed | gc/src/control.rs:45-58 | in every state reached under the node's contract, the idle flag implies that the node's fds are closed |
| ReadyHandshake.ReinitialisationIsSafe | remote/hws_alice.py:1781-1797 | under the node's contract the FPGA is never re-initialised under open fds after an acknowledged wait |
| ReadyHandshake.NotReadyUntilStart | remote/hws_alice.py:1686-1700 | once the wait returned True, over every run up to the next start every poll is answered HwNotReady, whatever the node does |
| ReadyHandshake.ClosedUntilStart | remote/hws_alice.py:1853-1854 | and over every such run that keeps the node's contract its fds stay closed |
| ReadyHandshake.ContractIsExact | comm/src/lib.rs:15-18 | a run keeps the node's contract iff it never passes through a state from which an acknowledged re-initialisation under open fds can still be reached |
| ReadyHandshake.BrokenContractGoesWrong | gc/src/control.rs:8-13 | one poll taken while not streaming, from a node with open fds, suffices for such a re-initialisation |
| ReadyHandshake.RoundBoundaryPollCanBreakIt | gc/src/bin/alice.rs:97-101 | a reachable state in which a poll sent with open fds is about to be taken after the stream has ended |
| ReadyHandshake.TimedOutWaitIsUnsafe | remote/hws_bob.py:61-73 | a reachable state in which a wait that timed out re-initialises under open fds |
| Dialogue.CompatibleDialogue | remote/hws_alice.py:28-102 | soundness of the compatibility check over every asynchronous run: no value is read at another type, no deadlock, and the end with empty channels stays reachable |
| Dialogue.NeverStuck | remote/hws_alice.py:28-102 | in a compatible dialogue some side can always make progress until it is over |
| Dialogue.CanFinish | remote/hws_alice.py:28-102 | from every state of a compatible dialogue some run finishes it with both channels empty |
| HwsCommands.EveryCommandFits | remote/hws_alice.py:182-1674 | every command of Alice's function map fits Bob's dispatcher and returns him to his loop |
| HwsCommands.CommandFidelity | remote/hws_bob.py:333-1099 | every command, for any data-dependent choices and loop counts, over every run: no type error, no deadlock, both sides back with empty channels |
| HwsCommands.SessionFidelity | remote/hws_alice.py:1707-1756 | the same for whole sessions of commands, with Alice free to run ahead of Bob |
| HwsBytes.CompatibleOnBytes | remote/hws_bob.py:256-331 | the compatibility check is enough for the real connection: with untyped frames whose bytes arrive in pieces while both sides run, over every run no receive raises or misreads, each side has read a prefix of what was sent to it, and the end with all sent and read stays reachable |
| HwsBytes.SessionOnBytes | remote/hws_alice.py:28-102 | the same for whole sessions over any menu of the commands, whose words all reach Bob as they were sent |
| HwsBytes.MoveRefines | remote/hws_alice.py:28-102 | every move of the bytes is the step of the typed dialogue it stands for, or no step of it |
| Wire.RecvExact | remote/hws_bob.py:257-264 | for any chunks, exactly the next l bytes are read; fails iff the stream ends first |
| Wire.IntOnTheWire | remote/hws_bob.py:285-301 | every 32-bit integer comes back from its four bytes, negative ones included |
| Wire.StreamIsAQueue | remote/hws_bob.py:266-331 | any list of sendable messages, read at its types from the untagged byte stream, comes back in order with nothing left over |
| Wire.TextInStepIffAscii | remote/hws_bob.py:266-284 | receiving a string takes exactly its frame iff it is ASCII |
| Wire.ReadMessage | comm/src/lib.rs:69-85 | the framing succeeds iff the stream holds a length and that many bytes, and takes exactly those |
| Wire.RequestsComeBack | comm/src/lib.rs:9-19 | every request is read back as itself and leaves the stream at the next message |
| Wire.ResponsesComeBack | comm/src/lib.rs:26-39 | every response is read back as itself and leaves the stream at the next message |
| GateDelay.SettingsMeetTheDelay | remote/ctl_bob.py:196-202 | coarse * 1212 plus the three fine positions is the tap count, which is within half a tap of the requested time; the first is below 404, the second 0 or 404, the third 404 only if the second is |
| GateDelay.SettingsAreUnique | remote/ctl_bob.py:196-202 | no other four settings are like that |
| GateDelay.MasterWordDecodes | remote/lib/fpga.py:732-739 | fine step and direction always decode exactly; the coarse field holds the low four bits and the rest spills into the duty field |
| GateDelay.MasterWordFits | remote/lib/fpga.py:732-739 | the word fits 32 bits iff the coarse setting is below 2^17 |
| GateDelay.SlaveWordDecodes | remote/lib/fpga.py:741-743 | the slave word fits 32 bits and all four fields decode exactly |
| GateDelay.TtlGate.GenGate | remote/ctl_bob.py:188-225 | reading the file, stepping the stages by signed differences and overwriting the file, with an exception after any of its seven actions: what was triggered and what was written are exactly those up to the fault; it goes through iff the file can be read, the coarse setting is in range and there is no fault |
| GateDelay.TtlGate.InitTtl | remote/ctl_bob.py:1033-1037 | from any state of device and file, the setting is the one attempted from a reset |
| GateDelay.TtlGate.SendSteps | remote/lib/fpga.py:729-763 | through the packed registers the stages move by exactly the signed steps, those up to the fault if there is one |
| GateDelay.RunKeepsTheMirror | remote/ctl_bob.py:188-230 | after any run of settings from a reset the file's first three lines equal the device's positions, although the file is never truncated |
| GateDelay.TtlGate.RunDelays | remote/ctl_bob.py:188-230 | after a reset and any list of settings, some of them refused, reading, stepping and overwriting have left the device exactly where the last accepted delay alone puts it |
| GateDelay.RunIsAbsolute | remote/ctl_bob.py:188-230 | the same of the function that `GenGate` is proved against, which places the gate absolutely |
| GateDelay.SuccessKeepsDisplacement | remote/ctl_bob.py:188-225 | a setting that goes through records its positions, and leaves the stages as far from them as they were from the file; it puts the gate at the delay iff the file told the truth |
| GateDelay.DisplacementStays | remote/ctl_bob.py:188-230 | a displacement, or a file that cannot be read, outlives every run of settings without a reset |
| GateDelay.RollbackEnds | remote/hws_bob.py:174-178 | making up for any setting that raised brings the gate to the start iff the file told the truth, else leaves it displaced by exactly what the file was wrong, and changes nothing if the file cannot be read |
| GateDelay.FaultKeepsTruthIff | remote/ctl_bob.py:204-230 | for each of the seven actions after which a setting may raise, the exact condition for the file to be right afterwards |
| GateDelay.FaultDisplacesByTheSteps | remote/ctl_bob.py:221-224 | a setting that raises before its first line leaves each stage whose trigger has fired off by its whole step |
| GateDelay.FaultBetweenEqualLines | remote/ctl_bob.py:226-230 | between lines as long as the old ones, the file stays right iff the stages without their line did not have to move |
| GateDelay.FaultAfterShorterLine | remote/ctl_bob.py:226-230 | after a first line one character shorter than the old one the file cannot be read |
| GateDelay.PlacedIsExact | remote/ctl_bob.py:198-202 | the gate's total equals the requested taps iff the coarse setting is below sixteen, and then the duty is kept |
| GateDelay.GateRangeIsExact | remote/hws_bob.py:111-112 | every delay in 0..13280 ps is accepted and met within half a tap |
| GateSearch.FindPlateau | remote/hws_bob.py:221-231 | the two loops return the longest run around the best point in which every point is at least 95% of it |
| GateSearch.PlateauIsUnique | remote/hws_bob.py:221-231 | there is only one such run |
| GateSearch.CentreInNumbers | remote/hws_bob.py:221-235 | a centre is the middle of the entries around a best one that have at least 95% of its counts; if the best beats the start it does so by 8%, and each of these entries by 2.6% |
| GateSearch.ScanPositions | remote/hws_bob.py:206-214 | any scan visits exactly the positions within 800 ps of the start and in 0..13280 that lie on the 100 ps grid, in order |
| GateSearch.DecisionInNumbers | remote/hws_bob.py:181-219 | noise-free: skipped iff below 50 counts, centred iff no neighbour 600 ps away has more than 108% of the counts, and otherwise moved iff some scanned position has |
| GateSearch.ScanShape | remote/hws_bob.py:206-214 | the scan list is exactly the grid points in range, in ascending order, with their scores |
| GateSearch.Gate.EdgeCheck | remote/hws_bob.py:149-178 | for arbitrary measurements and exceptions of reads and of moves, anywhere inside them: without an exception the gate ends at the clamped start or at the centre of the scan measured, displaced as before; with one it is at the start iff the file told the truth when the rollback began, else displaced by exactly what it was wrong, unless the rollback raises too; for noise-free counts the outcome is the promised one |
| GateSearch.Gate.CheckFrom | remote/hws_bob.py:181-238 | for arbitrary measurements a move is to the centre of the plateau of the scan over the whole grid, whose best beats the start by the threshold; for noise-free counts, which of the outcomes occurs is determined by the counts |
| GateSearch.MoveIsRealAndBounded | remote/hws_bob.py:216-238 | noise-free: a move is by 100 to 800 ps, towards the best point, and stays in 0..13280 |
| GateSearch.PlateauExcludesStart | remote/hws_bob.py:216-231 | noise-free: the whole plateau lies on the best point's side, at least one scan step from the start |
| GateSearch.FailedTestMovesIffOnGrid | remote/hws_bob.py:187-219 | a failed side test always ends in a move iff both clamped probes are on the scan grid, in particular for every start in 600..12680 |
| GateSearch.FailedTestEndsInMove | remote/hws_bob.py:187-219 | noise-free, such a start and a failed side test: the outcome is MOVED |
| GateSearch.OldPositionComesBack | remote/hws_alice.py:991-996 | from Bob's reply, cut to 250 characters, Alice recovers exactly the old position |
| GateSearch.OnlyMovesSayMoved | remote/hws_bob.py:548-556 | the reply starts with MOVED iff the gate was moved |
| GateSearch.CheckGateEdge | remote/hws_alice.py:968-1010 | across both machines: REVERTED iff moved and the error rate after is more than 115% of the one before, and then the gate is at exactly the clamped start that is reported, unless that very move raised, which leaves what was attempted; else at the clamped start or the reported centre, always displaced as before; after an exception as `EdgeCheck` says |
| GateSearch.OnlyRegressionsAreUndone | remote/hws_alice.py:1003-1010 | an error rate that fell or stayed the same is never undone, one that doubled from above zero or appeared from zero always is, and raising the rate after it, or lowering the one before, never saves a move |
| GateSearch.TruncatedTo250 | remote/hws_bob.py:548-556 | a reply is cut to its first 250 characters |
| FiberDelay.SeqRngSingle | remote/lib/gen_seq.py:219-230 | played through the pairwise-swapped slots, angle 1 sits at one position of every 80 |
| FiberDelay.SeqRngBlock1 | remote/lib/gen_seq.py:239-246 | played, exactly the first 80 of 32000 angles are 1 |
| FiberDelay.FindOptDelayA | remote/ctl_bob.py:651-688 | the index is the first maximum of the mean-removed difference, bin by bin, of the number of clicks with result 0 and the number with result 1 |
| FiberDelay.FindOptDelayALong | remote/ctl_bob.py:690-724 | the same over blocks of 80, after taking off the short delay |
| FiberDelay.ShortHistogram | remote/ctl_bob.py:672-681 | bin j adds up 400 positions, and only that of the delay modulo 80 differs from the others by more than the noise |
| FiberDelay.LongHistogram | remote/ctl_bob.py:711-717 | block b adds up 80 positions, and only that of the delay divided by 80 differs from the others by more than the noise |
| FiberDelay.OneStandsOut | remote/ctl_bob.py:681-685 | the argmax finds the one odd bin, whichever way it differs, if four times the noise is less than the contrast, or equal for the first bin |
| FiberDelay.ToleranceIsExact | remote/ctl_bob.py:681-685 | and only then: with more noise some histogram within it misleads the search |
| FiberDelay.NoiseFreeIsWithinAnyNoise | remote/ctl_bob.py:672-681 | clicks whose differences follow the played angles exactly have noise zero in both stages |
| FiberDelay.ShortStage | remote/ctl_bob.py:651-688 | for every delay below 32000 and every noise the contrast tolerates: the first stage finds it modulo 80; without noise or contrast it finds 0 |
| FiberDelay.LongStage | remote/ctl_bob.py:690-724 | given the right remainder and noise the contrast tolerates: the second stage finds the delay divided by 80; without noise or contrast it finds 0 |
| FiberDelay.AliceDelays.FindFiberDelay | remote/hws_alice.py:1136-1171 | the stored fiber_delay is the delay whenever both stages tolerate their noise; without noise iff each stage has contrast or looks for zero |
| LogTail.DoTail | remote/logd.py:120-136 | for every file and argument: the bytes selected are the last lines iff these are within 5 MiB; they are selected and their text sent uncut iff its repaired form is within 5 MiB, and then the reply is the promised text, and only then unless that begins like the notice itself; at most one block too much is read |
| LogTail.SelectionIsExact | remote/logd.py:129-135 | wherever the loop may stop, its selection is right iff the last lines are within the limit, that is, iff the last 5 MiB hold them |
| LogTail.CompleteIffFits | remote/logd.py:101-106 | the right bytes are selected and none of their text is cut iff the promised text fits |
| LogTail.ReplyIsPromised | remote/logd.py:101-106 | decoding and capping the selection gives the promised text if that fits, and only then unless it begins like the notice |
| LogTail.CutShowsTheEnd | remote/logd.py:101-106 | a cut reply is the notice, at most three replacement characters for a character that was cut, and the end of the text, 5 MiB in all but for the notice |
| Utf8.BrokenCharacter | remote/logd.py:101-106 | a character that breaks off decodes to one replacement character, however many of its bytes there are |
| LogTail.FitsIfValid | remote/logd.py:101-106 | for a valid UTF-8 file the promised text fits iff its last lines are within the limit |
| LogTail.CappedLength | remote/logd.py:101-106 | a reply is at most 5 MiB, the notice and six bytes long, since the cut may fall inside a character |
| LogTail.SmallFileNeedNotFit | remote/logd.py:101-106 | two million bad bytes do not fit |
| LogTail.TailOfPart | remote/logd.py:129-136 | tailing a suffix equals tailing the file iff the suffix is all, has more than n newlines, or has n and follows one |
| LogTail.LastLinesIsSuffix | remote/logd.py:134-136 | splitting, cutting and joining gives the suffix that starts after the newline with n more to come |
| LogTail.CountsLineFeeds | remote/logd.py:129-133 | what is counted, and what the last lines start after, is line feeds |
| LogTail.ClampLines | remote/logd.py:94-99 | a decimal count is brought into 1..10000, and a missing argument or one that int() refuses gives 200 |
| QberTally.UnpackPacked | qber/src/bin/alice.rs:125-131 | the two angles and two decoy states of a byte unpack independently |
| QberTally.RecvAngles | qber/src/bin/alice.rs:101-149 | whatever list of shots the streams carry: m0 and m1 hold the numbers of shots with those angles and result byte 0 or another, d those with that decoy state; fails iff a stream is too short |
| QberTally.EveryRoundIsShots | qber/src/bin/alice.rs:101-131 | whatever the streams hold is such a list: two shots a byte of angles, 128 of Bob's angle bytes and then 256 results a batch |
| QberTally.ErrorsCountShots | qber/src/bin/alice.rs:163-169 | wrong and compared clicks are the shots with angle 1 and result 0 or angle 2 and another result, where the other side played 0 |
| QberTally.ClicksAreConserved | qber/src/bin/alice.rs:132-147 | the 32 cells add up to the clicks processed, and so do the decoy buckets |
| QberTally.CellsAreTheErrors | qber/src/bin/alice.rs:163-169 | on each side the cells in numerator and denominator add up to exactly the wrong and the compared clicks |
| QberTally.ErrorsAreBounded | qber/src/bin/alice.rs:163-169 | wrong clicks are at most the compared ones, and those of both sides at most all clicks, so no u32 sum overflows |
| QberTally.Qber | qber/src/bin/alice.rs:163-169 | the three rates are wrong over compared clicks of Alice's side, Bob's side and both, lie in 0..1 where defined, and the total lies between the other two |
| ParamFile.RoundTripIffStorable | remote/lib/fpga.py:36-63 | get_tmp undoes save_tmp iff values fit their keys' types, float texts read as floats, keys differ and no string holds a tab, newline or carriage return |
| ParamFile.TmpFile.SaveTmp | remote/lib/fpga.py:36-42 | the file holds exactly the encoded table |
| ParamFile.TmpFile.GetTmp | remote/lib/fpga.py:44-63 | the table decoded from the file, or the exception of a missing tab or a value that is no int or float |
| ParamFile.TmpFile.UpdateTmp | remote/lib/fpga.py:96-99 | reading back, exactly the one key has changed, whatever readable file there was before |
| ParamFile.LookupUpdated | remote/lib/fpga.py:96-99 | assigning a key changes what that key finds and no other |
| ParamFile.UniversalLine | remote/lib/fpga.py:44-63 | reading as text turns each of the three line ends into one newline and leaves the line alone |
| ParamFile.RustReadsWhatPythonWrote | gc/src/hw.rs:37-56 | the Rust reader finds the same integer in the file Python wrote iff it fits a u32, else it panics |
| ParamFile.DecoyDelayIsReadable | remote/hws_alice.py:1164-1169 | after the long search the decoy delay is readable iff the fibre delay is at least 25 |

## Left out

- GcLoops.SendGc: read errors, which end the loop like the end of the fifo, are not separate. What the outputs hold after a short top-up read is stated by `GcPipeline` and `GcShortReads` only.
- GcLoops.RecvGc: the wait for an empty FPGA fifo before each write is a delay without effect on the order of writes.
- GcPipeline.OneClickSequence: a failing write is the arbitrary `BobClose` or `AliceStop` step between writes; what a write that fails half-way leaves behind is stated by `GcLoops.SendGc` and `GcLoops.RecvGc`.
- GcShortReads.ShortTopUpsExactly: says that some input of the length goes wrong, not which; an input whose counters happen to agree at the displaced offset, such as all zeros, does not.
- GcSession.StopAndTearDownAreQuiet: covers runs in which `recv_gc` ends by its Ok path; I/O errors that panic the receiver, process crashes and service restarts are not modelled.
- ReadyHandshake.ReinitialisationIsSafe: covers the acknowledged wait of a node that keeps its contract (comm/src/lib.rs:15-18, gc/src/control.rs:8-13), which is exactly what is needed. The settling sleep after the wait and gc-bob's late release of its own fds are not modelled.
- HwsCommands.CommandFidelity: covers the order, direction and type of messages. The values, the hardware actions in between and, except for the certain one of `set_angles_a`, exceptions in the middle of a dialogue are not modelled.
- Dialogue.CompatibleDialogue: messages are typed values on two queues; `HwsBytes.CompatibleOnBytes` carries the result over to the bytes.
- HwsBytes.CompatibleOnBytes: the values sent are those their helpers can send and read back, so strings are ASCII and below 256 characters (`Wire.TextInStepIffAscii` says what happens otherwise). A receive that still waits for bytes keeps those it has on the connection.
- Wire.StreamIsAQueue: a double is its 64-bit pattern.
- Wire.ReadMessage: bincode is modelled for enums without fields, whose index is one byte; the dispatch on a payload that is no known index is left out.
- GateDelay.TtlGate.GenGate: the device is assumed to move its stages by the step in the register and to start from zero after a reset; the sleeps, `Set_t0` and `Time_Calib_Init` have no effect on the delay. A write of one line to the file is done as a whole or not at all. The file is any text of digits and newlines with at most three digits in a row, which every run of the program keeps, faults included.
- GateSearch.Gate.EdgeCheck: if the rollback's own move raises, its contract gives the device and file it leaves, and `GateDelay.FaultDisplacesByTheSteps` the displacement. Counts are whole numbers.
- GateSearch.CheckGateEdge: how the error rates before and after are averaged is left out; either may be missing. A revert that raises ends Bob's server, while Alice still reports REVERTED.
- FiberDelay.SeqRngSingle: positions 16 and above, which do not fit the first word, are not modelled; the program uses position 0.
- FiberDelay.AliceDelays.FindFiberDelay: the noise is bounded per bin of each histogram; its probability is not modelled. The provisional value after the first command is stated by `StoreShort`.
- LogTail.DoTail: the head, grep, list and statistics commands share no state with the tail and are not modelled. A cut reply that equals a promised text which itself begins with the notice is not told apart from it.
- LogTail.ClampLines: digits outside ASCII, which Python's int() also accepts, count as no number.
- QberTally.RecvAngles: one round without a stop request; output formatting and the ratios per cell are left out.
- ParamFile.RoundTripIffStorable: a float is the text Python prints for it, so that printing and parsing floats is exact is not proved. An integer stored under a float key comes back as a float and counts as ill-typed.
- ParamFile.RustReadsWhatPythonWrote: keys are identifiers; the values of other keys may contain spaces.
- Real I/O: sockets, mapped registers, DMA files, chip set-up, sleeps, the detector library and laser control.
- The second long-delay search of Bob, curve fitting, plotting, graphical tools, heartbeat loggers, bias sweeps and the dead-time tuner.
- remote/lib/communication.py: its short-read path drops bytes, so no general round trip holds.
- The node and key-management internals, of which only the contract in comm/src/lib.rs:15-18 and gc/src/control.rs:8-13 is used.

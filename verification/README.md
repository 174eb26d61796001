# TEE-PA record path and heartbeat: a Dafny model

TEE-PA carries Linux audit records from a ring buffer in the kernel, through one batched TEE
invocation, to a Python receiver that rewrites them, fans them out to three bounded deques for
files, heartbeats and SPADE, and uses the executed commands found in them as proof of life of
the devices. This project models that path and the heartbeat protocol and proves what they
guarantee over every run.

| file | contents |
|---|---|
| `Text.dfy`, `Hex.dfy`, `Wrappers.dfy` | Python string primitives, newline framing, Base16 and the PTA's in-place encoder |
| `Ring.dfy` | the 15000-slot ring as a class over an array, refined to a sequence |
| `KernelSpec.dfy` | the bounded queue and one drain with records arriving while it runs |
| `KernelRuns.dfy` | TEE sessions, send attempts, whole kernel runs |
| `Collector.dfy` | the kernel code with its globals and loops, proved equal to the two files above |
| `AuditFormat.dfy` | classification, reformatting, recovery of host, body and proctitle |
| `CappedDeque.dfy`, `CheckThenPop.dfy` | `deque(maxlen=n)`; threshold-guarded draining by several threads |
| `Receiver.dfy` | the receiver's loops over its deques and the shared task objects |
| `Tasks.dfy`, `ExpiryPass.dfy`, `Eviction.dfy` | `check_expire` on values: iteration by index over a list that shifts |
| `HeartbeatThread.dfy` | the heartbeat thread on mutable task objects, proved equal to the value-level pass |
| `Commands.dfy`, `Monitor.dfy`, `MonitorProperties.dfy` | the heartbeat protocol as an interleaved state machine |
| `MonitorRuns.dfy`, `MonitorPasses.dfy` | its passes as passes of `check_expire`, and what follows for whole runs |
| `HeartbeatLoop.dfy` | a heartbeat command followed through the audit path back to its task |
| `Pipeline.dfy`, `Capacity.dfy`, `Completeness.dfy` | all stages joined, for any number of devices, connections, workers and SPADE clients |
| `Ordering.dfy`, `Scenarios.dfy` | in which order records reach the deques, exactly; runs from the start that show where the guarantees end |

Main results:

- **Joining theorem** (`Pipeline.EndToEnd`): whatever any SPADE client (or file or heartbeat
  worker) gets is the translation of accepted records, each at most once and each batch in
  accepted order, and no record reaches two clients; what the translation of each record is,
  `AuditFormat.TranslateExactly` says. `Completeness.EveryRecordHasAFate` and
  `FateIsUnique` are its counterpart: every accepted record has exactly one fate, from the queue
  to its deque position. These results and the next two are about clean records, that
  is, runs in which no offered record holds a Python line boundary (`Pipeline.CleanRun`).
- **Order across batches, exactly** (`Ordering.OvertakenExactly`, `Ordering.EndToEndOrder`,
  `Scenarios.DeviceOrderExactly`): the TA opens a connection per batch and the receiver a thread
  per connection, so batches of one device can overtake each other. An appended record can be
  followed by an earlier one of its device if and only if another connection can still bring
  one at that moment; runs in which this never happens are in order per device.
- **One order for the three deques, exactly** (`Ordering.SwappedExactly`,
  `Scenarios.OneOrderExactly`): two deques can get two lines in opposite orders if and only if
  the second line is taken up while a thread still holds the first; that takes two batches,
  whoever else connects.
- **Drain losslessness, exactly** (`KernelSpec.LosslessExactly`): the loop dequeues before it
  tests for emptiness; no arrival schedule makes it drop a record if and only if the text of all
  queued records but the last exceeds 10000 bytes. 500 records of 20 bytes are enough, 19 are not.
- **Check-then-pop, exactly** (`CheckThenPop.SafeExactly`, `Scenarios.NoEmptyPopExactly`): with
  threshold T and K threads an empty deque is never popped if and only if K <= T + 1; each
  accepted connection adds a thread, those that open a session included, so the file and
  heartbeat deques are safe for 11 connections.
- **Expiry** (`MonitorPasses.ClearedInRun`, `MonitorPasses.ClearedWithinLogInRun`,
  `MonitorRuns.EvictedInRun`, `MonitorRuns.FlaggedSurvivesInRun`): removing from the list being
  iterated halves each run of expired tasks. In every interleaved run at every granularity, m
  passes at one clock value clear all of them if and only if the longest run is shorter than 2^m,
  provided registrations read a clock that does not fall; without that proviso d expired tasks are
  gone after floor(log2 d) + 1 passes. With a moving clock an expired task at index p is gone after
  p + 1 passes, and a flagged one survives if and only if its two clock reads are under 15 s apart.
- **Admission** (`Monitor.PlacesBounded`, `MonitorProperties.BoundIsReached`): an address
  occupies at most 1, 2, 2 or 3 places, depending on which of the two operations are atomic, and
  each bound is reached.
- **Heartbeat loop** (`HeartbeatLoop.HeartbeatFlagsItsTask`, `HeartbeatLoop.TouchFlagsIffStored`):
  the audit record of the touch process of a refresh command flags its task and no other once the
  command is stored; the command is executed before it is stored, and a record that comes in
  between flags nobody.

Properties that do not hold of the code in general, each with a run that shows it and with when
they do hold:

| property | run | when it holds |
|---|---|---|
| per-device order at a deque | `Scenarios.BatchesMayReorder` | `Ordering.OvertakenExactly`; at most one batch per device (`Scenarios.DeviceOrderExactly`) |
| one common order of the three deques | `Scenarios.DequesMayDiffer` | `Ordering.SwappedExactly`; at most one batch, whoever else connects (`Scenarios.OneOrderExactly`) |
| global send order of the SPADE clients | `Scenarios.ClientsMayReorder` | at most one client (`Scenarios.SendsInOrderExactly`) |
| no pop of an empty deque | `Scenarios.TooManyBatchesCrash` | at most 11 accepted connections, 31 SPADE clients (`Scenarios.NoEmptyPopExactly`) |
| an expiry test removes the task it examines | `MonitorProperties.RemovesTheWrongOne` | admission and registration both atomic (`MonitorProperties.ExpiryIsExactIff`); distinct registration times are enough (`DistinctStampsAreEnough`) |
| one flagged task per ping | `MonitorProperties.PingMayFlagSeveral` | no other unrefreshed task of the same round (`MonitorProperties.PingFlagsOneExactly`) |
| m passes clear runs shorter than 2^m, whatever is listed | `MonitorPasses.FallingClockOutlasts` | registrations read a clock that does not fall (`MonitorPasses.ClearedInRun`) |
| the record of an executed refresh command flags its task | `HeartbeatLoop.HeartbeatMayBeLost` | the command is stored by then (`HeartbeatLoop.TouchFlagsIffStored`) |
| a line that occurs in a refresh command flags one task | `HeartbeatLoop.OneLineMayFlagTwo` | the line contains the token (`Commands.LineNamesTokenExactly`) |

Assumptions: records are NUL-free C strings that fit a 1024-byte slot (the type `Record`); each
ring operation, deque operation, list append and scan of the task list is atomic, and so are the
test and clearing of a task's flag and the storing of its new deadline and command; the send
buffer starts as the empty string, which is what the `memset` in `qemu/linux/audit_qemu.patch`
line 177 is there for; one `recv` returns one whole batch, or raises and loses it; `decode`
is the identity on it, so that bytes and characters agree, as they do for ASCII records.
Connections are accepted in the order in which they were opened. Kernel steps touch no receiver
state, so a drain is one step of the joined machine, with the records that arrive during it as
its parameter.

## Model

| member | source | states |
|---|---|---|
| Text.Find | Log_Receiver/src/tcp_server.py:145 | `find`: the first index at which the text occurs, -1 exactly when it does not occur |
| Text.SplitAtSeparator | Log_Receiver/src/tcp_server.py:23-24 | `split(',')`: the text before the first comma is the first part, the rest splits on |
| Text.SplitLast | Log_Receiver/src/tcp_server.py:23-24 | `split(',')`: the text behind the last comma is the last part and the first part does not depend on it |
| Text.FrameSnoc | qemu/linux/audit_qemu.patch:181-182 | appending a record and a newline to a framed batch frames the longer batch |
| Text.LinesAreBoundaryFree | Log_Receiver/src/tcp_server.py:110 | no line produced by `splitlines` holds a line boundary |
| Text.BoundariesAreThese | Log_Receiver/src/tcp_server.py:110 | the line boundaries of `splitlines`, by code point |
| Text.UnterminatedLine | Log_Receiver/src/tcp_server.py:110 | text without a boundary is one line, and no text is no line |
| Text.TerminatedLine | Log_Receiver/src/tcp_server.py:110 | a line ends at its boundary, "\r\n" counting as one, and the rest splits on |
| Text.FramingRoundTrip | Log_Receiver/src/tcp_server.py:109-111 | splitting the kernel's framed batch returns exactly its records, empty ones included, if and only if no record holds a Python line boundary |
| Hex.DecodeEncode | qemu/pta/memory_introspection.c:33-43 | decoding the lower-case hex of any byte string returns it |
| Hex.DecodeExactly | Log_Receiver/src/tcp_server.py:147-148 | a text decodes to a byte string if and only if it spells it: two hex digits per byte, each in either letter case |
| Hex.DecodeFailsExactly | Log_Receiver/src/tcp_server.py:147-148 | decoding raises if and only if the length is odd or some character is not a hex digit |
| Hex.EncodeAt | qemu/pta/memory_introspection.c:33-41 | byte i becomes the lower-case digits of its two halves at positions 2i and 2i + 1 |
| Hex.Bytes2Hex | qemu/pta/memory_introspection.c:34-43 | writes exactly the two lower-case digits of each byte and a terminator, leaves the rest of the buffer alone, and what it wrote decodes to the source |
| Ring.UnrollEnqueue | qemu/linux/audit_qemu.patch:40-41 | writing slot (head + num) mod 15000 appends to the abstract queue, at every wrap-around |
| Ring.UnrollDequeue | qemu/linux/audit_qemu.patch:50-52 | advancing the head removes the oldest record, at every wrap-around |
| Ring.RingBuffer.constructor | qemu/linux/audit_qemu.patch:27-34 | the ring starts empty |
| Ring.RingBuffer.Enqueue | qemu/linux/audit_qemu.patch:36-46 | appends the record, or rejects it exactly when 15000 are queued |
| Ring.RingBuffer.Dequeue | qemu/linux/audit_qemu.patch:48-57 | returns and removes the oldest record, or fails, changing nothing, exactly when empty |
| KernelSpec.OfferAllTakes | qemu/linux/audit_qemu.patch:36-46 | whatever is offered, the queue then holds the first 15000 of the queued and the offered records, and the history grows by the newly queued ones |
| KernelSpec.OfferedExactly | qemu/linux/audit_qemu.patch:36-46 | a record is rejected if and only if 15000 are queued; otherwise it joins queue and history at the end |
| KernelSpec.RoundTakes | qemu/linux/audit_qemu.patch:180 | one evaluation of the loop guard takes the oldest record, and what arrives around it fills the queue up to 15000 records |
| KernelSpec.RoundConserves | qemu/linux/audit_qemu.patch:180 | one evaluation of the loop guard takes the oldest record out and only appends to the rest |
| KernelSpec.DrainConserves | qemu/linux/audit_qemu.patch:180-188 | for every arrival schedule: accepted records = records taken before, batch, at most one dropped record, remaining queue, in this order |
| KernelSpec.DrainEnds | qemu/linux/audit_qemu.patch:180-188 | the loop ends by size with nothing dropped, or with the queue empty and exactly the last record dropped; the text never exceeds 11024 of 12000 bytes |
| KernelSpec.DrainTakesOne | qemu/linux/audit_qemu.patch:180-184 | from two queued records on the loop body runs at least once, whatever arrives |
| KernelSpec.LosslessExactly | qemu/linux/audit_qemu.patch:180-188 | no arrival schedule loses a record if and only if the text of all queued records but the last exceeds 10000 bytes |
| KernelSpec.TriggeredDrainIsLossless | qemu/linux/audit_qemu.patch:180-188 | from 500 queued records of at least 20 bytes: nothing dropped, order kept, 10000 < text <= 11024, at most 477 records |
| KernelSpec.NineteenBytesLose | qemu/linux/audit_qemu.patch:180-188 | 500 queued records of 19 bytes lose their last one, so 20 is the least safe length |
| KernelSpec.DrainAccepts | qemu/linux/audit_qemu.patch:36-46 | during a drain the queue accepts nothing but what arrives |
| KernelRuns.RunConserves | qemu/linux/audit_qemu.patch:156-199 | over every run of arrivals and wake-ups, accepted = what the drains took, in order, then the queue; each drain dropped at most one record |
| KernelRuns.RunIsLossless | qemu/linux/audit_qemu.patch:156-199 | with records of at least 20 bytes no run drops a record: accepted = all batches in order, then the queue; every batch is within its bounds |
| KernelRuns.RunKeepsSessionInv | qemu/linux/audit_qemu.patch:75-153 | over every run: `tee_ctx` set exactly when one session is open, contexts opened minus closed = connected + failed invocations, live buffers = invocations that failed after allocation, payloads received by the TA = delivered batches |
| KernelRuns.EveryRun | qemu/linux/audit_qemu.patch:156-199 | both invariants hold in every run from boot |
| KernelRuns.StepEffect | qemu/linux/audit_qemu.patch:167-196 | a step adds at most one drain, and its batch reaches the TA exactly when it counts as delivered |
| KernelRuns.WakeOutcome | qemu/linux/audit_qemu.patch:167-196 | a wake-up sends exactly from 500 queued records on; it drains exactly when a session is or can be opened and otherwise leaves the queue alone; a payload, the framed batch, is delivered exactly on allocation and a successful or short-buffer invocation, and only then the session stays; contexts opened, closed and buffers leaked are counted for every case |
| KernelRuns.RunSnoc | qemu/linux/audit_qemu.patch:36-46 | a run takes its events one by one, in order |
| KernelRuns.RejectedExactly | qemu/linux/audit_qemu.patch:36-46 | in every run from boot an arriving record is rejected if and only if 15000 are queued, and otherwise queued at the end |
| Collector.KernelCollector.constructor | qemu/linux/audit_qemu.patch:20-34 | boot state |
| Collector.KernelCollector.Enqueue | qemu/linux/audit_qemu.patch:269-274 | the record joins queue and history at the end, or nothing changes, exactly when 15000 records are queued |
| Collector.KernelCollector.DrainQueue | qemu/linux/audit_qemu.patch:176-188 | the loop over the ring equals the value-level drain; the body runs at least once, so the length is set; payload = framed batch, within the 12000-byte buffer |
| Collector.KernelCollector.CreateSession | qemu/linux/audit_qemu.patch:123-153 | opens a context and a session, closing the context again when the session fails |
| Collector.KernelCollector.InvokeTa | qemu/linux/audit_qemu.patch:75-121 | delivers the payload, or fails leaving no buffer (allocation) or one buffer (invocation) |
| Collector.KernelCollector.InvokeOrReset | qemu/linux/audit_qemu.patch:190-198 | a failed invocation closes the session and resets `tee_ctx` without closing the context |
| Collector.KernelCollector.DrainAndInvoke | qemu/linux/audit_qemu.patch:176-198 | drain, invoke and reset together equal the value-level transmission |
| Collector.KernelCollector.SendEventLog | qemu/linux/audit_qemu.patch:156-199 | one send attempt equals the value-level one; it returns 0 exactly when connected afterwards |
| Collector.KernelCollector.WakeUp | qemu/linux/audit_qemu.patch:240-244 | sends exactly when at least 500 records are queued |
| AuditFormat.ClassifyIsFirstMatch | Log_Receiver/src/tcp_server.py:27-42 | a record has a type exactly when that type's keyword is the first of the seven it contains; none exactly when it contains none |
| AuditFormat.TranslateKernelLine | Log_Receiver/src/tcp_server.py:20-42 | body + ",node=" + host becomes "node=host type=T body" for every comma-free record of a known type that mentions "audit", and nothing otherwise |
| AuditFormat.FormatKeepsOnlyTheEnds | Log_Receiver/src/tcp_server.py:20-24 | any record that mentions "audit", with any number of commas, keeps exactly its first and its last comma segment; any other is rejected |
| AuditFormat.TranslateExactly | Log_Receiver/src/tcp_server.py:20-42 | every record becomes its last comma segment, its type and its first comma segment if it has a type and mentions "audit", and nothing otherwise |
| AuditFormat.RecoverNodeFirst | Log_Receiver/src/tcp_server.py:24 | host, type and body can be read back from the rewritten line |
| AuditFormat.TranslateInjective | Log_Receiver/src/tcp_server.py:20-42 | two well-formed records are rewritten to the same line if and only if they have the same body and host |
| AuditFormat.FindMarker | Log_Receiver/src/tcp_server.py:145-146 | the marker is found right behind any text that does not hold it |
| AuditFormat.SpacesAreThese | Log_Receiver/src/tcp_server.py:146 | the characters that `strip` removes, by code point |
| AuditFormat.StripTrims | Log_Receiver/src/tcp_server.py:146 | `strip` removes the whitespace at both ends and nothing else |
| AuditFormat.SplitAtMarker | Log_Receiver/src/tcp_server.py:143-145 | a line that holds the marker is a text without it, the marker and the rest, so the following rows cover every line |
| AuditFormat.NoMarkerNoCommand | Log_Receiver/src/tcp_server.py:143 | a line names no command if and only if it does not hold "proctitle=" |
| AuditFormat.MatchHexTitle | Log_Receiver/src/tcp_server.py:146-149 | a title that spells bytes which decode is the decoded text with NUL replaced by a space |
| AuditFormat.MatchUndecodableTitle | Log_Receiver/src/tcp_server.py:146-151 | a title that spells bytes which do not decode is taken stripped, as it stands |
| AuditFormat.TranslateProctitle | Log_Receiver/src/tcp_server.py:27-31 | a proctitle record is always translated, as PROCTITLE or SYSCALL, with its proctitle at the end |
| AuditFormat.SplitJoin | Log_Receiver/src/tcp_server.py:149 | a joined argument list can be split into the arguments again |
| AuditFormat.MatchRawTitle | Log_Receiver/src/tcp_server.py:146-151 | a title that is not an even number of hex digits is taken stripped, as it stands |
| AuditFormat.ProctitleRoundTrip | Log_Receiver/src/tcp_server.py:143-149 | from the kernel record through rewriting to the decoded command: exactly the space-joined arguments, for every host without a comma or the marker "proctitle=", each digit in either letter case, and any bytes that the decoder reads as the NUL-joined arguments |
| CappedDeque.PushAllKeepsNewest | Log_Receiver/src/log_buffer.py:3 | a capped deque keeps exactly the newest entries of everything appended, in order |
| CappedDeque.LastNAt | Log_Receiver/src/log_buffer.py:3 | which entries the newest n are, counted from the end |
| CappedDeque.Deque.Append | Log_Receiver/src/log_buffer.py:3 | the newest maxlen entries of old contents and the new one |
| CappedDeque.Deque.PopLeft | Log_Receiver/src/unix_server.py:38 | returns and removes the oldest entry |
| CheckThenPop.RunKeepsInv | Log_Receiver/src/unix_server.py:33-39 | in every interleaving with any number of workers: the deque is a window of its append stream, every earlier position left by exactly one pop or one overflow, each worker takes increasing positions, no two take the same |
| CheckThenPop.RunKeepsClaimed | Log_Receiver/src/unix_server.py:38-39 | in every interleaving every popped entry is with some worker, hence with exactly one |
| CheckThenPop.FewWorkersNeverCrash | Log_Receiver/src/unix_server.py:36-38 | with at most threshold + 1 workers no run pops an empty deque |
| CheckThenPop.TooManyWorkersCrash | Log_Receiver/src/tcp_server.py:141-142 | one worker more than threshold + 1, and some run of the deque and its workers does |
| CheckThenPop.SafeExactly | Log_Receiver/src/tcp_server.py:141-142 | safe for K workers if and only if K <= threshold + 1 |
| CheckThenPop.OneWorkerEmitsInOrder | Log_Receiver/src/unix_server.py:36-39 | with one client the positions sent are strictly increasing in every run |
| CheckThenPop.TwoWorkersMayReorder | Log_Receiver/src/unix_server.py:36-39 | with two clients, whatever the threshold, some run sends position 1 before position 0 |
| CheckThenPop.InOrderExactly | Log_Receiver/src/unix_server.py:36-39 | whatever the threshold, every run with at most k clients sends in stream order if and only if k <= 1 |
| Tasks.ScanInduction | Log_Receiver/src/main.py:81 | what every iteration of the index-based loop keeps holds when the pass ends, with the index behind the list |
| ExpiryPass.PassIsSweep | Log_Receiver/src/main.py:80-90 | at a fixed clock the loop equals the sweep in which each removal lets the next task slip through, up to which of several expired tasks stand in their places, whenever equal expired tasks have only expired ones between them; exactly, if no two are equal |
| ExpiryPass.PassHalvesRun | Log_Receiver/src/main.py:80-90 | the loop turns a maximal run of k expired unflagged tasks in front into floor(k/2) of them, and a survivor behind an odd run is not even refreshed |
| ExpiryPass.PassHalvesEveryRun | Log_Receiver/src/main.py:80-90 | one pass of the loop halves every maximal run, rounding down, and keeps every other task, in order |
| ExpiryPass.HalvedRuns | Log_Receiver/src/main.py:80-90 | m passes halve every maximal run m times |
| ExpiryPass.ClearedExactly | Log_Receiver/src/main.py:80-90 | whenever equal expired tasks stand together, m passes clear all expired unflagged tasks if and only if the longest run is shorter than 2^m; every other task stays, in order |
| ExpiryPass.PassLeavesHalf | Log_Receiver/src/main.py:80-90 | whatever tasks are equal by value, one pass leaves at most half of the expired unflagged tasks and all others, in order |
| ExpiryPass.ClearedWithinLog | Log_Receiver/src/main.py:80-90 | floor(log2 d) + 1 passes clear d expired unflagged tasks, and floor(log2 n) + 1 any list of n tasks, also with equal tasks |
| Eviction.ScanNeverMovesBack | Log_Receiver/src/main.py:80-90 | no pass moves a task away from the front |
| Eviction.PassMovesUp | Log_Receiver/src/main.py:80-90 | for any clock reads and any concurrent flags on other tasks, an expired task that stays unflagged is removed or ends strictly closer to the front |
| Eviction.EvictedWithin | Log_Receiver/src/main.py:36-47 | such a task at index p is gone after p + 1 rounds, whatever is registered meanwhile |
| Eviction.RoundsSnoc | Log_Receiver/src/main.py:36-47 | each round registers its devices and then passes once over the list, in order |
| Eviction.FlaggedSurvivesExactly | Log_Receiver/src/main.py:68-90 | given a fresh token and whatever tasks are equal, a task flagged when examined survives the pass if and only if its two clock reads are under 15 s apart; the survivor has the new deadline and command |
| HeartbeatThread.Heartbeat.RegisterTask | Log_Receiver/src/main.py:49-54 | appends a task that expires in 180 s |
| HeartbeatThread.Heartbeat.UpdatedTask | Log_Receiver/src/main.py:68-77 | clears the flag, sets the new command and a deadline 15 s ahead, and touches no other task |
| HeartbeatThread.Heartbeat.FindTask | Log_Receiver/src/main.py:90 | the first entry that equals the task by identity or value, which need not be the entry being examined |
| HeartbeatThread.Heartbeat.RemoveTask | Log_Receiver/src/main.py:90 | removes the first entry equal by identity or value |
| HeartbeatThread.Heartbeat.ExamineTask | Log_Receiver/src/main.py:82-90 | one iteration on the objects equals the value-level iteration |
| HeartbeatThread.Heartbeat.CheckExpire | Log_Receiver/src/main.py:80-90 | the loop over the shifting list of objects equals the value-level pass, with flags set by other threads at both interruption points |
| Commands.TouchMatchesExactly | Log_Receiver/src/tcp_server.py:154-157 | "touch /tmp/t" is contained in a task's command exactly when the task was refreshed with token t |
| Commands.PingMatchesExactly | Log_Receiver/src/tcp_server.py:154-157 | a ping is contained exactly in the commands equal to it |
| Commands.LineNamesTokenExactly | Log_Receiver/src/tcp_server.py:154-157 | a line that occurs in the refresh command of one token occurs in no other token's command if and only if it contains the token |
| Commands.WatchdogMatchesExactly | Log_Receiver/src/main.py:70-72 | the name of the watchdog program occurs in every refresh command and in no ping |
| Monitor.RegisterMoves | Log_Receiver/src/main.py:41-54 | popping and registering moves a device from place to place without adding one |
| Monitor.PlacesBounded | Log_Receiver/src/tcp_server.py:77-79 | in every interleaving with pop, register and expire, an address occupies at most 1 place, plus 1 for a non-atomic admission check, plus 1 for a non-atomic pop-and-register |
| MonitorProperties.BoundIsReached | Log_Receiver/src/tcp_server.py:77-79 | for each of the four granularities some run reaches its bound |
| MonitorProperties.RemovesTheWrongOne | Log_Receiver/src/main.py:90 | at each granularity but the fully atomic one, some run examines one of two equal tasks and removes the other |
| MonitorProperties.ExpiryIsExactIff | Log_Receiver/src/main.py:87-90 | an expiry test removes exactly the examined task in every reachable state if and only if admission and registration are both atomic |
| MonitorProperties.DistinctStampsAreEnough | Log_Receiver/src/main.py:49-54 | at every granularity, removal is exact in runs whose registrations read different times |
| MonitorProperties.StampedStatesDiffer | Log_Receiver/src/main.py:80-90 | in runs whose registrations read different times no two listed tasks are equal, so a pass leaves exactly the tasks that its sweep leaves |
| MonitorProperties.TokensStayDistinct | Log_Receiver/src/main.py:68-77 | with fresh tokens, refreshed tasks carry pairwise different tokens in every reachable state |
| MonitorProperties.TouchFlagsExactlyOne | Log_Receiver/src/tcp_server.py:154-157 | in every reachable state a refreshed task's command line matches that task and no other |
| MonitorProperties.PingMayFlagSeveral | Log_Receiver/src/main.py:38-44 | devices registered in one round share their ping, so one line matches them all |
| MonitorProperties.PingSharedExactly | Log_Receiver/src/main.py:38-43 | in every reachable state two unrefreshed tasks share their ping if and only if they were registered in the same round |
| MonitorProperties.PingFlagsOneExactly | Log_Receiver/src/tcp_server.py:154-157 | a ping's line matches its task alone if and only if no other unrefreshed task is from its round |
| MonitorProperties.RefreshesNeverOutnumberMatches | Log_Receiver/src/main.py:82-84 | in every reachable state, also between the two halves of a refresh, no task was refreshed more often than records matched it, and a flagged one strictly less often |
| MonitorProperties.ThreadsAreSequential | Log_Receiver/src/main.py:36-47 | in any state the heartbeat thread and the listener are each at one place of their loops: no scan starts while a device waits to be registered |
| MonitorProperties.ThreadsGoOn | Log_Receiver/src/main.py:36-47 | given a fresh token, in every reachable state both threads have a next step |
| MonitorRuns.ExecContinues | Log_Receiver/src/main.py:36-47 | continuing a run step by step from the state it reached is running the whole from the start |
| MonitorRuns.PassIsScan | Log_Receiver/src/main.py:80-90 | the steps of a pass, whatever is interleaved, do to the list what `check_expire` does with the clock reads, tokens and flags that `PassReads` reads off them; matches of the old command during a refresh included |
| MonitorRuns.ReadsAreInOrder | Log_Receiver/src/main.py:68-90 | those clock reads and tokens are the ones of the steps, iteration by iteration in order |
| MonitorRuns.MarksAreInOrder | Log_Receiver/src/tcp_server.py:154-157 | those flags are the ones of the records matched meanwhile, each in the iteration in which it was matched |
| MonitorRuns.FlaggedSurvivesInRun | Log_Receiver/src/main.py:68-90 | in every reachable state at every granularity, a flagged task whose refresh begins survives its pass if and only if the two clock reads are under 15 s apart |
| MonitorRuns.EvictedInRun | Log_Receiver/src/main.py:36-47 | in every interleaving at every granularity, an expired task at index p that stays unflagged is gone once p + 1 passes are complete |
| MonitorPasses.ReachableIsTogether | Log_Receiver/src/main.py:36-54 | in every reachable state at every granularity, outside the two halves of a refresh, equal expired tasks have only expired ones between them, as long as registrations read a clock that does not fall |
| MonitorPasses.QuietRunIsPasses | Log_Receiver/src/main.py:36-47 | a run without matches and registrations, whose passes read one clock value, does to the list what that many passes of `check_expire` do |
| MonitorPasses.ClearedInRun | Log_Receiver/src/main.py:80-90 | in every such run at every granularity, m passes clear all expired unflagged tasks if and only if the longest run is shorter than 2^m, every maximal run is halved m times, and every other task stays, in order |
| MonitorPasses.ClearedWithinLogInRun | Log_Receiver/src/main.py:80-90 | whatever clock the registrations read, passes whose number exceeds log2 d clear d expired unflagged tasks |
| MonitorPasses.FallingClockOutlasts | Log_Receiver/src/main.py:49-54 | from the start, with registrations whose clock falls: a list whose longest run is two is not cleared by two passes |
| HeartbeatLoop.MatchFlagsOne | Log_Receiver/src/tcp_server.py:154-157 | matching that line sets that task's flag and changes nothing else |
| HeartbeatLoop.PingArgsJoin | Log_Receiver/src/main.py:38 | the arguments of the process that a ping starts join to the ping |
| HeartbeatLoop.HeartbeatFlagsItsTask | Log_Receiver/src/tcp_server.py:141-157 | the audit record of the touch process started by a stored refresh command, its title spelled in digits of either letter case, is translated, decoded and matched so that exactly its task becomes flagged |
| HeartbeatLoop.TouchFlagsIffStored | Log_Receiver/src/main.py:68-77 | from the begin of a refresh to its expiry test, the touch record flags its task alone if the command has been stored by then, and nobody otherwise |
| HeartbeatLoop.UnstoredFlagsNobody | Log_Receiver/src/main.py:68-77 | while a refresh has not stored its command, the record of its touch process leaves the task list as it is |
| HeartbeatLoop.HeartbeatMayBeLost | Log_Receiver/src/main.py:73-75 | from the start: a run in which the record of an executed refresh command flags nobody |
| HeartbeatLoop.WatchdogFlagsAllRefreshed | Log_Receiver/src/tcp_server.py:154-157 | in every reachable state a line with the name of the watchdog program flags all refreshed tasks and no other |
| HeartbeatLoop.OneLineMayFlagTwo | Log_Receiver/src/tcp_server.py:154-157 | from the start: a run in which one such line flags two tasks |
| HeartbeatLoop.WatchdogTitleIsRead | Log_Receiver/src/tcp_server.py:143-151 | that name is read as it stands from a record that carries it unquoted and in clear |
| Receiver.MatchAllMeaning | Log_Receiver/src/tcp_server.py:141-157 | matching a list of lines sets flags only, and a task ends flagged exactly when it was or when some line names a command it contains |
| Receiver.MarkerlessLineChangesNothing | Log_Receiver/src/tcp_server.py:143 | a line without "proctitle=" leaves every task as it is |
| Receiver.MarkerlessLinesChangeNothing | Log_Receiver/src/tcp_server.py:141-143 | so does any list of such lines |
| Receiver.TranslatableCounts | Log_Receiver/src/tcp_server.py:111-113 | the counter of translatable lines is the number of indices whose line translates |
| Receiver.TranslatedAt | Log_Receiver/src/tcp_server.py:110-116 | there is one entry per line that translates; the entry of line i is its translation, behind those of the translatable lines before it |
| Receiver.NewestTook | Log_Receiver/src/tcp_server.py:113-116 | the newest n of the old contents and the translated lines, position by position: each translated line with its followers behind it, then the newest old entries |
| Receiver.TcpServer.ParseEventLog | Log_Receiver/src/tcp_server.py:109-116 | each of the three deques ends with the newest 1000, 1000 and 10000 of its old contents followed by one entry per translatable line: stated as a whole and position by position |
| Receiver.ConcatAppends | Log_Receiver/src/tcp_server.py:123 | concatenation follows the order of the drained lines |
| Receiver.ConcatOne | Log_Receiver/src/tcp_server.py:118-123 | one line is itself, and no line is the empty text |
| Receiver.DrainSplits | Log_Receiver/src/tcp_server.py:121-123 | what a drain takes out and what it leaves make up what there was |
| Receiver.TcpServer.SaveAuditLog | Log_Receiver/src/tcp_server.py:118-123 | drains the oldest entries, concatenated in order, down to ten |
| Receiver.TcpServer.FlagMatching | Log_Receiver/src/tcp_server.py:154-157 | flags exactly the tasks whose command contains the executed one |
| Receiver.TcpServer.LogMatch | Log_Receiver/src/tcp_server.py:130-157 | drains the heartbeat deque down to ten and applies the drained lines, in order, to the tasks |
| Receiver.UnixServer.ListenClient | Log_Receiver/src/unix_server.py:33-39 | undisturbed, the client loop sends the oldest entries in order and leaves thirty |
| Pipeline.PacketLines | Log_Receiver/src/tcp_server.py:97-111 | a received payload splits into exactly the accepted records it was built from |
| Pipeline.RunKeepsInv | qemu/optee_examples/collect/ta/ta_collect.c:57-103 | over every run of all devices and connections, one per opened session and one per batch: batches cover disjoint increasing ranges of accepted records, each deque's stream holds faithful translations, per batch in order, and each accepted connection has started one file and one heartbeat worker |
| Pipeline.EndToEnd | Log_Receiver/src/unix_server.py:33-39 | what any client or worker got is the translation of accepted records, each at most once and each batch in accepted order, and no two workers of a deque share a record |
| Pipeline.NoEmptyPop | Log_Receiver/src/unix_server.py:36-38 | in the joined machine, 11, 11 and 31 workers never pop an empty file, heartbeat or SPADE deque |
| Pipeline.PoppedIsClaimed | Log_Receiver/src/unix_server.py:38-39 | over every joined run every entry popped from a deque is with some worker of that deque |
| Pipeline.UnservedAreUnread | Log_Receiver/src/tcp_server.py:72-85 | over every joined run a connection is read only once it is accepted |
| Ordering.OrderedUnlessOvertaken | Log_Receiver/src/tcp_server.py:84-85 | a run in which no thread appends a record while another connection can still bring an earlier one of the device keeps every device's records in order at the deque |
| Ordering.EndToEndOrder | Log_Receiver/src/unix_server.py:33-39 | in such a run what any client or worker got is per device in accepted order |
| Ordering.CanBePaid | Log_Receiver/src/tcp_server.py:109-116 | what a connection still owes to a deque, some continuation brings there by steps of that connection and the listener alone |
| Ordering.OvertakenExactly | Log_Receiver/src/tcp_server.py:84-85 | in any reachable state, an appended record can later be followed by an earlier one of its device if and only if another connection can still bring one at that moment |
| Ordering.SwappedExactly | Log_Receiver/src/tcp_server.py:113-116 | a line taken up now can reach another deque before a line that precedes it in the file deque if and only if some thread holds a line that this deque has not got |
| Scenarios.BatchesMayReorder | qemu/optee_examples/collect/ta/ta_collect.c:87-100 | from the start: two batches of one device, accepted in order, reach a deque in the opposite order |
| Scenarios.DeviceOrderExactly | qemu/optee_examples/collect/ta/ta_collect.c:72-103 | every run with at most n batches per device is in order per device if and only if n <= 1 |
| Scenarios.DequesMayDiffer | Log_Receiver/src/tcp_server.py:113-116 | from the start: with two batches, the file deque and any other one receive the same two lines in opposite orders |
| Scenarios.OneOrderExactly | Log_Receiver/src/tcp_server.py:113-116 | every run with at most n batches, whoever else connects, feeds the deques in one order if and only if n <= 1 |
| Scenarios.TooManyBatchesCrash | Log_Receiver/src/tcp_server.py:84-87 | from the start: the connection of one session and threshold + 1 batches, each accepted and so starting its workers, and some run pops an empty deque |
| Scenarios.NoEmptyPopExactly | Log_Receiver/src/tcp_server.py:84-87 | the file and heartbeat deques are never popped when empty if and only if at most 11 connections were accepted, the SPADE deque if and only if it has at most 31 clients |
| Scenarios.ClientsMayReorder | Log_Receiver/src/unix_server.py:36-39 | from the start: two SPADE clients send an entry before an earlier one |
| Scenarios.SendsInOrderExactly | Log_Receiver/src/unix_server.py:36-39 | every run with at most n SPADE clients sends in the order of the stream if and only if n <= 1 |
| Capacity.PacketsStaySmall | qemu/linux/audit_qemu.patch:180-188 | with records of at least 20 bytes every packet ever sent holds at most 477 records |
| Capacity.BatchesFit | Log_Receiver/src/tcp_server.py:52-53 | from a drained deque with no lines at hand, the next two batches (twenty for the SPADE deque) overflow nothing, however threads and workers are scheduled |
| Capacity.OverflowsExactly | Log_Receiver/src/tcp_server.py:52-53 | over every run of clean records the deques hold at most 1000, 1000 and 10000 entries, and a step pushes out an entry, the oldest, exactly when it appends to a full deque |
| Completeness.TakenBySomeDrain | qemu/linux/audit_qemu.patch:180-188 | a record that left the queue is in the batch of an identified drain or was dropped by it |
| Completeness.RunIsComplete | Log_Receiver/src/tcp_server.py:95-116 | every delivered record is in the packet of some connection, and every translatable record that a connection has brought to a deque was appended to it |
| Completeness.DequesFollow | Log_Receiver/src/tcp_server.py:113-116 | over every run of clean records a record is in the SPADE deque's stream only if it is in the heartbeat deque's, and there only if in the file deque's |
| Completeness.EveryRecordHasAFate | Log_Receiver/src/tcp_server.py:91-116 | each accepted record is queued, dropped or lost by an identified drain, in an identified connection (on the way, lost by its `recv` or `decode`, unparsed, in hand, untranslatable), or in the deque's stream, where it is retained, with an identified worker, or overflowed |
| Completeness.FateIsUnique | Log_Receiver/src/tcp_server.py:91-116 | as far as one deque is concerned, each accepted record has only one of these fates |

## Left out

- Sockets, SSH execution, file writing, logging and timers; the file written by `save_audit_log` is reopened each time, so nothing is claimed about its contents.
- Random tokens, the clock and UTF-8 decoding are parameters: fresh tokens, arbitrary clock reads, any decoder.
- The endless loops of the listener, `Heartbeat.run` and `listen_client` are state machines over their steps; as methods only their loop bodies and finite loops appear.
- TCP segmentation of a batch across several `recv` calls.
- Data races inside one ring operation, and removal from the task list in the middle of one scan by the listener or the log matcher.
- Records of 1024 bytes or more and records with NUL, which the C string functions do not handle.
- Collector.KernelCollector.DrainQueue: only from at least 500 queued records, because its one caller guarantees that; on an empty queue the code would use an unset length.
- Collector.KernelCollector.SendEventLog: only from at least 500 queued records, for the same reason.
- ExpiryPass.PassIsSweep: not for lists in which equal expired tasks have an unexpired one between them; such lists need a clock that falls between registrations, and MonitorPasses.FallingClockOutlasts shows the exact condition to fail for one.
- ExpiryPass.ClearedExactly: not for those lists, for the same reason; ExpiryPass.ClearedWithinLog holds for all lists.
- Hex.Bytes2Hex: a negative length, for which the C loop does not terminate, is not modelled.
- Receiver.UnixServer.ListenClient: one undisturbed thread; several threads are the subject of CheckThenPop and Pipeline.
- The trusted applications beyond the connections that the collector opens per session and per batch, SHA-256, memory mapping and the watchdog registers: library calls and hardware.
- The SPADE patch, kernel configuration, Docker and build files: no behaviour of their own to prove.

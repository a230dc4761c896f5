# Verification of the kernel, the FFT and the CSP services

This project models three parts of the firmware and proves what they are for.

**The FreeRTOS V8.2.0 kernel core**, in the configuration of `FreeRTOS/FreeRTOSConfig.h` (16-bit
ticks, preemption on, time slicing off, task suspension, mutexes and software timers in, queue
sets and co-routines out).

- `Ring`, `LinkedList`: the circular lists of `list.c`, first as a ring of items with an index,
  then on the heap of nodes with their pointer fields, where every method is proved to do what
  the ring operation does. `KernelLists` holds all lists of the scheduler as rings, with the
  container and value of each item.
- `WakeTimes`, `Scheduling`, `Kernel`: the scheduler of `tasks.c`. Class `Kernel` has the
  variables of `tasks.c` and its functions as methods. A ghost epoch turns the 16-bit counter
  into unbounded true time; `Clock()` is the set of blocked tasks with their true wake times,
  and each method states which event of `WakeTimes` (a tick, a block, an early removal) it is.
  Theorems about whole runs are proved on these events, and in `KernelRuns` on sequences of
  kernel calls. Critical sections and functions that
  run with the scheduler suspended are single methods, so that ticks and other calls may come
  between any two of them.
- `Mutexes`: the counts and priorities of mutex holders. `TimeOuts`, `BlockingCalls`: blocking
  calls with a deadline.
- `QueueStorage`: the byte buffer of a queue as a bounded double-ended sequence. `QueueLock`,
  `QueueEvents`: the lock protocol of `queue.c` as a state machine with a program counter for
  each task, interrupts between any two steps, and a class whose methods are proved to take
  exactly these steps. `QueueWraps`: what happens at the ends of the 8-bit counts. `QueueCalls`:
  how single calls go and end.
- `TimerLists`, `TimerRuns`, `Timers`: the timer daemon. Ghost state follows each timer from the
  moment it is started, with no other command for it outstanding: its start, its callbacks since,
  and the true time of the last of them. Each method of the class states which step of
  `TimerRuns` it is, where the theorems about whole runs are.
- `EventGroups`, `EventBits`: event bits and the tasks waiting for them.

**The FFT** (`Fft`, `FftMemory`, `BitrevTable`): exact arithmetic on pairs of reals, any power of
two, any twiddle function with the algebraic properties of a root of unity. The source multiplies
by cos + i·sin, so the transform has a positive exponent. `Fft` is the mathematics, `FftMemory`
the loops on the memory.

**CSP** (`CrcDivision`, `CrcTable`, `Crc32`, `Sfp`, `Connections`): the CRC-32C checksum against
its bit-serial definition, fragmentation and reassembly, and the search for an ephemeral port.

`Indices`, `Sequences`, `Filters`, `Options`, `Tasks` and `ComplexNumbers` are small supporting modules.
To check all files, run `dafny verify dfyconfig.toml` in this directory.

Several expectations turn out to hold only under a condition. Each time the code is modelled as
it is, and the condition is proved to be exact or a case outside it is given:

- A reassembled transfer is right for every delivery if and only if the mtu is at least 2 or
  there is at most one byte (`Sfp.SoundIff`). Which sequences of fragments complete a reception
  at all is `Sfp.CompletesIff`.
- A timer command is placed rightly if and only if it is processed less than 2^16 ticks after it
  was given, or later with a remainder of at least the period (`TimerLists.PlaceIsExact`); any
  other is placed as one given a multiple of 2^16 ticks later (`TimerLists.PlaceSlips`). So an
  undisturbed auto-reload timer misses expiries if and only if one of its starts is served that
  late (`TimerRuns.EveryPeriod`). That the daemon looks at the clock often enough is not sufficient:
  `TimerRuns.LateRun` is a run from a new daemon.
- A timeout check is wrong exactly in the cases of `TimeOuts.WrongExactlyWhen`, all with 2^16 or
  more ticks between two checks.
- The 8-bit lock count of a queue allows 127 sends while it is locked, and 127 receives.
  `QueueWraps.ReceiversAfterWindow` and `QueueWraps.SendersAfterWindow` say for every lock window
  exactly when the rules hold after it, and `QueueWraps.WrapStrandsReceiver` and
  `QueueWraps.WrapStrandsSender` give runs from a new queue in which they do not. A reset keeps the
  rule for senders exactly as `QueueWraps.ResetKeepsSenders` says.
- A send with queueOVERWRITE is the sequence operation if and only if it does not meet an item
  that is there and has size 0 (`QueueStorage.SentIsAsked`): the code tests the item size first
  and adds one to the count, beyond the length (`QueueStorage.OverwriteOverfills`) and after 255
  round to 0, which can strand a sender (`QueueWraps.CountWrapExact`, `QueueWraps.CountWrapStrandsSender`).
- The 8-bit count of pended ticks loses 256 ticks when it wraps; `Kernel.Kernel.IncrementTick`
  records them in the ghost field `lost`, and true time and the ticks that arrived differ by
  exactly the pended and the lost ones.
- An ADC sample less its offset is right exactly if the difference fits an int
  (`FftMemory.SampleIsCorrected`).

## Model

| member | source | states |
|---|---|---|
| Fft.SplitEvenOdd | fft_memory.c:401-437 | The 2n-term sum over a stride is the sum of its even terms plus w(stride·k) times the sum of its odd terms, for every multiplicative w, offset, stride and bin. |
| Fft.Periodic | fft_memory.c:401-437 | Under a twiddle function of N points an n-point block transform at stride N/n repeats every n bins, which is why one butterfly serves two output cells. |
| Fft.HalfTurn | fft_memory.c:414-426 | Half a block further on the odd part enters with the opposite sign: the subtraction in the butterfly. |
| Fft.ButterflyIsDft | fft_memory.c:407-434 | If all blocks of n cells hold n-point transforms of the bit-reversed input, every cell after one butterfly stage holds its bin of the 2n-point transform. |
| Fft.StageAdvances | fft_memory.c:401-437 | One whole stage takes finished blocks of n cells to finished blocks of 2n cells. |
| Fft.StagesAreDft | fft_memory.c:401-437 | From any intermediate stage on, the remaining stages finish the transform. |
| Fft.FftIsDft | fft_memory.c:388-438 | For N = 2^m and any w with w(0) = 1, w(a+b) = w(a)w(b), w(N/2) = -1 (N > 1): started on x in bit-reversed order, cell k ends as the sum over j of x(j)·w(jk). |
| Fft.ButterflyDoubles | fft_memory.c:414-426 | With twiddles of magnitude one, the two cells of a butterfly end with twice their energy. |
| Fft.BlocksDouble | fft_memory.c:401-437 | A stage doubles the sum of squared magnitudes of every prefix of blocks, so of the whole memory. |
| Fft.StagesEnergy | fft_memory.c:401-437 | t stages multiply the energy by 2^t. |
| Fft.FftEnergy | fft_memory.c:388-438 | The result has N times the energy of the input. |
| Fft.RealInput | fft_memory.c:388-438 | The transform of samples without imaginary part is symmetric: bin N - k is the conjugate of bin k, for twiddles of magnitude one. |
| FftMemory.SampleIsCorrected | fft_memory.c:353-382 | The value stored for sample 2j is the true difference of signal and offset if and only if that difference fits the 16-bit int it is computed in. |
| FftMemory.DecimateAndStore | fft_memory.c:353-382 | For every i, cell i has imaginary part zero; its real part is signal value number 2·bitrev[i] less the offset if and only if that fits an int, and zero past the end of the signal. |
| FftMemory.SampleIsReal | fft_memory.c:353-382 | No sample has an imaginary part, and past the end of the signal there is silence. |
| FftMemory.Int16Is | fft_memory.c:353-382 | Assignment to an int keeps the value modulo 2^16, in the range of 16 bits. |
| FftMemory.WalkVisitsOnce | fft_memory.c:407-434 | Each butterfly of the pointer walk touches two cells inside the region that were not rewritten before in this stage, and adds exactly these two to the rewritten ones. |
| FftMemory.StageEnds | fft_memory.c:401-437 | When the last column is done, every cell has been rewritten: the memory is exactly one stage further. |
| FftMemory.TableIndex | fft_memory.c:405-434 | The running index Fnk and its neighbour stay inside the table of N/2 sine-cosine pairs, and it is twice the angle number of the column. |
| FftMemory.TableEnds | fft_memory.c:405-434 | A table of sines and cosines in the order in which the loop reads it starts with 0, 1 and ends with 0, -1. |
| FftMemory.Butterfly | fft_memory.c:414-426 | Only the two addressed cells change: A + B·(cos + i·sin) and A - B·(cos + i·sin). |
| FftMemory.Column | fft_memory.c:412-430 | The innermost loop does one column of butterflies and leaves both pointers one memory length further on. |
| FftMemory.OneStage | fft_memory.c:403-437 | The two inner loops replace the memory by one stage of all butterflies at once, although they work in place. |
| FftMemory.FftCalculate | fft_memory.c:388-438 | The three nested loops over the shared table compute the stages of the transform, for every power of two. |
| FftMemory.Spectrum | fft_memory.c:353-438 | Load and transform together: cell k ends as bin k of the DFT of the corrected samples, for every power of two and every w; with twiddles of magnitude one the spectrum is that of a real signal, cell 0 real and cell N - k the conjugate of cell k. |
| FftMemory.Spectrum512 | fft_memory.c:279-438 | The same for the stored 512-entry reversal table. |
| BitrevTable.TableIsReversal | fft_memory.c:279-345 | Every entry of the stored table is the 9-bit reversal of its index. |
| CrcDivision.AbsorbWord | libscp/src/csp_crc32.c:69-81 | n shift steps on a register into which a word was mixed at once equal dividing the word's bits one at a time, up to the part of the word not yet shifted out. |
| CrcDivision.DivideByte | libscp/src/csp_crc32.c:69-81 | Bit-serial division by one byte is eight steps on the register with the byte mixed in. |
| CrcDivision.DivideInjective | libscp/src/csp_crc32.c:69-81 | For a fixed message, different starting registers give different remainders. |
| CrcDivision.WindowInjective | libscp/src/csp_crc32.c:69-128 | Two different bit windows of at most 32 bits never lead one register to the same remainder. |
| CrcDivision.BurstChangesRemainder | libscp/src/csp_crc32.c:69-128 | A change confined to 32 consecutive bits changes the remainder, whatever stands before and after. |
| CrcDivision.LongerBurstHides | libscp/src/csp_crc32.c:69-128 | The bound 32 is sharp: for every register there are two different 33-bit windows with the same remainder. |
| CrcTable.TableIsBitSerial | libscp/src/csp_crc32.c:34-67 | Every entry of the stored table is its index after eight shift steps with polynomial 0x82F63B78. |
| Crc32.TableStepDivides | libscp/src/csp_crc32.c:69-81 | One table step divides by the eight bits of the byte. |
| Crc32.CrcMemory | libscp/src/csp_crc32.c:69-81 | The byte loop returns the CRC-32C of section 12.1 of RFC 3720: bit-serial reflected division from all ones, inverted, for every buffer and length. |
| Crc32.CheckValue | libscp/src/csp_crc32.c:69-81 | The checksum of the bytes 123456789 is 0xE3069283, the check value of CRC-32C. |
| Crc32.NetworkOrder | libscp/src/csp_crc32.c:83-101 | The check bytes in the packet are the checksum, most significant byte first. |
| Crc32.CheckBytesInOrder | libscp/src/csp_crc32.c:83-101 | So the check bytes of every message are its checksum in network order. |
| Crc32.CspCrc32Append | libscp/src/csp_crc32.c:83-101 | Adds the four check bytes of the payload behind it and touches no byte beyond them; a null packet is refused. |
| Crc32.CspCrc32Verify | libscp/src/csp_crc32.c:103-128 | Succeeds, and takes four off the length, if and only if the payload ends in its own check bytes; otherwise length and data stay and the error is returned. |
| Crc32.AppendThenVerify | libscp/src/csp_crc32.c:83-128 | Append then verify succeeds and restores the payload, for every packet with room. |
| Crc32.SealedIsAccepted | libscp/src/csp_crc32.c:103-128 | Any data followed by its check bytes is accepted. |
| Crc32.BurstChangesCrc | libscp/src/csp_crc32.c:69-81 | Messages of equal length that differ only within four consecutive bytes have different checksums. |
| Crc32.BurstIsRefused | libscp/src/csp_crc32.c:103-128 | A packet damaged within four consecutive data bytes is refused. |
| Crc32.TopBytesDistinct | libscp/src/csp_crc32.c:34-67 | No two table entries share their top byte. |
| Sfp.HeaderRemoved | libscp/src/csp_sfp.c:38-49 | Removing a header gives back the chunk, the offset and the total size that were added, through network byte order. |
| Sfp.BigEndian | libscp/src/csp_sfp.c:77-79 | Header fields travel most significant byte first. |
| Sfp.OnTheWire | libscp/src/csp_sfp.c:60-79 | A fragment is flagged and consists of its part of the data, of mtu bytes or what is left, then its offset, then the total size. |
| Sfp.CspSfpSend | libscp/src/csp_sfp.c:51-94 | Sends the fragments of the data in order, all of them with result 0, or, when packets run out after `budget`, the first `budget` of them with result -1. |
| Sfp.KthFragment | libscp/src/csp_sfp.c:51-94 | Fragment k starts at byte k·mtu, and there are as many as start before the end of the data. |
| Sfp.CspSfpRecv | libscp/src/csp_sfp.c:96-145 | The receive loop, in place on the output buffer and with last_byte and last_byte + 1 in 16 bits, ends with the result, buffer, size and remaining packets of the packet-by-packet reference reception. |
| Sfp.NoGap | libscp/src/csp_sfp.c:116-122 | With mtu of at least 2 a fragment offset accepted by the `last_byte + 1` test never lies beyond what is covered. |
| Sfp.ReceiveSound | libscp/src/csp_sfp.c:96-145 | From any covered prefix: under any loss, duplication and reordering of a transfer's fragments a complete reception has written exactly the sent bytes. |
| Sfp.TransferSound | libscp/src/csp_sfp.c:51-145 | The same for what arrives of all the fragments of a transfer, or of the first n of them. |
| Sfp.SoundIff | libscp/src/csp_sfp.c:51-145 | No delivery can make a complete reception wrong if and only if the mtu is at least 2 or there is at most one byte. |
| Sfp.SkippedFirstFragment | libscp/src/csp_sfp.c:116-122 | With mtu 1 every longer transfer has a delivery, without its first fragment, that is accepted with a wrong first byte. |
| Sfp.InOrderCompletes | libscp/src/csp_sfp.c:96-145 | Delivering the fragments from any offset on in order completes the reception and leaves what follows unread. |
| Sfp.LosslessSucceeds | libscp/src/csp_sfp.c:51-145 | Everything delivered once and in order always succeeds, for every mtu. |
| Sfp.CompletesIff | libscp/src/csp_sfp.c:96-145 | For every sequence of fragments of a transfer, in any order and with any repetitions: a reception completes if and only if the last fragment comes in and up to it no fragment is further on than the one after its predecessor, the first being fragment 0; with mtu 1 each may be one further. |
| Sfp.Transfer | libscp/src/csp_sfp.c:51-145 | End to end, send, link and receive: whatever the link loses, repeats or reorders of the packets csp_sfp_send put out, and even if that ran out of packets, result 0 means the output is the data given to the sender; without loss the result is 0. |
| Ring.InsertPos | FreeRTOS/Source/list.c:141-205 | The place of a value in a list is before the first greater one, behind all that are less or equal before it. |
| Ring.InsertPosUnique | FreeRTOS/Source/list.c:141-205 | There is only one such place, so the search loop of vListInsert has no choice. |
| Ring.InsertStable | FreeRTOS/Source/list.c:141-205 | Inserting there keeps a sorted list sorted, and equal values keep their order of arrival. |
| Ring.NextRotates | FreeRTOS/Source/include/list.h:318-329 | The item returned is the first upcoming one, and it becomes the last. |
| Ring.TurnsInOrder | FreeRTOS/Source/include/list.h:318-329 | n calls return the n first upcoming items: every item gets one turn per round, in order. |
| Ring.InsertEndTurn | FreeRTOS/Source/list.c:116-138 | A new item comes behind every waiting item except the one at the index. |
| Ring.RemoveKeepsTurns | FreeRTOS/Source/list.c:208-232 | Removing an item, even the one at the index, leaves the upcoming order unchanged but for that item. |
| LinkedList.LinkBefore | FreeRTOS/Source/list.c:116-138 | The four pointer writes of vListInsertEnd keep pxNext and pxPrevious inverse, with the item spliced in before the index. |
| LinkedList.LinkAfter | FreeRTOS/Source/list.c:196-205 | The four pointer writes of vListInsert splice the item in behind the iterator. |
| LinkedList.Unlink | FreeRTOS/Source/list.c:208-215 | The two pointer writes of uxListRemove close the circle without the item. |
| LinkedList.List.constructor | FreeRTOS/Source/list.c:79-101 | A new list is an empty ring. |
| LinkedList.List.InsertEnd | FreeRTOS/Source/list.c:116-138 | On the heap of nodes: links, containers and count stay consistent, and the list is the ring with the item inserted before its index. |
| LinkedList.List.FindPlace | FreeRTOS/Source/list.c:141-195 | The search terminates, also for portMAX_DELAY in a list of such values, at the place of the value. |
| LinkedList.List.Insert | FreeRTOS/Source/list.c:141-205 | The list is the ring with the item inserted at the place of its value. |
| LinkedList.List.Remove | FreeRTOS/Source/list.c:208-232 | The list is the ring without the item, the item has no container, and the number returned is the new count. |
| LinkedList.List.GetOwnerOfNextEntry | FreeRTOS/Source/include/list.h:318-329 | The index moves one item on, past the end marker, and the owner returned is that item's; no link changes. |
| LinkedList.List.IsEmpty | FreeRTOS/Source/include/list.h:291 | The 8-bit count says empty if and only if the number of items is a multiple of 256, so rightly below 256 items. |
| LinkedList.ListRemove | FreeRTOS/Source/list.c:208-232 | uxListRemove from the item alone, which finds its list through its container. |
| KernelLists.InsertEndKeeps | FreeRTOS/Source/list.c:116-138 | Across all lists of the scheduler: every list holds exactly the items whose container it is, once each, and the delayed lists stay sorted. |
| KernelLists.InsertKeeps | FreeRTOS/Source/list.c:141-205 | The same lists-and-containers invariant for the sorted insert, into any list. |
| KernelLists.InsertKeepsSorted | FreeRTOS/Source/list.c:141-205 | Both delayed lists stay sorted by wake time. |
| KernelLists.RemoveKeeps | FreeRTOS/Source/list.c:208-232 | Removal keeps lists and containers in agreement. |
| KernelLists.RemoveKeepsSorted | FreeRTOS/Source/list.c:208-232 | Removal keeps both delayed lists sorted. |
| KernelLists.NextKeeps | FreeRTOS/Source/include/list.h:318-329 | Taking the next entry keeps the invariant of all lists. |
| KernelLists.EndOfTurns | FreeRTOS/Source/list.c:116-138 | An item inserted at the end of a list waits behind all others there, save the one at the index, and all other lists stay as they were. |
| KernelLists.LeavesTurns | FreeRTOS/Source/list.c:208-232 | An item removed leaves the order of turns of the others. |
| KernelLists.TakesTurns | FreeRTOS/Source/include/list.h:318-328 | The next owner is the first in turn, and becomes the last. |
| KernelLists.HeadIsLeast | FreeRTOS/Source/tasks.c:3265-3287 | The head of a sorted list has the least value of all its items. |
| WakeTimes.RunKeepsPending | FreeRTOS/Source/tasks.c:1934-2105 | In every run of blocks, early removals and ticks no task is still blocked at or after its wake time, and none is blocked more than 65535 ticks ahead. |
| WakeTimes.SleepsUntil | FreeRTOS/Source/tasks.c:1934-2105 | A blocked task that nothing removes early is blocked if and only if its wake time has not come. |
| WakeTimes.ExactTimeout | FreeRTOS/Source/tasks.c:918-2105 | A task blocked at T for d ticks (1..65535) and not removed early times out exactly when tick T + d is processed, in every run. |
| Scheduling.UnblockAll | FreeRTOS/Source/tasks.c:1968-2045 | The loop over the head of the delayed list readies exactly the tasks whose wake value is the tick, each once, and keeps the scheduler invariant. |
| Scheduling.OneDue | FreeRTOS/Source/tasks.c:1968-2045 | Readying a task that is due leaves exactly the other due tasks due, so the loop can go on from there. |
| Scheduling.ReadyTurn | FreeRTOS/Source/tasks.c:385-388 | A task made ready comes last in the turns of its ready list, save for the one at the index. |
| Scheduling.UnblockIsTick | FreeRTOS/Source/tasks.c:1946-2045 | After the counter has moved, readying the due tasks is one tick of true time: exactly the tasks with that true wake time wake. |
| Scheduling.SwitchIsQuiet | FreeRTOS/Source/tasks.c:365-377 | At every wrap of the counter the current delayed list is empty, and exchanging the lists changes no task's true wake time. |
| Scheduling.ClockPending | FreeRTOS/Source/tasks.c:2989-3016 | The 16-bit wake values in the two lists stand for true wake times within the next 65535 ticks. |
| Scheduling.DelayIsBlock | FreeRTOS/Source/tasks.c:2989-3016 | A wake value added in 16 bits, put in the current or overflow list by comparing with the counter, blocks the task until true time now + d. |
| Scheduling.DelayUntilIsExact | FreeRTOS/Source/tasks.c:840-866 | If the previous wake time is less than 2^16 ticks ago, the decision of vTaskDelayUntil in wrapping arithmetic is to block exactly when previous + increment lies ahead, and for the true difference. |
| Scheduling.DrainPending | FreeRTOS/Source/tasks.c:1687-1703 | The first loop of xTaskResumeAll empties the pending list and readies exactly the tasks that were in it. |
| Scheduling.LeavingIsUnblock | FreeRTOS/Source/tasks.c:2428-2493 | Taking tasks out of the delayed lists early changes the wake time of no other task and keeps the wrap invariants. |
| Scheduling.LowerTop | FreeRTOS/Source/tasks.c:293-315 | With the idle task ready, an empty top ready list is not the lowest, and the bound on ready priorities survives the step down: the search terminates. |
| Scheduling.NextIsHighest | FreeRTOS/Source/tasks.c:293-315 | The next entry of the highest non-empty ready list is a ready task, the first upcoming of its list, and no ready task has a higher priority. |
| Scheduling.BlocksFor | FreeRTOS/Source/tasks.c:2258-2314 | A running task that blocks with a timeout, in an event list or not, keeps the scheduler invariant and blocks in true time for exactly that long. |
| Scheduling.BlocksForGood | FreeRTOS/Source/tasks.c:2258-2314 | A running task that blocks without a timeout keeps the invariant and changes no wake time. |
| Scheduling.EnqueuedByValue | FreeRTOS/Source/list.c:141-205 | A waiter enters an event list behind all with an item value up to its own, and before the first with a greater one. |
| Scheduling.ReprioritisedWell | FreeRTOS/Source/tasks.c:3337-3393 | Moving a ready task to the ready list of another priority keeps the invariant under the changed priority. |
| Scheduling.OneStateList | FreeRTOS/Source/tasks.c:293-388 | Each task's state item is in exactly one list; in a ready list only of the task's own priority, which uxTopReadyPriority bounds. |
| Scheduling.TickOnlyWoken | FreeRTOS/Source/tasks.c:1968-2045 | A tick moves delayed tasks only, and these to their ready lists and out of their event lists. |
| Scheduling.OnlyWokenOn | FreeRTOS/Source/tasks.c:1709-1724 | So do several ticks in a row. |
| Scheduling.TickNewlyReady | FreeRTOS/Source/tasks.c:1968-2045 | Some due task has priority p or higher exactly if one of such priority becomes ready in the tick. |
| Scheduling.DrainedNewlyReady | FreeRTOS/Source/tasks.c:1687-1703 | The same for the pended tasks and the first loop of xTaskResumeAll. |
| Scheduling.DrainThenReplay | FreeRTOS/Source/tasks.c:1687-1724 | The two loops together: whatever was ready stays ready, every pended task becomes ready and leaves its list, and what has become ready has in the one or the other. |
| Scheduling.DrainOnlyWoken | FreeRTOS/Source/tasks.c:1687-1703 | Draining the pending list moves pended tasks only. |
| Kernel.Kernel.constructor | FreeRTOS/Source/tasks.c:2916-2945 | The state after initialisation with the idle task: invariant, time 0, nothing blocked. |
| Kernel.Kernel.ResetNextTaskUnblockTime | FreeRTOS/Source/tasks.c:3265-3287 | xNextTaskUnblockTime is the next wake value: no task of the current delayed list has a smaller one, and one has it, unless it is portMAX_DELAY. |
| Kernel.Kernel.SwitchDelayedLists | FreeRTOS/Source/tasks.c:365-377 | The lists change roles, the epoch advances, and xNextTaskUnblockTime is the next wake value of the new current list; the assertion that the old one is empty is a precondition, met at the only call. |
| Kernel.Kernel.UnblockDueTasks | FreeRTOS/Source/tasks.c:1968-2045 | The loop readies exactly the due tasks, sets xNextTaskUnblockTime, and asks for a switch exactly if one of them has at least the running task's priority. |
| Kernel.Kernel.AdvanceTick | FreeRTOS/Source/tasks.c:1946-1962 | The true time moves by one, also at the wrap, with all true wake times unchanged. |
| Kernel.Kernel.ProcessTick | FreeRTOS/Source/tasks.c:1946-2045 | One tick of true time; a switch is asked for exactly if a woken task has at least the running priority (time slicing is configured off). |
| Kernel.Kernel.IncrementTick | FreeRTOS/Source/tasks.c:1934-2105 | One more tick interrupt accounted for: processed if the scheduler runs, otherwise counted, with the loss of 256 recorded when the 8-bit count wraps. |
| Kernel.Kernel.SuspendAll | FreeRTOS/Source/tasks.c:1628-1635 | Nesting: only the count of suspensions changes. |
| Kernel.Kernel.DrainPendingReady | FreeRTOS/Source/tasks.c:1687-1703 | All pended tasks become ready; a yield is pending afterwards exactly if one was before or a task of at least the running priority has become ready. |
| Kernel.Kernel.ReplayTicks | FreeRTOS/Source/tasks.c:1709-1724 | All pended ticks are processed in order, none lost or repeated, and only tasks whose time comes are moved; a yield is pending afterwards exactly if one was before or one of these has at least the running priority. |
| Kernel.Kernel.ResumeAll | FreeRTOS/Source/tasks.c:1666-1756 | Ending the last suspension is an early removal of exactly the pended tasks followed by exactly the pended ticks, in true time; tasks woken by these are ready, all others are in the lists they were in, and whatever was ready still is. A yield is pending afterwards exactly if one was before or a task of at least the running priority has become ready. |
| Kernel.Kernel.FindTopPriority | FreeRTOS/Source/tasks.c:293-315 | The search terminates at a non-empty ready list with the bound still valid. |
| Kernel.Kernel.SwitchContext | FreeRTOS/Source/tasks.c:2198-2255 | Unless suspended it selects a ready task of the highest ready priority, the first upcoming of its list, so tasks of one priority take turns; suspended, it only notes the yield. |
| Kernel.Kernel.AddCurrentTaskToDelayedList | FreeRTOS/Source/tasks.c:2989-3016 | The task is in the list its wake value belongs to, and xNextTaskUnblockTime follows an earlier head. |
| Kernel.Kernel.DelayTo | FreeRTOS/Source/tasks.c:2989-3016 | Blocking until another counter value is blocking for the wrapped difference in true time. |
| Kernel.Kernel.Delay | FreeRTOS/Source/tasks.c:918-958 | The running task is blocked for exactly xTicksToDelay ticks of true time. |
| Kernel.Kernel.DecideDelay | FreeRTOS/Source/tasks.c:840-866 | Less than 2^16 ticks after the previous wake time the three-way comparison of 16-bit values decides to delay exactly if previous + increment lies ahead, and the delay that follows ends then. |
| Kernel.Kernel.DelayUntil | FreeRTOS/Source/tasks.c:822-913 | With the previous wake time less than 2^16 ticks ago, the task blocks until exactly previous + increment if that lies ahead, and otherwise not at all. |
| Kernel.Kernel.BlockForOrGood | FreeRTOS/Source/tasks.c:2275-2311 | Blocking with portMAX_DELAY has no wake time, with any other it is exact, and the invariant holds again. |
| Kernel.Kernel.PlaceOnEventList | FreeRTOS/Source/tasks.c:2258-2314 | The running task is in the event list, behind all waiters with an item value up to its own and before the first with a greater one, and blocked for exactly the time given. |
| Kernel.Kernel.PlaceOnUnorderedEventList | FreeRTOS/Source/tasks.c:2317-2380 | The same at the end of an unordered list, with the marked item value. |
| Kernel.InUseIs | FreeRTOS/Source/tasks.c:2317-2379 | The mark added to the item value is its top bit, and the rest of the value stays. |
| Kernel.Kernel.RemoveFromEventList | FreeRTOS/Source/tasks.c:2428-2493 | The head waiter is ready and off the list at once, or in the pending list while the scheduler is suspended; the result says whether it outranks the running task. |
| Kernel.Kernel.RemoveFromUnorderedEventList | FreeRTOS/Source/tasks.c:2496-2538 | The given waiter becomes ready with the marked item value; no other task changes lists. |
| Kernel.Kernel.Suspend | FreeRTOS/Source/tasks.c:1282-1314 | The first critical section of vTaskSuspend: the task leaves its lists, and its timeout is cancelled, for the suspended list; all other ready tasks stay ready. |
| Kernel.Kernel.Delete | FreeRTOS/Source/tasks.c:744-782 | The first critical section of vTaskDelete: the task leaves its lists for the termination list; the invariant of all others holds. |
| Kernel.Kernel.RefreshNextTaskUnblockTime | FreeRTOS/Source/tasks.c:1342-1352 | The second critical section of vTaskSuspend and vTaskDelete, any time later: xNextTaskUnblockTime is the least wake value of the current list again, or portMAX_DELAY if that is empty. |
| Kernel.Kernel.Resume | FreeRTOS/Source/tasks.c:1369-1455 | The task becomes ready exactly if it is another task, suspended, and not waiting for or just woken by an event; the yield is asked for exactly if its priority is at least the running one. |
| Kernel.Kernel.CreateTask | FreeRTOS/Source/tasks.c:646-705 | The new task is ready with its priority limited to configMAX_PRIORITIES - 1 and holds no mutex; the yield is asked for exactly if the priority asked for is higher than the running one. |
| Kernel.Kernel.TakeMutex | FreeRTOS/Source/queue.c:1401-1414 | The running task becomes the holder and the accounts balance. |
| Kernel.Kernel.PriorityInherit | FreeRTOS/Source/tasks.c:3337-3393 | The holder's priority becomes the greater of its own and the running task's, moving it between ready lists if it is ready; its event item gets the value of that priority unless it is in use; a mutex without a holder changes nothing. |
| Kernel.Kernel.PriorityDisinherit | FreeRTOS/Source/tasks.c:3400-3466 | The count falls by one. While mutexes are left the priority stays and the result is false; with none left it is the base priority, and the result says whether it was not before. |
| Kernel.Kernel.GiveMutex | FreeRTOS/Source/queue.c:1783-1803 | The mutex has no holder any more and the accounts balance, for any order of gives. If the holder still holds a number of mutexes that is not a multiple of 256 its priority stays and the result is false, otherwise it has its base priority again. |
| KernelRuns.Perform | FreeRTOS/Source/tasks.c:293-3466 | Any kernel call or interrupt: one that neither signals, suspends nor deletes a task blocked with a timeout leaves it asleep, with the same wake time and on the same event list, or makes it ready and takes it off that list, exactly as its wake time lies after or not after the ticks processed; and none lowers the priority of a task that holds a mutex afterwards. |
| KernelRuns.HoldMutexes | FreeRTOS/Source/tasks.c:3337-3466 | Over any sequence of kernel calls and interrupts the priority of a task does not go down as long as the number of mutexes it holds stays from 1 to 255, or off the multiples of 256; once it holds none it has its base priority. |
| KernelRuns.DelayAndWait | FreeRTOS/Source/tasks.c:918-958 | vTaskDelay at true time T for d ticks, then any sequence of kernel calls and interrupts that does not suspend or delete the task: it sleeps as long as tick T + d is not processed, and is ready when the call that processes it returns. |
| KernelRuns.BlockOnEventAndWait | FreeRTOS/Source/tasks.c:2258-2314 | vTaskPlaceOnEventList at true time T for at most d ticks, then any sequence of kernel calls and interrupts: up to the first call that signals, suspends or deletes it the task stays on the event list as long as tick T + d is not processed, and is ready and off the list when the call that processes it returns. |
| KernelRuns.WaitUntil | FreeRTOS/Source/tasks.c:293-3466 | The run behind both: from any state in which a task is blocked until w, with or without an event list. |
| KernelRuns.NothingReaches | FreeRTOS/Source/tasks.c:2428-2538 | No signal reaches a task that waits for no event. |
| KernelRuns.PerformResume | FreeRTOS/Source/tasks.c:1666-1756 | The same for the ticks replayed after a suspension. |
| KernelRuns.StillOrReady | FreeRTOS/Source/tasks.c:1968-2045 | A delayed task that only ticks can have moved is still delayed and on its event list, or is ready and on none. |
| Mutexes.TakeAccounts | FreeRTOS/Source/tasks.c:3793-3803 | Taking keeps: each task's count is the number of mutexes naming it as holder, its priority is at least its base priority, and equal to it while it holds none. |
| Mutexes.InheritAccounts | FreeRTOS/Source/tasks.c:3337-3393 | Inheriting a priority at least the holder's keeps the accounts. |
| Mutexes.GiveAccounts | FreeRTOS/Source/tasks.c:3400-3466 | Giving any one of the held mutexes keeps the accounts. |
| TimeOuts.TimeOut.SetState | FreeRTOS/Source/tasks.c:2541-2546 | The stamp is that of the true time: 16-bit counter and 8-bit wrap count. |
| TimeOuts.TimeOut.Check | FreeRTOS/Source/tasks.c:2549-2596 | xTaskCheckForTimeOut: the verdict computed from the two stamps; when time remains, the stamp is renewed and the wait reduced, otherwise both are left. |
| TimeOuts.CheckIsExact | FreeRTOS/Source/tasks.c:2549-2596 | With at most one wrap between the stamps it reports expiry exactly when the elapsed true time reaches the wait, and otherwise now + remaining wait is entry + wait. |
| TimeOuts.CloseEnough | FreeRTOS/Source/tasks.c:2549-2596 | Less than 2^16 ticks between checks is enough for that. |
| TimeOuts.WrongExactlyWhen | FreeRTOS/Source/tasks.c:2549-2596 | For all times: the verdict is wrong if and only if 2^16 ticks or more have passed, their remainder is below the wait, and the wrap counts agree or the counter is below its value at entry. |
| TimeOuts.TwoWrapsFool | FreeRTOS/Source/tasks.c:2549-2596 | Such a case: a wait of 65534 ticks checked after 131067. |
| TimeOuts.OneDeadline | FreeRTOS/Source/queue.c:733-807 | The retry loop of a blocking call, with less than 2^16 ticks between checks, gives up at the first check at or after entry + wait and never before: one absolute deadline. |
| BlockingCalls.CheckAndBlock | FreeRTOS/Source/queue.c:1497-1545 | One turn of the retry loop of a blocking call over a whole run of the kernel: it gives up exactly if entry + wait has come; otherwise the task blocks for what is left, and, unless a signal reaches it before, is ready exactly once tick entry + wait is processed, whenever the check came; the renewed stamp and remaining wait have the same deadline. |
| TimeOuts.Forever | FreeRTOS/Source/tasks.c:2561-2569 | An unlimited wait never expires. |
| QueueStorage.PushBack | FreeRTOS/Source/queue.c:1805-1816 | A slot written behind the last item is the sequence with the item appended, for every head, length and fill. |
| QueueStorage.PushFront | FreeRTOS/Source/queue.c:1819-1843 | A slot written before the head is the sequence with the item in front. |
| QueueStorage.PopFront | FreeRTOS/Source/queue.c:1857-1872 | Moving the head one slot on takes the first item off. |
| QueueStorage.SentIsAsked | FreeRTOS/Source/queue.c:1783-1854 | A send does what its position asks for and stays within the length, if and only if it does not overwrite an item that is there and has size 0. |
| QueueStorage.OverwriteOverfills | FreeRTOS/Source/queue.c:1783-1854 | Such an overwrite leaves two items in a queue of length one. |
| QueueStorage.Queue.constructor | FreeRTOS/Source/queue.c:260-310 | A new queue is the empty sequence. |
| QueueStorage.Queue.Reset | FreeRTOS/Source/queue.c:266-273 | Whatever it held and wherever its pointers stood, the queue is the empty sequence. |
| QueueStorage.Queue.CopyToBack | FreeRTOS/Source/queue.c:1805-1816 | On the byte buffer with the wrapping write pointer: the item is appended. |
| QueueStorage.Queue.CopyToFront | FreeRTOS/Source/queue.c:1817-1851 | With the wrapping read pointer: the item goes in front, or, in a queue of length one, replaces the item. |
| QueueStorage.Queue.CopyDataToQueue | FreeRTOS/Source/queue.c:1783-1854 | The three positions as sequence operations: behind the last, before the first, or instead of it, items of size 0 counted in 8 bits and never overwritten. |
| QueueStorage.Queue.Send | FreeRTOS/Source/queue.c:632-743 | Succeeds exactly if there is room or it overwrites; otherwise nothing changes. If it succeeds, the queue holds what was asked for within its length if and only if it was not to overwrite an item that was there and had size 0. |
| QueueStorage.Queue.CopyDataFromQueue | FreeRTOS/Source/queue.c:1857-1872 | Copies out the oldest item and moves the read pointer to it. |
| QueueStorage.Queue.Receive | FreeRTOS/Source/queue.c:1386-1438 | Succeeds exactly if there is an item, which is the oldest; receiving removes it, peeking leaves the sequence as it was. |
| QueueStorage.Exchange | FreeRTOS/Source/queue.c:632-1489 | First in, first out: over any sequence of sends to the back and receives, what was received and then what is left is what was there and then what was sent. |
| QueueStorage.SendUrgent | FreeRTOS/Source/queue.c:632-1489 | What is sent to the front is received next, and the queue is as before. |
| QueueLock.MovesKeep | FreeRTOS/Source/queue.c:763-808 | Suspending the scheduler, locking, checking the time, testing the queue and resuming keep both wake-up rules. |
| QueueLock.PlaceKeeps | FreeRTOS/Source/queue.c:769-773 | Joining a waiting list after the test keeps them: what an interrupt did since is in the lock counts. |
| QueueLock.ExamineKeeps | FreeRTOS/Source/queue.c:632-758 | The critical section of a send, overwrite, receive or peek keeps them, with the one wake-up it makes. |
| QueueLock.UnlockKeeps | FreeRTOS/Source/queue.c:1875-1987 | Each half of prvUnlockQueue turns the counted posts or receives into wake-ups. |
| QueueLock.SendInterruptKeeps | FreeRTOS/Source/queue.c:1058-1204 | A send from an interrupt keeps them anywhere, by waking or by counting. |
| QueueLock.ReceiveInterruptKeeps | FreeRTOS/Source/queue.c:1550-1634 | So does a receive from an interrupt. |
| QueueLock.TimeOutKeeps | FreeRTOS/Source/tasks.c:1968-2045 | So does a timeout that takes a waiter off its list. |
| QueueLock.ResetKeeps | FreeRTOS/Source/queue.c:260-310 | A reset keeps the rule for receivers. |
| QueueLock.LocksKeep | FreeRTOS/Source/queue.c:1875-1987 | As long as no count wraps the queue is locked exactly between prvLockQueue and prvUnlockQueue, and only the task that suspended the scheduler is there. |
| QueueLock.StepKeepsBase | FreeRTOS/Source/queue.c:613-1987 | Whatever the counts do, no step breaks what is known of the waiting and woken tasks. |
| QueueLock.DrainKeeps | FreeRTOS/Source/queue.c:1875-1987 | n wake-ups either empty the waiting list or wake n more tasks. |
| QueueLock.StepKeeps | FreeRTOS/Source/queue.c:613-1987 | No step of a task or interrupt that wraps no count breaks the rule for receivers, and none but a reset that for senders. |
| QueueLock.RunKeeps | FreeRTOS/Source/queue.c:613-1987 | In every run in which no lock count wraps: while a receiver waits, messages <= receivers woken that have not looked again + max(xTxLock, 0); likewise free slots and senders. |
| QueueLock.NoLostWakeUp | FreeRTOS/Source/queue.c:613-1987 | In every run from a new queue, whenever the scheduler is not suspended: if a receiver waits, every message has a woken receiver on its way, and likewise free slots and senders. |
| QueueWraps.UnlockTxExact | FreeRTOS/Source/queue.c:1883-1958 | In any state, whatever came before: after the first half of the unlock the rule for receivers holds if and only if the count empties the list or covers the messages. |
| QueueWraps.UnlockRxExact | FreeRTOS/Source/queue.c:1960-1986 | The same for senders and the second half. |
| QueueWraps.LockAfterIs | FreeRTOS/Source/queue.c:1058-1204 | An 8-bit lock count after n events in closed form: it wraps at 128 and stops at queueUNLOCKED. |
| QueueWraps.BeforeUnlock | FreeRTOS/Source/queue.c:1058-1634 | While a task has the queue locked, through all its moves and any interrupts, both counts follow the successful sends and receives, and nobody is woken until a count has come all the way round. |
| QueueWraps.ReceiversAfterWindow | FreeRTOS/Source/queue.c:733-1987 | For every lock window, with n successful sends anywhere in it: after the unlock the rule for receivers holds if and only if the count seen, n up to 127 and 0 beyond, empties the list or covers the messages. |
| QueueWraps.SendersAfterWindow | FreeRTOS/Source/queue.c:1467-1987 | The same for senders and successful receives, on both sides of the first half of the unlock. |
| QueueWraps.WrapStrandsReceiver | FreeRTOS/Source/queue.c:1058-1204 | A run from any new queue of length 128 or more in which 128 sends are forgotten: a receiver waits and nobody is on the way. |
| QueueWraps.WrapStrandsSender | FreeRTOS/Source/queue.c:1550-1634 | A run in which 128 receives are forgotten: a sender waits before free slots. |
| QueueWraps.ResetKeepsSenders | FreeRTOS/Source/queue.c:260-310 | A reset keeps the rule for senders if and only if no second sender waits or as many as there are slots are already woken. |
| QueueWraps.ResetStrandsSenders | FreeRTOS/Source/queue.c:260-310 | It does not always: a run from any new queue of two slots or more in which it strands a sender. |
| QueueWraps.CountWrapExact | FreeRTOS/Source/queue.c:1783-1854 | Overwriting an item of size 0 when the count is 255 makes it 0. The rule for senders survives that if and only if none waits or one is woken or announced. |
| QueueWraps.CountWrapStrandsSender | FreeRTOS/Source/queue.c:1783-1854 | A run from a new queue that gets there with a sender waiting. |
| QueueWraps.JoinRun | FreeRTOS/Source/queue.c:733-807 | A call that finds nothing to receive, or no room, goes through all its steps and joins the waiting tasks. |
| QueueWraps.BlockRun | FreeRTOS/Source/queue.c:733-807 | And on through the unlock, until the task is blocked. |
| QueueEvents.Queue.constructor | FreeRTOS/Source/queue.c:260-310 | A new queue, where both rules hold. |
| QueueEvents.Queue.CountItem | FreeRTOS/Source/queue.c:1783-1854 | The count goes up by one in 8 bits, or to one if an item that has a size is overwritten. |
| QueueEvents.Queue.SendSection | FreeRTOS/Source/queue.c:632-758 | The section of xQueueGenericSend is the examine step of the protocol: exactly if there is room or it overwrites it counts the item, wakes the first receiver and is done; otherwise it gives up without block time and goes on to wait with it. |
| QueueEvents.Queue.ReceiveSection | FreeRTOS/Source/queue.c:1380-1489 | The section of xQueueGenericReceive is the examine step: exactly if there is an item it takes it and wakes the first sender, or peeks and wakes the next receiver, and is done; otherwise it gives up without block time and goes on to wait with it. |
| QueueEvents.Queue.Lock | FreeRTOS/Source/queue.c:245-257 | prvLockQueue is the lock step: counts of -1 become 0, others stay. |
| QueueEvents.Queue.Test | FreeRTOS/Source/queue.c:1990-2047 | The task blocks exactly if the queue is empty, or for a sender full. |
| QueueEvents.Queue.Place | FreeRTOS/Source/queue.c:769-773 | Joining the waiting list at the place given is the place step; the other list stays. |
| QueueEvents.Queue.UnlockTxHalf | FreeRTOS/Source/queue.c:1883-1958 | The loop over xTxLock is the first unlock step: it takes as many receivers off the front of the list as the count says, or all, and ends with -1. |
| QueueEvents.Queue.UnlockRxHalf | FreeRTOS/Source/queue.c:1960-1986 | The loop over xRxLock is the second unlock step, the same for senders. |
| QueueEvents.Queue.GenericSendFromISR | FreeRTOS/Source/queue.c:1058-1204 | xQueueGenericSendFromISR is the interrupt step: an item that has room or overwrites is counted, and wakes the first receiver of an unlocked queue or adds to the lock count, from 127 to -128. |
| QueueEvents.Queue.GenericReceiveFromISR | FreeRTOS/Source/queue.c:1550-1634 | xQueueReceiveFromISR is the interrupt step, the same for senders. |
| QueueCalls.NoBlockTimeNeverWaits | FreeRTOS/Source/queue.c:613-1548 | In every run from a new queue, whatever the others do, a task all of whose calls have no block time is never in a waiting list, never suspends the scheduler and never blocks. |
| QueueCalls.NeverWaits | FreeRTOS/Source/queue.c:613-1548 | The same from any state in which it is in no call or about to look at the queue. |
| QueueCalls.GivesUp | FreeRTOS/Source/queue.c:798-807 | A call whose time has run out joins no waiting list in any continuation of the run, and is over three steps of its own later. |
| QueueCalls.LooksAgain | FreeRTOS/Source/queue.c:790-796 | A call that finds something to receive, or room, under the lock is back at the top of its loop three steps of its own later. |
| QueueCalls.TimesOut | FreeRTOS/Source/tasks.c:1968-2045 | A waiter that times out leaves its list, the order of the others stays, and it looks at the queue again. |
| TimerLists.PlaceIsExact | FreeRTOS/Source/timers.c:544-582 | For a command given at true time C and processed at N: expired exactly if C + P <= N, otherwise the current list exactly if C + P is in N's epoch and the overflow list if in the next; this holds if and only if N < C + 2^16 or (N - C) mod 2^16 >= P. |
| TimerLists.PlaceSoon | FreeRTOS/Source/timers.c:544-582 | The half that needs both wraps: less than 2^16 ticks after the command every placement is right. |
| TimerLists.PlaceLate | FreeRTOS/Source/timers.c:544-582 | Later than that, when every timer has expired, the code says so exactly if (N - C) mod 2^16 >= P. |
| TimerLists.PlaceSlips | FreeRTOS/Source/timers.c:544-582 | Whatever its timing, a command is placed exactly as one given a multiple of 2^16 ticks later, and that one is in time; the delay is 0 exactly for a command in time. |
| TimerLists.SlipFacts | FreeRTOS/Source/timers.c:544-582 | That delay: 0 for a command in time, and otherwise at least 2^16 ticks and such that the expiry is still to come. |
| TimerLists.CallsAreFloor | FreeRTOS/Source/timers.c:378-415 | Callbacks for C + P, C + 2P, ... with none overdue number the floor of the elapsed time over the period. |
| TimerLists.PopAll | FreeRTOS/Source/timers.c:592-644 | A queued command for a timer that is followed is the one that restarts it from its last expiry; taking it out keeps all others in place. |
| TimerLists.NextExpiry | FreeRTOS/Source/timers.c:495-518 | No followed timer expires before the head of the current list, or before the next epoch if that is empty. |
| TimerLists.ExchangeAll | FreeRTOS/Source/timers.c:711-767 | Exchanging the lists at the wrap keeps the true expiry time of every timer. |
| TimerLists.SlackFalls | FreeRTOS/Source/timers.c:711-767 | Reloading a timer within the old epoch makes progress: the switching loop ends. |
| Timers.TimerDaemon.constructor | FreeRTOS/Source/timers.c:770-805 | No timers, empty lists and queue, at time 0. |
| Timers.TimerDaemon.CreateTimer | FreeRTOS/Source/timers.c:275-313 | A timer without a period is refused; any other is dormant, and followed by nothing yet. |
| Timers.TimerDaemon.UserCommand | FreeRTOS/Source/timers.c:316-367 | The command is queued exactly if there is room, and only then its timer is no longer followed; nothing else changes. |
| Timers.TimerDaemon.InsertTimerInActiveList | FreeRTOS/Source/timers.c:544-582 | For a command of true time C at true time N: reported expired exactly if C + P <= N and the command is in time; otherwise in the current list exactly if C + P, put off as in PlaceSlips, is in N's epoch, and in the overflow list if not. |
| Timers.TimerDaemon.InsertOrExpire | FreeRTOS/Source/timers.c:544-582 | A timer restarted from C is in a list with true expiry C + P, or reported expired, exactly as C + P lies after or not after now. |
| Timers.TimerDaemon.TakeExpired | FreeRTOS/Source/timers.c:378-415 | The head leaves the list only when its true time has come; if it is followed, this is its next callback and the true time is the next multiple. |
| Timers.TimerDaemon.Restart | FreeRTOS/Source/timers.c:729-761 | The reload in prvSwitchTimerLists: back into the old list if the next expiry is in the old epoch, otherwise a command to restart. |
| Timers.TimerDaemon.ExpireHead | FreeRTOS/Source/timers.c:718-761 | One turn of the switching loop: exactly one callback, for the head, counted to its next multiple from the same start; a one-shot timer is nowhere afterwards, and an auto-reload timer is back in the list or has been called for all its multiples before the new epoch; the loop's measure falls. |
| Timers.TimerDaemon.SwitchTimerLists | FreeRTOS/Source/timers.c:711-767 | Every timer of the old list gets a callback; each followed one gets one for every multiple before the new epoch, from the same start, before the lists change roles. |
| Timers.TimerDaemon.ExpireEpoch | FreeRTOS/Source/timers.c:718-762 | The loop of it: the list is empty at the end, with every multiple in the old epoch called for. |
| Timers.TimerDaemon.SampleTimeNow | FreeRTOS/Source/timers.c:521-541 | With less than 2^16 ticks since the last look, a wrap is noticed exactly if there was one; all followed timers keep their starts. |
| Timers.TimerDaemon.ProcessExpiredTimer | FreeRTOS/Source/timers.c:378-415 | Exactly one callback, for the head, counted to its next multiple from the same start. A one-shot timer is in no list afterwards and no command is queued; an auto-reload timer is in a list until the next multiple, or, if that has come too, its restart is queued if there is room. |
| Timers.TimerDaemon.ReloadHead | FreeRTOS/Source/timers.c:378-411 | The part before the callback: the head leaves the list and is reloaded exactly if it is an auto-reload timer, followed or not. |
| Timers.TimerDaemon.ProcessTimerOrBlock | FreeRTOS/Source/timers.c:442-492 | Blocks exactly if there was no wrap and the head is not due; otherwise makes the callbacks due. Every followed timer keeps its start C; with no commands left at a block an auto-reload timer has had exactly floor((now - C) / P) callbacks, a one-shot timer one exactly if C + P has come, and no timer is due before the block time ends. |
| TimerRuns.NothingOverdue | FreeRTOS/Source/timers.c:442-492 | What blocking means for one followed timer. |
| Timers.TimerDaemon.StartTimer | FreeRTOS/Source/timers.c:646-674 | A start or reset in time: callback at once exactly if C + P <= now, otherwise in a list until C + P; every timer keeps its start. |
| Timers.TimerDaemon.HandleStart | FreeRTOS/Source/timers.c:646-674 | The start command as a whole, for any stamp C <= now: exactly the start of a command of the time it is taken for, and a timer already followed is put off by that much. |
| Timers.TimerDaemon.HandleStop | FreeRTOS/Source/timers.c:676-680 | The timer is in no list, without a callback. |
| Timers.TimerDaemon.HandleChange | FreeRTOS/Source/timers.c:682-694 | The new period counts from now, and the timer is followed from now. |
| Timers.TimerDaemon.ExpireAtOnce | FreeRTOS/Source/timers.c:653-669 | The late timer gets its callback, counted from its start, and, if auto-reload, a restart from C + P is queued. |
| Timers.TimerDaemon.SetPeriod | FreeRTOS/Source/timers.c:682-694 | The new period counts from now. |
| Timers.TimerDaemon.ProcessCommand | FreeRTOS/Source/timers.c:585-708 | One command, whatever its timing: exactly its own callback, list, expiry and period change, for one-shot timers too; every followed timer keeps its count and its start, except one whose own restart is late, which is put off by exactly the slip; a started one is followed from C plus the slip. |
| TimerRuns.StepKeeps | FreeRTOS/Source/timers.c:418-708 | A step that neither fills the queue nor is a new command for a timer leaves it followed with the same period and, unless it serves a start of it late, from the same start; if it does, from a start later by exactly the slip. |
| TimerRuns.FollowedThroughout | FreeRTOS/Source/timers.c:418-708 | Over every run of such steps the start moves by the sum of the slips and by nothing else. |
| TimerRuns.SlipsWhenLate | FreeRTOS/Source/timers.c:544-708 | That sum is 0 exactly if no start of the timer was served late, and otherwise at least 2^16 ticks. |
| TimerRuns.EveryPeriod | FreeRTOS/Source/timers.c:418-708 | Over every run of looks at the clock, commands served, and commands and timers of other tasks, in any order, an undisturbed auto-reload timer started at C has had its n-th callback not before C + nP; at every block with no commands left it has had floor((now - C - S) / P), S being the sum of the slips so far, and that is floor((now - C) / P), none skipped, if and only if no start of it was served late. |
| TimerRuns.FromTheStart | FreeRTOS/Source/timers.c:418-708 | The same counted from a start command stamped C, whose own service may be late too. |
| TimerRuns.OnlyOnce | FreeRTOS/Source/timers.c:378-708 | Over every run an undisturbed one-shot timer is called at most once, and not before C + P; at every block with no commands left it has been called exactly if C + S + P has come, S being the slip of its start. |
| TimerRuns.OnceFromTheStart | FreeRTOS/Source/timers.c:378-708 | The same counted from a start command stamped C: it has been called for C + P if and only if that start was not served late, or C + S + P has come too. |
| TimerRuns.LateRun | FreeRTOS/Source/timers.c:418-708 | A run from a new daemon, all looks and services less than 2^16 ticks apart, whose start command is served late: at a block with no commands left the timer has had none of the 6554 callbacks due. |
| TimerRuns.StartComposes | FreeRTOS/Source/timers.c:592-674 | Taking the timer out, reading the clock and restarting it come to the start command as a whole. |
| EventGroups.ExactlyTheSatisfied | FreeRTOS/Source/event_groups.c:480-571 | Released are exactly the waiters satisfied by the bits, left are exactly the others, none lost or doubled. |
| EventGroups.TestIsBitwise | FreeRTOS/Source/event_groups.c:613-645 | prvTestWaitCondition on masks means: every awaited bit is set, or some awaited bit is. |
| EventGroups.SatisfiedBitwise | FreeRTOS/Source/event_groups.c:498-541 | What a waiter's item value asks for, bit by bit: all of its event bits if bit 0x0400 is set, one of them if not, to be cleared if 0x0100 is. |
| EventGroups.BitsAfterSet | FreeRTOS/Source/event_groups.c:496-571 | Each bit after a set: set before or given, and of no released waiter that clears on exit. |
| EventBits.BitsTell | FreeRTOS/Source/event_groups.c:613-645 | Nothing but its eight bits tells two values of event bits apart. |
| EventGroups.OrderIrrelevant | FreeRTOS/Source/event_groups.c:480-571 | The bits cleared and the waiters released and left are the same for every order of the list, despite clear-on-exit. |
| EventGroups.QuietAfterSet | FreeRTOS/Source/event_groups.c:480-571 | After clearing no waiter left behind is satisfied. |
| EventGroups.QuietAfterClear | FreeRTOS/Source/event_groups.c:422-446 | Clearing bits satisfies nobody. |
| EventGroups.ItemReadBack | FreeRTOS/Source/event_groups.c:328-349 | The bits and both options packed into the item value are read back unchanged. |
| EventGroups.ReleasedGetsBits | FreeRTOS/Source/event_groups.c:550-555 | The released task finds the mark and, with control bits stripped, the bits at the time of the set. |
| EventGroups.EachReleasedReads | FreeRTOS/Source/event_groups.c:550-555 | That holds of each of them, in order. |
| EventGroups.WalkOn | FreeRTOS/Source/event_groups.c:506-562 | One step of the walk over the shrinking list treats exactly the next waiter. |
| EventGroups.EventGroup.SetBits | FreeRTOS/Source/event_groups.c:480-571 | The whole operation: released, left and cleared as stated above for old bits plus new bits, and no satisfied waiter blocked afterwards. Bit by bit: set are the bits that were or are given, less those of the released waiters that clear on exit. |
| EventGroups.EventGroup.WaitBits | FreeRTOS/Source/event_groups.c:274-369 | Returns at once exactly if there is no wait, or all awaited bits are set, or, if any one will do, some awaited bit is; clears on exit only in these cases; otherwise the task is added to the waiters. |
| EventGroups.EventGroup.AfterBlocking | FreeRTOS/Source/event_groups.c:371-419 | A task that was released returns the bits that released it; one that still has the item value it waited with returns the current bits, and clears its own exactly if the condition holds now and it asked for that. |
| EventGroups.EventGroup.Sync | FreeRTOS/Source/event_groups.c:158-271 | Sets the bits, then returns with the rendezvous bits cleared exactly if each of them was set or is given, else as without a wait or as a new waiter. |
| EventGroups.EventGroup.ClearBits | FreeRTOS/Source/event_groups.c:422-446 | Returns the old bits and clears the given ones, bit by bit; the invariant holds. |
| EventGroups.EventGroup.TakeOff | FreeRTOS/Source/tasks.c:1968-2045 | A timeout that removes a waiter keeps the invariant. |
| Connections.Pigeonhole | libscp/src/csp_conn.c:362-388 | Open client connections use at most as many ports as there are connections. |
| Connections.Covers | libscp/src/csp_conn.c:198-234 | The cyclic search of csp_conn_allocate comes past every entry. |
| Connections.ConnectedEntry | libscp/src/csp_conn.c:356-388 | A connection opened on a port no open connection uses keeps the ports of connected entries pairwise distinct. |
| Connections.ConnectionPool.constructor | libscp/src/csp_conn.c:116-157 | All entries closed, and the first port an ephemeral one for every random number. |
| Connections.ConnectionPool.Find | libscp/src/csp_conn.c:159-173 | An entry is found exactly if an open client connection uses the port. |
| Connections.ConnectionPool.FindPort | libscp/src/csp_conn.c:356-388 | The search for a port always succeeds, within CSP_CONN_MAX + 1 probes, at a port other than the last that no open client connection uses, and all ports passed on the way are in use. |
| Connections.OffsetSteps | libscp/src/csp_conn.c:356-388 | The way goes one port on at each step, and from the last to the first. |
| Connections.ConnectionPool.Allocate | libscp/src/csp_conn.c:198-234 | The first closed entry after the last one given, cyclically, or none exactly if all are open. |
| Connections.ConnectionPool.Socket | libscp/src/csp_io.c:138-141 | Opens one closed entry for listening, or none exactly if all are open; the ports the search avoids stay the same. |
| Connections.ConnectionPool.New | libscp/src/csp_conn.c:236-254 | A connection for an incoming packet opens one closed entry and changes no other. |
| Connections.ConnectionPool.Connect | libscp/src/csp_conn.c:355-408 | With both locks it fails only if all entries are open; otherwise one closed entry is opened on a free ephemeral port, and connected entries keep pairwise distinct ports. |
| Connections.ConnectionPool.Close | libscp/src/csp_conn.c:256-297 | Closes that entry only, or nothing if the lock times out; the ports stay distinct. |

## Left out

General

- Hardware, assembly and the application: context save and restore, interrupts as such, TWI, USART, ADC, SPI transfers, delays, printing, tracing and statistics. The FFT memory is an array of complex cells.
- Failure of memory allocation, and freeing: queues, timers, tasks and event groups are created successfully, except where the source refuses the arguments.
- A task's control block is modelled by maps from tasks to field values, and the scheduler's lists by rings; that the pointer operations of `list.c` are the ring operations is proved on the heap in `LinkedList`.
- Lists of 256 items or more, for which the 8-bit item count makes a list look empty (`LinkedList.List.IsEmpty`): the scheduler, queues and timers test for emptiness itself.

Scheduler

- vTaskPrioritySet, vTaskNotify and the other notification calls, xTaskResumeFromISR, vTaskPlaceOnEventListRestricted, tickless idle, and the time before the scheduler is started.
- Yields: a method says when one is asked for, `Kernel.Kernel.SwitchContext` is the switch, and the time between them is not modelled.
- Suspending the scheduler more than 255 deep, where the 8-bit count wraps.
- Suspending or deleting the idle task, which the kernel relies on never happening.
- The order of event lists while priority inheritance changes the item value of a waiting holder, and transitive inheritance: the code promises neither.
- KernelRuns.DelayAndWait: a call that cannot be made in the state at hand, such as giving a mutex of another task, is passed over.
- Kernel.Kernel.Delay: a delay of 0, which only yields, and the calls of vTaskSuspendAll and xTaskResumeAll around the body, which are `SuspendAll` and `ResumeAll`.
- Kernel.Kernel.DelayUntil: nothing is claimed about the decision when the previous wake time is 2^16 ticks or more ago, which 16 bits cannot tell apart.
- Kernel.Kernel.GiveMutex: only the running task gives a mutex it holds, as the source asserts.
- TimeOuts.OneDeadline: the loop is that of a queue call reduced to its checks; one turn of it with the block between two checks is `BlockingCalls.CheckAndBlock`.
- KernelRuns.BlockOnEventAndWait: a timeout of portMAX_DELAY, which is no timeout (`Kernel.Kernel.PlaceOnEventList`).

Queues

- Recursive mutexes, counting semaphores, queue sets, the alternative API, the registry and vQueueWaitForMessageRestricted, the block of the timer daemon.
- QueueStorage.Queue.Send: queueOVERWRITE on a queue longer than one, against which the source has only an assertion, and that is configured off.
- QueueLock.RunKeeps: runs in which the 8-bit lock counts do not wrap (see `QueueWraps.ReceiversAfterWindow` for the others), and in which no woken task is deleted or suspended before it looks at the queue again.
- QueueLock.NoLostWakeUp: the part about senders is for runs without xQueueGenericReset, for which it is false (`QueueWraps.ResetStrandsSenders`), and in which the count of items of size 0 does not come round to 0 (`QueueWraps.CountWrapStrandsSender`).
- The place a waiter takes in a waiting list is a parameter of the step, so the claims hold for every order by priority; which waiter is first is `Kernel.Kernel.RemoveFromEventList`.

Timers

- Timers.TimerDaemon.ProcessCommand: one turn of the command loop, at a time given to it; any number of turns, mixed with the rest in any order, is a run of `TimerRuns`.
- TimerRuns.EveryPeriod: the timer is undisturbed, which means that the queue is not full after any step and no other task sends a command for it; looks at the clock and commands served are less than 2^16 ticks after the last look.
- Timers.TimerDaemon.Restart: when the command queue is full the reload is lost, as in the source, where an assertion that is configured off would stop it; the timer is then no longer followed.
- TimerRuns.OnlyOnce: undisturbed and with looks as for `TimerRuns.EveryPeriod`.
- Deleting a timer, the bodies of callbacks and of pended functions, and commands issued from within a callback are not modelled.
- A command's stamp is taken from the same clock the daemon reads; the time between stamping and queueing is not modelled.

Event groups

- xEventGroupDelete, the calls from interrupts, which are deferred to the timer daemon, and the value xEventGroupSetBits returns, which is read after other tasks may have run.
- Waiting for or setting control bits, against which the source has only assertions, and those are configured off.

FFT

- Floating-point rounding and the six-digit values of the sine table: `FftMemory.FftCalculate` assumes a table of exact values.
- The 16-bit width of the loop variables, which 512 points do not exhaust.

CSP

- Crc32.CspCrc32Append: the packet has room for four more bytes, which the source takes for granted; the little-endian host is that of the AVR.
- Sfp.Transfer: the fragments of one transfer and packets without the fragment flag come in; fragments of several transfers mixed are not covered, as nothing in a fragment tells them apart.
- Sfp.CspSfpRecv: every packet received has a header and fits the buffer, which the source does not check; the buffer is one allocated for the first packet's total size.
- Sfp.CspSfpSend: mtu 0, for which the source never ends. The buffer pool and the link are the parameter `budget`, packets sent before one of them gives out.
- RDP, HMAC, XTEA and connection options, the receive queues, and failure to create semaphores or queues. Locks are parameters that say whether they were obtained.
- Connections.ConnectionPool.Connect: one call at a time; two calls that interleave between the search for a port and the allocation may choose one port. Connections accepted by the router (`New`) may use any port.
- `csp_route.c`, `csp_buffer.c` and `heap_1.c`: they would only add easier invariants.

# Verified models of the Quasar board support drivers

A Dafny model of the interrupt-driven drivers in `bsp/quasar-u535`: the byte queue shared by the UART and I2C drivers,
the I2C interrupt engine that interprets it, the UART driver with its critical sections, the SPI transfers, the
scheduler timer and the flash driver. Where thread code, interrupt handlers and hardware interleave, the hardware is an
explicit nondeterministic step relation and theorems quantify over every run; where the C code loops over arrays and
registers, a class with the same loops is proved against a specification. Nothing was executed.

`dafny verify dfyconfig.toml` checks everything.

| file | contents |
|---|---|
| Words.dfy, Ring.dfy | bytes, words, byte orders; ring-buffer index arithmetic |
| Fifo.dfy | the queue and its word round trip |
| Critical.dfy | nested critical sections, statement by statement, under preemption |
| I2cBus.dfy | I2C controller registers, events, and what one addressed segment looks like on the bus |
| I2cEngine.dfy | the interrupt engine, its framing invariant and the theorem EngineRun |
| I2cCalls.dfy | the calls statement by statement, entered while no transfer runs, and sessions of them |
| I2cDecode.dfy | the engine on any queue contents: what they decode to |
| I2cOverlap.dfy | calls entered while a transfer runs, up to the header they pull, and what special headers lead to |
| I2cHeaders.dfy, I2cBusFacts.dfy, I2cPull.dfy | headers pulled in the wrong place; bus facts that need no framing; where a launch leads, by the place of its pull |
| I2cLaunch.dfy | when an overlapping call leaves the bus as intended |
| I2cDriver.dfy | the I2C code itself: handler, interrupt-driven calls, polling calls |
| UartModel.dfy | UART calls, handler and hardware at statement level |
| UartDriver.dfy | the UART code itself, and its agreement with UartModel |
| SpiBlocking.dfy, SpiDma.dfy | the polling and the DMA transfer |
| Timer.dfy, Flash.dfy | timer set-up and interrupt; flash write, erase, read |

How the parts fit: `I2cDriver.I2c.HandlerRoutine`, `Write` and `Read` show that the code makes runs of the handler model
in I2cEngine and of the call model in I2cCalls; `I2cEngine.EngineRun`, `I2cCalls.QuietCall`, `I2cCalls.SessionTheorem` and
the lemmas of I2cOverlap and I2cLaunch say what such runs put on the bus; `WriteBlocking` and `ReadBlocking` reach the same
`I2cCalls.Shape` by polling, so both paths refine one bus specification (UM10204 sections 3.1.4 and 3.1.10).
`UartDriver` relates in the same way to `UartModel`, and `SpiDma.Port` to the interleavings above it.

## Findings

What the code does where it differs from what one would expect, or from its own comments:

- `quasar_fifo_push_bytes` refuses a batch that would exactly fill the queue (`>=`), while `quasar_fifo_push` fills it.
  Its header comment says that it fails if the buffer is full.
- The I2C calls ignore push results: a frame that does not fit is queued torn (`I2cCalls.FrameQueuedIffFits`).
- A call entered while no transfer runs gives up cleanly or launches every queued frame (`I2cCalls.QuietCall`). Entered
  during a transfer, with its frame in the queue, it may come to its pull at any point of that transfer
  (`I2cOverlap.OverlappingCall`). If the handler serves no TC between pull and START, the bus is in the end as intended
  exactly in these cases (`I2cLaunch.LaunchIff`, `StepForms`). The segment on the bus has taken all its bytes and
  another one is queued: the call then does what the handler would have done at TC (`PullInTime`). Or the bytes pulled
  happen to address the next segment and the bytes behind them to repeat what the segment on the bus still needs, as
  when 0 and 2 are being written and the next write goes to address 2 (`EchoCall`); if the START of that segment was
  pending at the pull, the bytes must address this segment too, and its START be out before the call's. Or they are the
  pointer of a read, and that happens to address the next segment, or the read itself if its START was pending and
  nothing follows.
- Otherwise such a call is too late: the transfer has taken its frame along, and it loads an empty header, START to
  address 0 (`EmptyCall`); or, a read, whose frame is pushed in two critical sections, was split when the transfer
  ended between them, and it launches the read half alone (`ChainsIff`, `SplitCall`). Or it is too early, and its
  header is made of bytes that the segment on the bus still needs (`EarlyOutcome`, `TornHeader`, `TornCall`).
- If the handler serves TC between pull and START, the header pulled is lost, also when it was pulled in time: the
  handler takes the bytes behind it for a header (`I2cLaunch.TcFirst`). The pull is in a critical section, START is
  not, so with interrupts enabled a TC that is up during the pull is served before START.
- `i2c_wait_for_flag` fails at read number `timeout` even when that read matches, so a timeout of 0 or 1 never
  succeeds.
- `retry_count + 500` is passed as 16 bits: it is the sum exactly for retry counts up to 65035
  (`I2cDriver.RetriesWrapIff`).
- A burst write of 255 bytes programs NBYTES 0 and can only time out (`I2cDriver.I2c.WriteBurstBlocking`).
- A polling call that times out inside its transfer requests no STOP. Once its START is out the bus stays held and
  every later call ends in a BUSY timeout (`I2cDriver.HeldStays` and the contracts of the calls). After the first wait
  the START may still be pending; then BUSY reads 0. If it is still pending when the next call, past its wait for BUSY,
  sets START, the call is on the bus with its own header in its place; otherwise that START has gone out before, with
  the old header or with the call's own (`OwnStart` in the contracts of the calls).
- The UART handler can return with ORE set by a byte that overruns after its read of ISR
  (`UartModel.LateOverrunStays`); the next entry clears it (`UartModel.NextEntryClears`).
- `quasar_timer_set_period` with period 1 stops the timer, with period 0 it gives the longest period.
- `quasar_memory_write` keeps the size in 16 bits: a longer buffer is cut to its size modulo 65536 and success is
  reported all the same (`Flash.WholeBufferIff`). A write that fails after the first quadword leaves those written.
- A zero returned by `quasar_uart_receive_irq` may be a received zero or an empty queue.

## Model

| member | source | states |
|---|---|---|
| Words.QueuedValue | bsp/quasar-u535/quasar_fifo.c:42-55 | the four bytes of a word, in the order in which the queue carries them, spell the word most significant byte first |
| Words.QueuedInjective | bsp/quasar-u535/quasar_fifo.c:42-55 | no two words have the same four queued bytes |
| Words.FieldsDoNotOverlap | bsp/quasar-u535/quasar_i2c.c:153-154 | on bit-vectors, the shift-mask-or expression that builds CR2 is the sum of its fields and drops the ninth bit of the count |
| Words.BytesDoNotOverlap | bsp/quasar-u535/quasar_fifo.c:117 | on bit-vectors, or-ing the next byte into the word under assembly is adding it |
| Ring.WindowAppend | bsp/quasar-u535/quasar_fifo.c:33-37 | a store at the write index leaves the queued bytes alone and shows up as the newest one, across wrap-around |
| Ring.WindowDrop | bsp/quasar-u535/quasar_fifo.c:64-68 | the byte at the read index is the oldest one, and moving the read index drops exactly it |
| Fifo.Fifo.Init | bsp/quasar-u535/quasar_fifo.c:18-23 | the queue is empty and well formed from any previous contents |
| Fifo.Fifo.Push | bsp/quasar-u535/quasar_fifo.c:25-40 | refuses exactly when 4096 bytes are queued and then changes nothing; otherwise the byte is queued last |
| Fifo.Fifo.PushBytes | bsp/quasar-u535/quasar_fifo.c:42-55 | all or nothing, refused exactly when count + size >= 4096; otherwise the batch is queued last element first |
| Fifo.Fifo.Pull | bsp/quasar-u535/quasar_fifo.c:57-71 | hands over the oldest byte; an empty queue reports so and leaves the caller's byte alone |
| Fifo.Fifo.PullBytes | bsp/quasar-u535/quasar_fifo.c:73-121 | more than 8 bytes is an error without effect; otherwise n bytes leave the queue, assembled most significant first, a missing byte being the last one pulled |
| Fifo.Fifo.GetCount | bsp/quasar-u535/quasar_fifo.c:123-126 | the number of queued bytes |
| Fifo.AssembledIsBigEndian | bsp/quasar-u535/quasar_fifo.c:111-118 | with n bytes queued, n pulls assemble their big-endian value |
| Fifo.AssembledBound | bsp/quasar-u535/quasar_fifo.c:105-120 | eight pulled bytes fit 64 bits, four fit a register |
| Fifo.WordRoundTrip | bsp/quasar-u535/quasar_fifo.c:42-121 | a queued word comes back unchanged once it is at the head, whatever is queued behind it |
| Fifo.ShortPullRepeats | bsp/quasar-u535/quasar_fifo.c:111-118 | with too few bytes queued the missing ones are copies of the last byte pulled, zero on an empty queue |
| Critical.Interrupts.EnterCritical | bsp/quasar-u535/quasar_it.c:231-238 | one more open section; PRIMASK set by the outermost one |
| Critical.Interrupts.ExitCritical | bsp/quasar-u535/quasar_it.c:240-247 | one open section fewer; PRIMASK cleared by the outermost one; an unbalanced exit wraps the counter |
| Critical.StepKeepsInv | bsp/quasar-u535/quasar_it.c:231-247 | every statement of the two calls, every interrupt where PRIMASK is clear and every handler return keeps the nesting invariant |
| Critical.NestingIsSafe | bsp/quasar-u535/quasar_it.c:231-247 | for well-bracketed sections in thread and handlers at any preemption point: the counter is the number of open sections, an open section has interrupts masked, counter updates happen under the mask, and PRIMASK is clear again after the outermost exit |
| I2cBus.Cr2Fields | bsp/quasar-u535/quasar_i2c.c:153-154 | the CR2 word the driver builds addresses the device, in the right direction, for count modulo 256 bytes, and requests neither START nor STOP |
| I2cBus.SegmentStable | bsp/quasar-u535/quasar_i2c.c:718-720 | whatever the controller does next inside a transfer, no raised flag falls and bytes stay in order, so the status the handler has read stays true until it acts |
| I2cEngine.FrameIsStream | bsp/quasar-u535/quasar_i2c.c:150-242 | the bytes a call queues are the headers and payloads of its bus segments, whatever is queued behind |
| I2cEngine.LoadKeeps | bsp/quasar-u535/quasar_i2c.c:758-762 | TXIS: the byte pulled belongs to the segment on the bus, and framing is kept |
| I2cEngine.StoreKeeps | bsp/quasar-u535/quasar_i2c.c:765-773 | RXNE: the four bytes pulled are the pointer of the read on the bus, and framing is kept |
| I2cEngine.StopKeeps | bsp/quasar-u535/quasar_i2c.c:745-749 | TC with an empty queue ends the run with everything done |
| I2cEngine.ChainKeeps | bsp/quasar-u535/quasar_i2c.c:749-754 | TC with a non-empty queue: the four bytes pulled are the header of the next segment, opened by a repeated START |
| I2cEngine.BodyKeeps | bsp/quasar-u535/quasar_i2c.c:720-778 | whichever flags the handler latched, TC and RXNE together or one after the other, its body keeps the framing and comes nearer to the end |
| I2cEngine.StepKeeps | bsp/quasar-u535/quasar_i2c.c:710-779 | every hardware event and every handler step keeps the framing invariant and lowers the distance to the end |
| I2cEngine.StuckMeansEnded | bsp/quasar-u535/quasar_i2c.c:710-779 | a run in which nothing can happen any more has finished: no wait for an event that cannot come |
| I2cEngine.NothingBeyondGoal | bsp/quasar-u535/quasar_i2c.c:710-779 | at every moment the bus shows a prefix of the intended transactions |
| I2cEngine.PlanRun | bsp/quasar-u535/quasar_i2c.c:710-779 | the same for every plan of bus segments, not only those of register transactions: bounded run, prefix of the trace throughout, plan carried out at the end |
| I2cEngine.EngineRun | bsp/quasar-u535/quasar_i2c.c:710-779 | for every list of whole frames and every order of events: the bus is the transactions in order joined by repeated STARTs with one STOP, each read byte is at its own pointer, the queue ends empty, the bus ends free, within a bounded number of steps |
| I2cCalls.FrameQueuedIffFits | bsp/quasar-u535/quasar_i2c.c:160-242 | the unchecked pushes of a call leave its whole frame exactly when it fits, and a torn one otherwise |
| I2cCalls.QuietCall | bsp/quasar-u535/quasar_i2c.c:127-256 | a call entered while no transfer runs, in every interleaving: it gives up with its frame queued and nothing else changed, or launches every queued frame, its own last |
| I2cCalls.SessionTheorem | bsp/quasar-u535/quasar_i2c.c:127-463 | any session of calls entered while no transfer runs, interrupt-driven and polling, some giving up on BUSY: the transactions are on the bus in order, reads are delivered, frames of calls that gave up go out with the next launch, the bus ends free or with only its STOP outstanding |
| I2cCalls.TwinsAgree | bsp/quasar-u535/quasar_i2c.c:127-353 | from idle, the interrupt-driven call and its polling twin put the same trace on the bus, hear the same bytes and leave the same memory and an empty queue |
| I2cOverlap.LaunchedRuns | bsp/quasar-u535/quasar_i2c.c:710-779 | after any engine steps a launched transfer is either in a running state of whole frames or done: the states in which an overlapping call can be entered |
| I2cOverlap.QueueWhileRunning | bsp/quasar-u535/quasar_i2c.c:160-242 | segments queued during a transfer, a whole frame or half of one, are chained behind it and the run heads for the longer goal |
| I2cOverlap.OverlappingCall | bsp/quasar-u535/quasar_i2c.c:127-256 | a call entered during a transfer, in every interleaving: once pushed, its frame is chained, or has been carried out with the transfer and the queue is empty, or, a read only, has been split |
| I2cOverlap.ChainsIff | bsp/quasar-u535/quasar_i2c.c:218-242 | a read entered during a transfer is chained if and only if its second critical section runs before the handler has ended the transfer at the TC of its register half; otherwise its read half is left in the queue |
| I2cOverlap.Misaligned | bsp/quasar-u535/quasar_i2c.c:150-242 | the bytes a transfer under way leaves in front of whole frames never make whole frames with them |
| I2cOverlap.BoundaryIff | bsp/quasar-u535/quasar_i2c.c:245-251 | during a transfer the queue front is a whole frame if and only if the segment on the bus has moved all its bytes, no read half is due and a frame is behind it |
| I2cOverlap.PullIff | bsp/quasar-u535/quasar_i2c.c:245-251 | for every entry state, transaction and interleaving: the call comes to its pull with a free bus and whole frames at the queue front if and only if no transfer was running when it was entered |
| I2cOverlap.FrontIff | bsp/quasar-u535/quasar_i2c.c:245-251 | for every entry state, transaction and interleaving, transfers running or not: at the pull the queue starts with a whole frame if and only if no transfer was running at entry, or one stands at the end of a transaction then |
| I2cOverlap.EmptyCall | bsp/quasar-u535/quasar_i2c.c:249-255 | with an empty queue the call puts a START to address 0 and a STOP on the bus, in every run |
| I2cOverlap.SplitCall | bsp/quasar-u535/quasar_i2c.c:249-255 | with a split read it puts a one-byte read without register address on the bus, its byte stored at the pointer, in every run |
| I2cOverlap.TornHeader | bsp/quasar-u535/quasar_i2c.c:245-251 | for every transfer whose START is still pending: the header pulled asks for as many bytes as the pending write's value from address 1 or 2, or, a read pending, for none from address 0x104 |
| I2cOverlap.TornCall | bsp/quasar-u535/quasar_i2c.c:245-255 | such a call, in every run: the bus next shows START with that header and as many of the following queued bytes, zeros where the queue ends |
| I2cDecode.QueueRun | bsp/quasar-u535/quasar_i2c.c:710-779 | for any header in CR2 and any queue contents, whole frames or not, in every order of events: from START on the run is bounded, shows a prefix of what header and queue decode to, and ends with exactly that on the bus and in memory, the queue empty and the bus free |
| I2cDecode.HeadingRun | bsp/quasar-u535/quasar_i2c.c:710-779 | the same from any moment of such a run, also with another START requested inside a segment, or START and STOP together |
| I2cDecode.FramesDecode | bsp/quasar-u535/quasar_i2c.c:150-242 | what the calls queue decodes to their transactions and a STOP: bus, memory and bytes received |
| I2cHeaders.SwallowedIff | bsp/quasar-u535/quasar_i2c.c:749-754 | when the header of a segment is missing from the queue and the bytes behind it are taken for one, the bus is wrong in the end, whatever transactions are queued, unless the segment is a read that nothing follows and whose pointer addresses it |
| I2cHeaders.EchoIff | bsp/quasar-u535/quasar_i2c.c:245-255 | when four bytes are pulled inside a sending segment and START is requested: the bus is right in the end if and only if they address the next segment and the bytes behind them repeat those still needed |
| I2cBusFacts.PaidStep | bsp/quasar-u535/quasar_i2c.c:710-779 | what the bus has cost in queue bytes, with what is pending and what is queued, never falls, framed or not, and only a run that has emptied the queue comes to rest |
| I2cLaunch.LaunchIff | bsp/quasar-u535/quasar_i2c.c:245-255 | for every call entered during a transfer, every interleaving up to the pull and every one from there to START in which the handler serves no TC: some run ends with exactly the running transfer and the call's own transaction on the bus if and only if the call is timely, which is decided by the queue at the pull and the bus at START |
| I2cLaunch.LaunchRuns | bsp/quasar-u535/quasar_i2c.c:245-255 | in step, and unless a pointer was pulled, every run leads there, in bounded steps, with every byte read at its pointer and the queue empty |
| I2cLaunch.StepForms | bsp/quasar-u535/quasar_i2c.c:245-251 | being in step comes to: all bytes of the segment moved; or a write of 0 and k, none moved, before k bytes for address k; or a read whose pointer addresses the next segment |
| I2cLaunch.EarlyOutcome | bsp/quasar-u535/quasar_i2c.c:245-255 | what any call puts on the bus that pulls inside a sending segment or while its START is pending, in every run: the queue decoded from its fifth byte on, with the header pulled where the call's START goes out |
| I2cLaunch.TcFirst | bsp/quasar-u535/quasar_i2c.c:249-255 | a call overtaken by the handler, which serves TC between pull and START and whose own START is still pending then: what every run shows, and that it is the intended bus if and only if a read is all that is left and its pointer addresses it |
| I2cLaunch.PullInTime | bsp/quasar-u535/quasar_i2c.c:127-180 | a pull on a boundary exists: a write called while the START of another write is pending reads BUSY as 0 and pulls when that write's last byte has just left the queue, its own frame being all that is left |
| I2cLaunch.EchoCall | bsp/quasar-u535/quasar_i2c.c:127-180 | so does an echo: with 0 and 2 still to be written, a write to address 2 pulls bytes that are its header, and the bus ends as intended |
| I2cDriver.I2c.HandlerRoutine | bsp/quasar-u535/quasar_i2c.c:710-779 | one entry, with the controller acting between its read of ISR and the rest, is a run of the engine that the theorems are about |
| I2cDriver.I2c.WaitForFlag | bsp/quasar-u535/quasar_i2c.c:663-678 | succeeds exactly when one of the first timeout - 1 reads matches, and stops there; otherwise uses all reads, and a match at the last one still fails; handler and controller may act before each read |
| I2cDriver.I2c.QueueWrite | bsp/quasar-u535/quasar_i2c.c:150-166 | queues header, register and value as far as the unchecked pushes succeed |
| I2cDriver.I2c.QueueRegister | bsp/quasar-u535/quasar_i2c.c:211-222 | the first critical section of a read queues header and register as far as the unchecked pushes succeed |
| I2cDriver.I2c.QueueRead | bsp/quasar-u535/quasar_i2c.c:227-242 | the second critical section queues read header and pointer as far as the unchecked pushes succeed |
| I2cDriver.I2c.Write | bsp/quasar-u535/quasar_i2c.c:127-180 | in whatever state it is entered, one of the runs that QuietCall and the overlap lemmas are about; BUSY timeout only after 250 reads; a held bus without interrupts always refuses |
| I2cDriver.I2c.Read | bsp/quasar-u535/quasar_i2c.c:182-256 | the same for a register read, with its two critical sections and the handler running between them |
| I2cDriver.I2c.WriteBlocking | bsp/quasar-u535/quasar_i2c.c:258-301 | in whatever state it is entered: on a free bus, success is the same transaction as the interrupt-driven write; a timeout names the flag whose wait used up all its reads and leaves the transfer where it stands, without STOP; a held bus refuses; a START pending at entry is replaced by the call's own exactly when it is still pending as the call sets START, and otherwise the bus shows it with the old or the new header |
| I2cDriver.I2c.ReadBlocking | bsp/quasar-u535/quasar_i2c.c:303-353 | the same for a register read, with the same byte stored at the pointer as by the interrupt-driven read |
| I2cDriver.I2c.WriteBurstBlocking | bsp/quasar-u535/quasar_i2c.c:355-403 | the same for a burst: register and all values in order; 255 bytes can only time out; polls are linear in the size |
| I2cDriver.I2c.ReadBurstBlocking | bsp/quasar-u535/quasar_i2c.c:405-463 | the same for a burst read: the device's bytes stored in order, elements past the size untouched, polls linear in the size, BUSY waited for after the STOP |
| I2cDriver.HeldStays | bsp/quasar-u535/quasar_i2c.c:276-294 | once the START of a transfer is out and no STOP requested, no sequence of controller events frees the bus |
| I2cDriver.ArmedStays | bsp/quasar-u535/quasar_i2c.c:271-278 | from a pending START the controller can only send it, which then holds the bus |
| I2cDriver.PollIsTurn | bsp/quasar-u535/quasar_i2c.c:258-463 | a polling call entered while no transfer runs, carried out or refused on BUSY, is a turn of the session theorem; so is a burst read whose BUSY wait after its STOP times out |
| I2cDriver.RetriesWrapIff | bsp/quasar-u535/quasar_i2c.c:339 | the retry count of the RXNE wait is the sum intended exactly up to 65035 retries |
| UartModel.PushKeeps | bsp/quasar-u535/quasar_uart.c:211-213 | every statement of the push loop keeps the invariants of both queues, also half way through a push |
| UartModel.TakeKeeps | bsp/quasar-u535/quasar_uart.c:243-245 | every statement of a pull keeps the invariants of both queues, also half way through it |
| UartModel.HandlerKeepsTx | bsp/quasar-u535/quasar_uart.c:670-682 | the transmit part of the handler keeps: sent bytes, then the queue, are what was promised; a non-empty queue will be served |
| UartModel.SlotKeepsRx | bsp/quasar-u535/quasar_uart.c:650-651 | one slot of the drain loop keeps the order of received bytes, dropping the byte only when the queue is full |
| UartModel.StepKeepsInv | bsp/quasar-u535/quasar_uart.c:189-249 | every statement of thread and handler and every hardware event keeps the whole invariant |
| UartModel.TransmitIsSafe | bsp/quasar-u535/quasar_uart.c:203-218 | in every interleaving: the handler never meets a queue in mid-update; TDR writes, then the queue, then the rest of the running call are exactly the accepted prefixes in order; a non-empty queue has TXEIE set or a thread about to set it |
| UartModel.ReceiveIsInOrder | bsp/quasar-u535/quasar_uart.c:644-668 | in every interleaving: delivered bytes, then the software queue, then the hardware FIFO, are an in-order subsequence of the arrivals without duplicates, and all of them if nothing was dropped |
| UartModel.NothingIsLost | bsp/quasar-u535/quasar_uart.c:639-668 | with arrivals only between handler entries, at most 8 between two entries and room in the queue, every arrival is delivered or still held and no overrun is latched |
| UartModel.NineArrivalsOverrun | bsp/quasar-u535/quasar_uart.c:639-668 | nine arrivals before a handler entry lose one byte and latch the overrun flag |
| UartModel.HandlerReturns | bsp/quasar-u535/quasar_uart.c:644-700 | every handler step comes nearer to the return whatever arrives meanwhile: at most 8 slots an entry |
| UartModel.OverrunsAreCleared | bsp/quasar-u535/quasar_uart.c:694-699 | in every interleaving, arrivals between the read of ISR and the return included: ORE is set at a return only if an overrun came after that entry's read; every earlier one has been cleared |
| UartModel.NextEntryClears | bsp/quasar-u535/quasar_uart.c:694-699 | an overrun left by one entry is cleared by the next: ORE at its return means an overrun after it began |
| UartModel.ServiceFalls | bsp/quasar-u535/quasar_uart.c:670-682 | each transmit service lowers (queue length, TXEIE) lexicographically, sending the front byte or switching TXEIE off |
| UartModel.QueueDrains | bsp/quasar-u535/quasar_uart.c:670-682 | with the thread outside the driver, the queue shrinks by one a service until it is empty, with TXEIE set throughout |
| UartModel.EverythingIsSent | bsp/quasar-u535/quasar_uart.c:203-218 | after as many services as bytes were queued, everything ever promised has been written to TDR; until then the interrupt is enabled and can be taken |
| UartDriver.Uart1.TransmitByteIrq | bsp/quasar-u535/quasar_uart.c:189-201 | the byte is queued if there is room; TXEIE set; nesting restored |
| UartDriver.Uart1.TransmitBytesIrq | bsp/quasar-u535/quasar_uart.c:203-218 | exactly the prefix that fits is queued, in order; TXEIE set; nesting restored |
| UartDriver.Uart1.TransmitStringIrq | bsp/quasar-u535/quasar_uart.c:220-235 | the same for a string |
| UartDriver.Uart1.ReceiveIrq | bsp/quasar-u535/quasar_uart.c:237-249 | the oldest received byte leaves the queue, or 0 is returned when it is empty |
| UartDriver.Uart1.IrqHandlerRoutine | bsp/quasar-u535/quasar_uart.c:634-700 | up to 8 bytes move in order into the queue as far as it has room, none while DMA receives, with one callback each; one byte is sent or TXEIE cleared; TC with TCIE makes the HAL handle ready; ORE cleared |
| UartDriver.EntryMatches | bsp/quasar-u535/quasar_uart.c:634-700 | a handler entry of the statement-level model has the effect of the handler method |
| UartDriver.CallReturns | bsp/quasar-u535/quasar_uart.c:203-218 | an uninterrupted transmit call returns within 5 statements a byte plus 8 |
| UartDriver.CallMatches | bsp/quasar-u535/quasar_uart.c:203-218 | an uninterrupted transmit call of the statement-level model has the effect of the transmit method |
| UartDriver.ReceiveMatches | bsp/quasar-u535/quasar_uart.c:237-249 | an uninterrupted receive call of the statement-level model returns and has the effect of the receive method |
| SpiBlocking.RepliesPrefix | bsp/quasar-u535/quasar_spi.c:138-148 | the reply to a byte does not depend on later bytes, so replies stored so far stay right |
| SpiBlocking.Spi.Round | bsp/quasar-u535/quasar_spi.c:139-147 | one loop round: replies are read in order and never ahead of sends; at most depth bytes in flight at its end; each round makes progress |
| SpiBlocking.Spi.TransferLoop | bsp/quasar-u535/quasar_spi.c:138-148 | the loop ends, all bytes sent, all replies stored in order, also when both buffers are one array |
| SpiBlocking.Spi.TransferFullDuplexBlocking | bsp/quasar-u535/quasar_spi.c:116-163 | for any size above 0 and any timing, aliased buffers or not: the buffer as it was at the call is sent, the replies are received in order, no overrun with an RX FIFO of depth + 1, the wait for EOT ends, READY again; a busy peripheral is left alone |
| SpiBlocking.InFlightBound | bsp/quasar-u535/quasar_spi.c:138-148 | under every interleaving of loop statements and clock, at most depth bytes are in flight at a loop head and depth + 1 inside the body |
| SpiBlocking.BoundIsTight | bsp/quasar-u535/quasar_spi.c:138-148 | a run reaches depth + 1 unread bytes, so a smaller RX FIFO can overrun |
| SpiDma.StartLoads | bsp/quasar-u535/quasar_spi.c:176-220 | the register writes of a start set up the whole transfer from any previous register contents |
| SpiDma.StepKeeps | bsp/quasar-u535/quasar_spi.c:165-221 | every register access of thread and handler, the completion and the interrupt keep the instance in a known mode |
| SpiDma.TransfersAreSafe | bsp/quasar-u535/quasar_dma.c:929-977 | in every interleaving and every state: a transfer under way has its own registers, also when started in the callback; State is BUSY exactly from an accepted start until the handler releases it; each accepted start gets exactly one release and one callback |
| SpiDma.BusyStartsChangeNothing | bsp/quasar-u535/quasar_spi.c:170-172 | any number of starts made while BUSY, with no completion in between, leave State, registers, running transfer and counts as they are |
| SpiDma.CallbackComes | bsp/quasar-u535/quasar_dma.c:929-977 | in every run an owed callback comes after at most 22 steps other than rejected starts, and there is always such a step to make |
| SpiDma.EarlyCallbackWouldClobber | bsp/quasar-u535/quasar_dma.c:943-952 | a callback before the clean-up would have its transfer's set-up undone: why it is the last action |
| SpiDma.Port.TransferNonBlocking | bsp/quasar-u535/quasar_spi.c:165-221 | READY: the state reached is that of the model's start statements executed in order, with the transfer started; BUSY: nothing changes |
| SpiDma.Port.CompletionHandler | bsp/quasar-u535/quasar_dma.c:929-1059 | the state reached is that of the model's handler statements and, with a restart in the callback, of the start statements after them, the new transfer's registers intact; DMA handle ready and unlocked |
| Timer.UpdateAfterDistance | bsp/quasar-u535/quasar_timer_ext.c:155-174 | the next update comes after exactly the computed number of clocks, and none before |
| Timer.UpdateWithinOnePeriod | bsp/quasar-u535/quasar_timer_ext.c:155-174 | for every previous count and every interleaving of clocks with the call: the count is within the new period at return and stays so, and for every period but 1 an update comes within one period |
| Timer.PeriodOneStops | bsp/quasar-u535/quasar_timer_ext.c:161-162 | with period 1 the counter stands still for ever |
| Timer.WedgeWithoutSnapBack | bsp/quasar-u535/quasar_timer_ext.c:163-172 | without the reset, a count past the new period gives no update before the 32-bit wrap |
| Timer.Counter.SetPeriod | bsp/quasar-u535/quasar_timer_ext.c:155-174 | auto-reload set; a count within it left running, a count past it restarted; next update at most one period away |
| Timer.StartIsClean | bsp/quasar-u535/quasar_timer_ext.c:85-97 | in every interleaving of the start with the clock: no interrupt before the call returns, none caused by the forced update, and the next update within one period |
| Timer.UpdatesAreCalledBack | bsp/quasar-u535/quasar_it.c:488-497 | each update is called back once, still owed, or arrived while an earlier one was still flagged |
| Timer.NothingTruncatesIff | bsp/quasar-u535/quasar_timer_ext.c:356-361 | both results are exact if and only if they fit 16 bits |
| Timer.PeriodNeverTooLong | bsp/quasar-u535/quasar_timer_ext.c:323-362 | the programmed period is never longer than requested, short by less than divider/clock, and exact when the divider divides the clock |
| Flash.Memory.Read | bsp/quasar-u535/quasar_memory.c:25-36 | from any address: bytes in the flash are copied to the destination, the rest of it untouched; a null destination is an argument error |
| Flash.Memory.Write | bsp/quasar-u535/quasar_memory.c:38-91 | success programs every quadword of size modulo 65536 and locks; a failing program leaves exactly the quadwords before it with the lock requested; the error is that of the first failing HAL call; a null source changes nothing |
| Flash.WriteReadRoundTrip | bsp/quasar-u535/quasar_memory.c:57-84 | after a complete write the range reads back as the buffer and nothing outside its quadwords has changed |
| Flash.WholeBufferIff | bsp/quasar-u535/quasar_memory.c:48 | the quadwords programmed cover the buffer if and only if it is shorter than 64 KiB |
| Flash.Memory.Erase | bsp/quasar-u535/quasar_memory.c:93-120 | a successful erase sets exactly the page of the address; any other outcome changes nothing, as for an address outside the flash; the error is that of the first failing HAL call |
| Flash.ErasePageContains | bsp/quasar-u535/quasar_memory.c:139-152 | the computed bank and page exist if and only if the address is in the flash, and then denote a page that contains it |
| Flash.PagesDisjoint | bsp/quasar-u535/quasar_memory.c:139-152 | no other page contains the address |
| Flash.EraseRangeCovers | bsp/quasar-u535/quasar_memory.c:93-120 | erasing n pages from an address sets exactly the n pages from the start of its page, across the bank boundary too |
| Flash.EraseWriteRead | bsp/quasar-u535/quasar_memory.c:25-120 | after erasing the pages of a range every quadword of it is programmable, and writing and reading the range round-trips |

## Left out

- The older copy under bsp/quasar: quasar_fifo.c is the same there, the other files match in the modelled functions.
- Instance selection, clock enables, pin set-up, NVIC and DMA linking, power, LED, USB, audio, ADC and PWM code:
  register set-up.
- I2cDriver.I2c.StoreReceived: one instance at a time, so that `val_tmp`, which all instances share, is not overwritten
  between its load and the store; interrupt handlers of different I2C instances are assumed not to preempt each other.
- quasar_qspi.c and the branches compiled for QSPI radios.
- HAL calls: the flash calls appear in Flash.dfy by what they promise (an aligned, erased quadword in the flash is
  programmed; an existing page is erased; a failing call changes nothing), the others not at all.
- I2C NACK, arbitration loss and error interrupts: the device acknowledges every byte, as the empty handlers suppose.
- I2cLaunch.LaunchIff: about the bus; a byte whose pointer was pulled as a header is stored elsewhere. Entry states are
  those of a transfer of whole frames; a queue left torn or split by an earlier call is outside, but I2cDecode.QueueRun
  says what any queue leads to.
- I2cLaunch.TcFirst: exact while the handler's START is pending at the call's START. When it goes out before, the bus
  is not described; nor when TC is served after a pull that took a pointer or came while a START was pending, but for
  what I2cOverlap.TornCall says of the latter.
- I2cOverlap.TornCall: the pull and the CR2 write come before the pending START is out. What follows the torn segment
  is described by I2cLaunch.EarlyOutcome, for launches in which the handler serves no TC. NBYTES, SADD and RD_WRN are
  taken over by the controller when START goes out, so that a CR2 rewritten while START is set counts; the
  read-modify-write that sets START is one step.
- I2cOverlap.TornHeader: RELOAD and AUTOEND, bits 24 and 25 of CR2, are not modelled. The calls leave them clear, but a
  header made of data bytes has the first of these bytes there; the model takes it as if they were clear.
- I2cDriver.I2c.WriteBlocking: the four polling calls assume an instance initialised without interrupts; with them the
  handler would serve TXIS from the queue while the call polls. When a START left pending by an earlier timeout goes
  out before the call's own, that START on the bus, the reason of a timeout and the number of polls are all that is
  promised.
- I2cCalls.SessionTheorem: an instance that mixes both kinds of call has its interrupts enabled only during the
  interrupt-driven ones.
- I2cEngine.EngineRun: the handler body after its read of ISR is one step, since the controller stretches the clock or
  waits while a flag is up.
- UartModel.StepKeepsInv: of CR1 only TXEIE is modelled; the set is a read and a write, the clear in the handler is one
  step because nothing that writes CR1 preempts the handler. The write of the set also restores the TCIE that it has
  read, so a TCIE that the handler clears exactly between the two is set again until the next TC entry clears it; that
  race is not modelled.
- UartModel.TransmitIsSafe: transmit callers in handlers that preempt the UART handler are excluded; the critical
  sections do not protect against them.
- UartDriver.Uart1.IrqHandlerRoutine: the receive callback is only counted, and the echo build option is left out;
  UartModel, the interleavings, has neither DMA reception nor the TC branch.
- Critical.NestingIsSafe: sections nest less than 2^32 deep, so the counter does not wrap.
- SpiBlocking.Spi.TransferFullDuplexBlocking: size 0 is excluded, for which the wait for EOT never ends; TX FIFO depth
  at least 1 and RX FIFO depth above it are assumed, with SpiBlocking.BoundIsTight showing why.
- SpiDma.TransfersAreSafe: one instance, since the two radios share no state; no other context starts transfers on the
  same SPI; the constant peripheral addresses of the channels are omitted.
- SpiDma.Port.CompletionHandler: only without a DMA error, on which the handler spins for ever.
- Timer.UpdateWithinOnePeriod: ARR takes effect at once (no preload), as the driver never sets the preload bit.
- quasar_timer_init beyond its period arithmetic: register writes.
- Flash.Memory.Read: the destination is large enough, which the code cannot check; addresses do not wrap at 2^32.
- Flash.Memory.Write: the source is readable to the next multiple of 16, as the last quadword is always read whole.
- Whether hardware and interrupts are fast enough: real time appears only as the discipline of UartModel.NothingIsLost.

# PokéStroller verification

A Dafny model of the stateful parts of PokéStroller, a PokéWalker emulator, with proofs of what they promise over
whole runs:

- **The audio ring** (`AudioRing.dfy`). The main thread and the audio callback share a ring of 8192 samples and two
  32-bit counters without a lock. Every atomic access, every store and every load of a sample is one step, and an
  acquire load may return a stale value, so every interleaving of the two threads is a run.
- **The virtual infrared path** (`Emulator.dfy`, `IrPump.dfy`, `IrLink.dfy`, `IrPoll.dfy`, `IrWire.dfy`, `IrPath.dfy`). The device
  transmits bytes, the host publishes them in whole bursts, a link queues them for a non-blocking TCP socket, two
  links make a wire, and two hosts make a path from device to device. Every answer of the operating system is an input.
- **The session store** (`SessionStore.dfy`). Two files, a save protocol, a cache and a lock. A save is a sequence of
  atomic steps, between which processes may crash, writes may fail and the session file may be damaged.
- **The H8 machine** (`H8.dfy`, `Encoding.dfy`, `Compare.dfy`, `CallStack.dfy`, `Ssu.dfy`, `EepromProtocol.dfy`,
  `AccelProtocol.dfy`, `LcdProtocol.dfy`, `Driving.dfy`, `Timers.dfy`, `Machine.dfy`, `Registers.dfy`, `Runs.dfy`,
  `Interrupts.dfy`, `Nesting.dfy`, `Programs.dfy`, and in place `Processor.dfy`, `SerialUnit.dfy`, `Walker.dfy`). Memory, compares and branches, calls and returns, interrupts, the serial unit with
  the EEPROM, the accelerometer and the LCD behind it, Timer B and Timer W, the step function that ties them together, and what programs
  find over whole runs of it.
- **The input queue** (`InputQueue.dfy`). A linked list of heap nodes that carries key presses to the program.

## How it is put together

The source changes its state in place, and so does the model: `AudioRing.PWAudio`, `IrLink.PWLink`,
`Emulator.PWEmulator`, `IrPump.Host`, `SessionStore.PWSessionStore`, `InputQueue.Queue`, `Processor.Unit`,
`SerialUnit.Unit` and `Walker.Walker` are classes over arrays and mutable fields, with the loops of the source. Each
method is proved against a function on values (`Value()` reads the object), and the properties are proved about those
functions and about runs made of them. `Walker.Walker.RunNextInstruction` is the whole step function: its new state is
`Machine.Turn` of its old one, and a `Runs` run is a sequence of such calls, key presses, clock interrupts and display
refreshes; `Walker.Walker.HostLoop` is the shipped host's loop, whose turns are such a run. The transactions with the
EEPROM and the LCD are described on the bare devices, and `Programs.RunDrives` carries them over to runs of the machine.

What each operation does is also stated without the functions that define it, in literal addresses, bits, opcodes and
limits: what a poll does from the answers of the system (`IrPoll`), what a load and an uninterrupted save do
(`SessionStore.LoadIsExact`, `SessionStore.SaveInOneGo`), when a burst leaves the device and where a run of it stops
(`Emulator.OnlyFinishedBurstsLeave`, `Emulator.RunStopsAtTarget`), which interrupt is taken (`Interrupts`), what the
bytes of a program do (`Encoding`), and what the devices do to the bytes of memory (`Registers`).

Some promises do not hold as the code stands, and the model says exactly when they do:

- A good backup can be overwritten with a damaged session: the save checks that the session file decodes and then
  reads it a second time. `SessionStore.EventKeepsBackup` shows that damage between the two is the only event that
  endangers the backup, `SessionStore.BackupSurvives` follows for all runs without it, `SessionStore.HazardMayLoseBackup`
  shows that after every such damage the save may go on to lose both files, and `SessionStore.HazardDestroysBackup` is
  a run that does.
- A failed synchronization leaves an older image in the cache, so that a later save of that older image is answered
  YES and skipped although the file holds a newer one: `SessionStore.StaleCacheAnswersYes` is that run, and
  `SessionStore.EventKeepsAgreement` shows that this and damage are the only events that break the cache.
- An interrupt handler that unmasks interrupts by LDC instead of RTE loses the interrupted program, because only one
  program counter and one set of flags are saved. `Runs.UnmaskingLosesSaved` gives the exact condition,
  `Runs.UnmaskerLosesSaved` a run, and `Runs.InterruptsAreTransparent` holds for all handlers that do not.
- The host takes 921600 cycles off the counter every quarter second, which is no multiple of the sub clock's period of
  112, so a second has 32912 ticks of the sub clock and not 32768 or 32914: `Runs.HostKeepsPace`.
- A WRITE whose bytes pass the end of the EEPROM leaves the device's memory instead of wrapping inside its page.
  `EepromProtocol.WriteProgramsPage` gives the exact condition: the base plus the page part of the data must fit.
- A call with 32768 words on the stack wraps onto the outermost one: `CallStack.CallAtFullDepth`.

Where code and comments differ the model follows the code: a comment in the source says a serial byte takes 8 cycles,
the code counts 7 ticks of four cycles; the 16-bit BRN does not skip its displacement; a reset writes CKSTPR1 twice and
CKSTPR2 not at all.

## Model

| member | source | states |
|---|---|---|
| AudioRing.StepKeepsInv | src/macos_audio.c:15-53 | every atomic step of either thread, stale acquire loads included, keeps the invariant that ties counters and slots to the history of samples |
| AudioRing.RingRefinesFifo | src/macos_audio.c:15-53 | under every interleaving the published samples are those played or skipped, in order, then those in the ring, never more than 8192; the wrapped difference and the empty test are exact |
| AudioRing.NoSlotIsShared | src/macos_audio.c:18-25 | a slot being stored is never one that the callback may still read, and the acquired counter orders the two accesses; likewise for a slot being played |
| AudioRing.SubmitTakesLongestPrefix | src/macos_audio.c:47-53 | a submission publishes exactly the longest prefix that fits the read index it loaded |
| AudioRing.CallbackPlaysInOrder | src/macos_audio.c:22-25 | a callback buffer is the next accepted samples, then silence, and silence only when all that it saw published has left |
| AudioRing.DistanceIsExact | src/macos_audio.c:51 | the 32-bit difference of two counters at most a ring apart is their true difference, across the wrap |
| AudioRing.SlotOfWrapped | src/macos_audio.c:24 | wrapping a counter at 2^32 does not change its slot |
| AudioRing.PWAudio.constructor | src/macos_audio.c:29-34 | an empty, inactive ring |
| AudioRing.PWAudio.SetActive | src/macos_audio.c:54 | switching changes nothing that waits to be played |
| AudioRing.PWAudio.Submit | src/macos_audio.c:47-53 | appends as many samples as there is room for, nothing while inactive, as a run of the machine |
| AudioRing.PWAudio.Render | src/macos_audio.c:15-28 | plays the oldest samples, then silence; drops the backlog while inactive; as a run of the machine |
| Emulator.CyclesNeverDrift | src/emulator.cpp:86-97 | after successful runs that asked for T cycles in all, T to T+254 cycles were executed |
| Emulator.RunStopsAtTarget | src/emulator.cpp:86-97 | a run executes the steps of the device until their time reaches the target, uses up exactly their time and queues exactly their bytes; it stops short if and only if a step throws or its bytes do not fit |
| Emulator.RunStops | src/emulator.cpp:90-94 | every run stops, after some number of steps |
| Emulator.BurstsStayWhole | src/emulator.cpp:141-147 | two bytes in a row stamped less than 921 cycles apart, neither cleared, are published by the same pump, in every run |
| Emulator.OnlyFinishedBurstsLeave | src/emulator.cpp:141-147 | in every run and for every capacity, the device hands over the oldest bytes if and only if its clock is at least 921 cycles past the last byte transmitted, and else none; after a pump then no byte waits, and else every byte that waited still does |
| Emulator.PumpPublishesWaiting | src/emulator.cpp:135-147 | the last stamp is never later than the clock, and a pump publishes exactly the waiting bytes in the order of their transmission once 921 cycles have passed, and else nothing |
| Emulator.TransmitQueues | src/emulator.cpp:61-65 | the callback queues exactly the bytes that fit 65536, stamps them, and reports an overflow exactly when some do not fit |
| Emulator.PWEmulator.OnTransmit | src/emulator.cpp:61-65 | the callback for the bytes of one device step |
| Emulator.PWEmulator.StepOnce | src/emulator.cpp:91-93 | one device step: its bytes, then its time, unless it throws |
| Emulator.PWEmulator.Run | src/emulator.cpp:86-97 | the loop to the cycle target terminates; a device that threw stays stopped |
| Emulator.PWEmulator.TransmitIr | src/emulator.cpp:141-147 | nothing before the idle time, then up to the capacity, first in first out |
| Emulator.PWEmulator.ReceiveIr | src/emulator.cpp:148-151 | the core is handed the bytes in order until it throws, which breaks the device |
| Emulator.PWEmulator.ClearIr | src/emulator.cpp:152 | drops what was transmitted |
| IrPump.ChunksAreQueuedWhole | src/macos_main.m:372-373 | however a burst is cut into chunks, the link queues all of it behind what was queued, or fails, and fails exactly when it does not fit |
| IrPump.Host.Forward | src/macos_main.m:372-373 | the loop empties the finished burst or takes nothing, and offers it whole to a connected link |
| IrPump.AllIsHeard | src/macos_main.m:374-375 | however the arrived bytes are cut into chunks, a core that does not throw hears exactly them, in order |
| IrPump.Host.Collect | src/macos_main.m:374-375 | the loop takes everything that has arrived and hands it to the device, chunk by chunk, whatever the core does with each |
| IrPump.Host.PumpIr | src/macos_main.m:367-376 | one host tick: poll, drop the old connection's bytes on a change of state, forward, hand over what arrived |
| IrPump.TickIsExact | src/macos_main.m:367-376 | what a host tick publishes, drops, queues and hands over, from what the poll leaves: a change of state drops the transmitted bytes, a finished burst leaves whole, what does not fit fails the link, and the device hears exactly what had arrived |
| IrLink.EveryCallSound | src/ir_link.cpp:32-123 | whatever the system answers, every call keeps the queues within 65536 bytes, non-empty only while connected, and the descriptors open that the state says |
| IrLink.EveryRunSound | src/ir_link.cpp:32-123 | so they are after any calls in any order from power-on |
| IrLink.FlushSendsPrefix | src/ir_link.cpp:88-100 | what the sending loop hands over is a prefix of the queue, and the rest stays queued unless the link fails |
| IrLink.ReceiveAppends | src/ir_link.cpp:103-112 | what the receiving loop takes is appended in order unless the link fails |
| IrPoll.PollIsExact | src/ir_link.cpp:69-114 | from the answers alone: the link fails if and only if accept, connect or a send that was asked for failed, or the first answer that ends the receiving loop is an error, the end of the stream or too much, and with which reason; otherwise it stays as it was or is connected, with what the answers took off one queue and all deliveries in front of that answer, of at most 16, behind the other |
| IrPoll.SendingStops | src/ir_link.cpp:89-100 | whatever the answers are, some answer ends the sending loop, or it runs out of them |
| IrPoll.ReceivingStops | src/ir_link.cpp:103-112 | the same for the receiving loop |
| IrLink.FlushTerminates | src/ir_link.cpp:89-100 | the sending loop ends within one iteration for each queued byte and each interruption |
| IrLink.PWLink.Close | src/ir_link.cpp:32-38 | closing resets everything |
| IrLink.PWLink.Fail | src/ir_link.cpp:40-43 | failing closes and keeps only the reason |
| IrLink.PWLink.ListenOn | src/ir_link.cpp:44-56 | listening, or failed |
| IrLink.PWLink.ConnectTo | src/ir_link.cpp:57-68 | connecting or connected, or failed |
| IrLink.PWLink.MakeProgress | src/ir_link.cpp:70-87 | accepting a caller or completing a connect |
| IrLink.PWLink.PollNetwork | src/ir_link.cpp:69-114 | one poll: progress, then the sending loop, then the receiving loop |
| IrLink.PWLink.FlushQueue | src/ir_link.cpp:88-100 | the sending loop with partial sends, interruptions and errors; its rounds are those bounded by FlushTerminates |
| IrLink.PWLink.ReceiveSome | src/ir_link.cpp:103-112 | at most 16 receives, with the limit on retained bytes |
| IrLink.PWLink.SendBytes | src/ir_link.cpp:115-119 | queues all bytes exactly when connected and they fit |
| IrLink.PWLink.ReadBytes | src/ir_link.cpp:120-123 | the oldest bytes, up to the capacity |
| IrWire.BytesAreConserved | src/ir_link.cpp:88-123 | while both ends are up, accepted is delivered, then received, then under way, then queued; through any failure or close, delivered is a prefix of accepted |
| IrWire.ActionKeepsInv | src/ir_link.cpp:69-123 | every call of one end, and every loss by the network once an end is down, keeps both directions conserved |
| IrPath.TickIsWireActions | src/macos_main.m:367-376 | a tick of the host is a poll, a queueing of the finished burst and a taking of all that arrived, on its end of the wire |
| IrPath.MoveKeepsInv | src/macos_main.m:367-376 | every tick, run of a device, hang-up and loss keeps published, accepted, delivered and heard bytes in step |
| IrPath.HeardIsPublished | src/macos_main.m:367-376 | over a connection, what one device has heard is a prefix of the bursts that the other host published while connected, as long as its core has not thrown; while both links are up, the rest is under way or queued |
| SessionStore.KeysTellSessionsApart | src/session_store.m:23-28 | for ROMs and images of equal sizes, two sessions share a key if and only if ROM, image and profile agree |
| SessionStore.KeysOfUnequalSizesCollide | src/session_store.m:24-26 | without equal sizes the key does not separate image and profile |
| SessionStore.SavedIsReadBack | src/session_store.m:78-81 | a save is read back exactly under its own identifier, right size and limit |
| SessionStore.OnlySavesAreAccepted | src/session_store.m:49-63 | only a file with the entries of such a save means an image |
| SessionStore.AtMostOneProcess | src/session_store.m:42-46 | in every run, only the lock holder has the store open |
| SessionStore.OpensWhenFree | src/session_store.m:42-48 | in every run, opening succeeds if and only if nobody has the store open, and leaving it, by a crash too, lets the next one in |
| SessionStore.LoadIsExact | src/session_store.m:64-74 | in every run, whatever is damaged: a load returns the session and caches it if it can read it; else exactly the image of the latest completed backup write, with a recovery reported and nothing cached; and nothing if it can read neither |
| SessionStore.BackupIsLastCopied | src/session_store.m:83-87 | in every run the backup is what the latest completed copy wrote |
| SessionStore.EventKeepsBackup | src/session_store.m:83-88 | an event keeps the backup safe if and only if it is not damage between the check and the second read |
| SessionStore.BackupSurvives | src/session_store.m:83-88 | once the backup decodes, it does so for ever, and a load yields the session if it can read one that decodes, and else the image that was copied last, unless damage falls between the check and the second read |
| SessionStore.HazardMayLoseBackup | src/session_store.m:83-87 | after every damage at that moment the save may go on and leave both files unreadable |
| SessionStore.BackupBecomesSafe | src/session_store.m:83-87 | a completed copy of a session that decodes makes the backup safe from then on |
| SessionStore.HazardDestroysBackup | src/session_store.m:83-88 | a run from an open store with two good files to the loss of both |
| SessionStore.RunAgrees | src/session_store.m:64-92 | in every run without damage or a failed synchronization over an older cached image, the cache is the session file and that is the last image written |
| SessionStore.EventKeepsAgreement | src/session_store.m:76-92 | an event keeps cache, session file and last written image in agreement if and only if it is neither damage nor a failed synchronization over another cached image |
| SessionStore.FailedSyncBreaksCache | src/session_store.m:91-92 | after a failed synchronization the cache agrees if and only if it was empty |
| SessionStore.StaleCacheAnswersYes | src/session_store.m:77-92 | a run in which a failed synchronization makes a later save of the older image answer YES without writing it |
| SessionStore.AnswersAreTrue | src/session_store.m:64-92 | every save that answers YES, writing or skipping, leaves its image on disk; a load that can read the session returns the image of the last completed session write |
| SessionStore.SaveInOneGo | src/session_store.m:75-93 | an uninterrupted save for every success or failure of its system calls: when it answers YES, what is then in both files and in the cache, and what a failure leaves of them |
| SessionStore.PWSessionStore.ReadState | src/session_store.m:49-63 | the checks of size, version, identity, length and digest in turn yield an image exactly from a file that means it |
| SessionStore.PWSessionStore.Save | src/session_store.m:75-93 | an uninterrupted save, which encodes a container and copies the bytes of the old one, is its atomic steps one after the other, for every success or failure of its system calls |
| SessionStore.PWSessionStore.Load | src/session_store.m:64-74 | the session, else the backup, and what is cached, for every success or failure of the two reads |
| InputQueue.Queue.AddElement | src/queue.c:9-24 | appends; first, last and the links stay those of the node sequence |
| InputQueue.Queue.PopElement | src/queue.c:26-34 | removes the oldest value, or yields 0 and changes nothing |
| InputQueue.Queue.IsEmpty | src/queue.c:36-38 | true if and only if there is no value |
| InputQueue.Queue.Drain | src/walker.c:2838 | a reload leaves the queue empty with both pointers null |
| H8.Set16RoundTrip | src/walker.c:141-162 | a stored word reads back across the address wrap and no other byte changes |
| H8.Set32RoundTrip | src/walker.c:147-170 | a stored long word reads back across the address wrap and no other byte changes |
| Compare.FlagsAfterCompare | src/walker.c:220-258 | what C, Z, N and V mean for the operands, at 8, 16 and 32 bits |
| Compare.BranchDecidesRelation | src/walker.c:1392-1477 | for all operands and widths, each condition code decides its order relation |
| Compare.ComparePerforms | src/walker.c:1290-1307 | a compare changes only flags and program counter |
| Compare.BranchStep | src/walker.c:1384-1477 | a taken branch reaches its target, one not taken the next instruction, in both forms |
| Compare.CompareThenBranch | src/walker.c:1578-1702 | executing a compare and the branch behind it reaches the target exactly when the relation holds |
| Encoding.CompareAndBranch | src/walker.c:1290-1477 | from the bytes of a compare and of the branch behind it, in all six forms by both, and the contents of the registers: two steps reach the target if and only if destination and source are in the relation that the branch is named after |
| Encoding.BranchNever | src/walker.c:1388-1391 | the short BRN stops the emulator, the wide one goes on inside its displacement |
| Encoding.CallBytes | src/walker.c:1537-1745 | the bytes of BSR and JSR, in all four forms: where they go, and which two bytes they store below the stack pointer |
| Encoding.JumpBytes | src/walker.c:1708-1717 | the bytes of JMP, in both forms |
| Encoding.ReturnBytes | src/walker.c:1531-1536 | the byte of RTS: it goes to the word at the stack pointer and takes it off |
| Encoding.InterruptReturnBytes | src/walker.c:1559-1563 | the byte of RTE: back to the saved program counter with the saved flags |
| Encoding.ControlBytes | src/walker.c:711-735 | the bytes of NOP, SLEEP, LDC and TRAPA, with each flag's bit |
| Encoding.LoadBytes | src/walker.c:1877-1893 | the bytes of MOV.B @aa:16, Rd: which byte of which register changes, the flags, and RDRF |
| Encoding.StoreBytes | src/walker.c:1895-1912 | the bytes of MOV.B Rs, @aa:16: the byte stored, the flags, and TDRE and TEND |
| Encoding.OthersDoAnything | src/walker.c:386-2527 | every instruction with other first bytes is one arbitrary effect |
| CallStack.CallPerforms | src/walker.c:1721-1745 | JSR and BSR push the address behind them and go to their target |
| CallStack.ReturnPerforms | src/walker.c:1531-1536 | RTS resumes at the word at the stack pointer |
| CallStack.RunIsShadowed | src/walker.c:1531-1558 | before every event of a well-nested run, memory holds exactly the open return addresses at their places among the words of the stack, data pushed and popped between them |
| CallStack.MatchingReturn | src/walker.c:1531-1558 | the return that matches a call goes to the address that the call pushed and restores the stack pointer, across address wrap |
| Nesting.ActionPasses | src/walker.c:329-2835 | every step that executes BSR, JSR or RTS is that call or return, and interrupts, the clock, key presses and displays around it leave open return addresses alone |
| Nesting.TransfersKeepPromise | src/walker.c:1559-1563 | RTE, branches, jumps, compares and CCR loads leave the stack alone by themselves |
| Nesting.ReturnsToMatchingCall | src/walker.c:1721-1745 | in every run of the machine whose program overwrites no open return address, RTS goes behind its matching BSR or JSR and restores the stack pointer, whatever is pushed, popped, called and interrupted in between |
| CallStack.CallAtFullDepth | src/walker.c:1721-1745 | the depth bound is exact: one call more overwrites the outermost word of the stack |
| Runs.CallExecutesOne | src/walker.c:329-2540 | an awake call executes one instruction on what the program finds, a sleeping one none, and then come the dispatcher and two cycles |
| Runs.ProgramFinds | src/walker.c:346-384 | what the program finds at 0x9b84 and at 0x79b8: the next key and 50 watts |
| Runs.SkipsGoOn | src/walker.c:332-345 | the three addresses at which a call skips an instruction and takes no time |
| Interrupts.DispatchIsExact | src/walker.c:2546-2587 | each source's entry is taken if and only if interrupts are unmasked, its request and enable bits are set and no earlier source wants one; nothing else changes but the keys of IRQ0 |
| Interrupts.CallTakesFirst | src/walker.c:2543-2587 | so in every call, behind its instruction; Timer W enters only for want of all of them |
| Interrupts.QuarterRaisesFlags | src/walker.c:3011-3028 | which bits of the clock's register a quarter second, a half and a whole one raise |
| Interrupts.QuarterIsHandled | src/walker.c:2557-2561 | in every run, a quarter second that passes unmasked and enabled leads to its handler with the next call, which finds the program where the instruction left it |
| Interrupts.QuarterWakesSleeper | src/walker.c:2557-2563 | and wakes a program that sleeps |
| Interrupts.PressRequests | src/walker.c:282-292 | what a key press changes, and nothing else: the request of IRQ0, or two queued values and the sleep |
| Interrupts.CenterKeyIsHandled | src/walker.c:2547-2555 | in every run, the center key pressed unmasked and enabled leads to its handler with the next call, which queues it |
| Runs.CallIsInstructionThenEntry | src/walker.c:2543-2587 | a call is its instruction followed by at most one interrupt entry, which needs interrupts unmasked |
| Runs.HandlerKeepsSaved | src/walker.c:2546-2587 | while interrupts stay masked the saved program counter and flags do not change, CCR loads included, and each chained entry saves the same pair |
| Runs.InterruptsAreTransparent | src/walker.c:1559-1563 | after any number of chained interrupts, the first unmasked state has the program counter and flags of the core that the first of them took over from, unless a handler unmasks by LDC |
| Runs.UnmaskingLosesSaved | src/walker.c:711-735 | an LDC in a handler that clears I leaves the machine behind the LDC or saves that address; the interrupted core is kept if and only if it is the one the LDC makes |
| Runs.UnmaskerLosesSaved | src/walker.c:730-735 | a run in which it is lost |
| Runs.InterruptedProgramResumes | src/walker.c:2543-2587 | so the interrupted program goes on where its last instruction left it: nothing is lost or repeated |
| Runs.SavedFlagsUnmasked | src/walker.c:311-318 | in every reachable state the saved flags have interrupts unmasked |
| Runs.ClocksKeepPace | src/walker.c:2590-2832 | from reset, N steps that take time are 2N cycles less what the host took off, and N/2 ticks of the serial unit, counted as it ticks; N/56 sub clock ticks if nothing is taken off |
| Runs.HostKeepsPace | src/win_main.c:170-177 | with the shipped host, N steps are N/460800 quarter seconds and 8228 sub clock ticks for each, plus one for every 56 further steps |
| Runs.FramesAlternate | src/walker.c:121-134 | over any run, whatever the program sends to the LCD, successive displays alternate between the two buffers |
| Runs.KeysArriveInOrder | src/walker.c:282-292 | in every run, what the program was given and what is still queued are exactly the keys pressed, or taken as the center key's interrupt, in that order, each with its release |
| Runs.KeysAlternate | src/walker.c:346-350 | for non-zero keys the program reads key, 0, key, 0, and so on |
| Ssu.LcdAssertionNeverFires | src/walker.c:2741-2742 | however the program drives the serial unit, the LCD index assertion holds |
| Ssu.TickWithoutTransmission | src/walker.c:2594-2824 | with transmission disabled a tick sets TDRE, and stops the emulator if reception is enabled |
| EepromProtocol.TicksDeliver | src/walker.c:2687-2730 | six ticks after a load only count, the seventh delivers the byte, and further ticks change nothing |
| EepromProtocol.FlagsBehindByte | src/walker.c:2621-2730 | which of TDRE, RDRF and TEND are up behind each byte |
| EepromProtocol.BeginReachesData | src/walker.c:2687-2707 | a command and two address bytes open the data phase at the address |
| EepromProtocol.PutAllPrograms | src/walker.c:2718-2722 | each page offset ends with the last byte sent for it, and nothing outside the page changes |
| EepromProtocol.WriteProgramsPage | src/walker.c:2694-2730 | a whole WRITE programs its page and ends at a byte boundary if and only if its bytes lie in the device; otherwise it leaves the device memory |
| EepromProtocol.ReadReturnsMemory | src/walker.c:2621-2663 | a READ of any length stays in the device if and only if the bytes that it fetches before its counter wraps at 65536 exist; it then returns them, wrapping, and changes none |
| EepromProtocol.WriteThenRead | src/walker.c:2535-2539 | a WRITE of up to 128 bytes, a deselect and a READ return those bytes; all others are unchanged |
| EepromProtocol.StatusIsRead | src/walker.c:2628-2641 | RDSR yields the status with every byte behind it and changes nothing |
| EepromProtocol.WriteEnableIsRead | src/walker.c:2694-2701 | WREN, a deselect and RDSR: every byte read has bit 1 set and the other bits as before |
| EepromProtocol.OtherCommandsAreIgnored | src/walker.c:2628-2706 | any other first byte, or one of the other direction, changes nothing in the device |
| EepromProtocol.StatusTakesNoData | src/walker.c:2724-2726 | a byte sent without reception while the status is read stops the emulator |
| AccelProtocol.ReadReturnsRegisters | src/walker.c:2602-2619 | a read of any length stays in the device if and only if it ends before register 29, and returns the registers from the low four bits of its address on |
| AccelProtocol.WriteStoresRegister | src/walker.c:2670-2684 | a write stores one register, if and only if it exists |
| AccelProtocol.WriteThenRead | src/walker.c:2530-2533 | a register below 16 that was written is read back after a deselect; a higher one is read as the one with its low four bits |
| LcdProtocol.SendPaints | src/walker.c:2733-2751 | a data byte is stored at the page, column and byte counters, which advance |
| LcdProtocol.SendCommandObeyed | src/walker.c:2753-2820 | a command byte takes effect at its first tick and raises TDRE and TEND |
| LcdProtocol.CommandMeans | src/walker.c:2753-2817 | what every command byte sets: a digit of the column, the page, the contrast, or nothing |
| LcdProtocol.ColumnSelected | src/walker.c:2756-2806 | three commands select any page and any column below 128 |
| LcdProtocol.StreamLands | src/walker.c:2740-2748 | a stream of up to 512 bytes from any page, column and byte leaves each byte at its place, columns wrapping at 256, and all others as they were |
| LcdProtocol.DrawPageStripes | src/walker.c:2733-2820 | selecting a page and column 0 and streaming 192 bytes fills exactly that page |
| LcdProtocol.StreamedPageIsShown | src/walker.c:121-133 | each pixel of the page shows exactly its two streamed bits |
| LcdProtocol.PictureRoundTrip | src/walker.c:121-133 | streaming the eight pages of any picture makes the frame show that picture |
| Driving.DriveRespects | src/walker.c:2593-2823 | no tick depends on the receive flag, which programs clear by reading, or on the buffer on display |
| Driving.DriveTransaction | src/walker.c:2621-2730 | the stores and ticks of a header and its data are the transaction, with the cleanup behind each instruction |
| Driving.DrivePages | src/walker.c:2733-2820 | the stores, pin changes and ticks that draw pages draw them, however many ticks pass between the steps |
| Driving.TickStores | src/walker.c:2593-2823 | a tick stores a byte in the EEPROM if and only if it ends a data byte of a WRITE, and in the LCD if and only if it ends a data byte for it, at their counters; nothing else changes the two memories |
| Timers.ReloadingClosedForm | src/walker.c:296-301 | value and reloads of a reloading counter are a quotient and a remainder |
| Timers.TimerWClosedForm | src/walker.c:302-321 | Timer W's counter, match flag and matches after n ticks, from any counter and compare value, cleared on match or not |
| Timers.TimerWCountsModuloGra | src/walker.c:302-310 | with CCLR, GRA g > 0 and a counter t < g, n ticks leave (t+n)%g after (t+n)/g matches |
| Timers.TimerBClosedForm | src/walker.c:296-301 | Timer B's counter, overflows and flag after n ticks: division by 256 minus the reload value |
| Timers.TimersAreIndependent | src/walker.c:294-327 | the two timers do not disturb each other |
| Machine.SsuTickIsTick | src/walker.c:2593-2823 | the serial unit inside the machine's memory is the one whose transactions are described on their own |
| Machine.StoreLoadsByte | src/walker.c:1895-1912 | storing a byte register at SSTDR is how a byte is loaded: it clears TDRE and TEND |
| Machine.SubClockTickIsTick | src/walker.c:294-327 | the timers inside the machine's memory are the ones whose closed forms are proved |
| Machine.CycleSparesMemory | src/walker.c:2589-2832 | the clock writes nothing but the peripherals' own registers |
| Registers.SerialUnitReads | src/walker.c:2594-2820 | which bits at which addresses a tick of the serial unit reads |
| Registers.SerialUnitWrites | src/walker.c:2594-2820 | which it writes: the received byte, and three bits of the status, which it only raises |
| Registers.TimersInMemory | src/walker.c:294-327 | a tick of the sub clock in the bytes of memory: counters, reload, requests, the entry of Timer W, and whether each timer runs at the next tick |
| Registers.ReloadIsStored | src/walker.c:1909-1911 | MOV.B to 0xF0D1 sets Timer B's counter and reload value |
| Registers.ReloadIsKept | src/walker.c:1909-1911 | no other instruction sets the reload value |
| Registers.ResetHolds | src/walker.c:2837-2948 | what a reset puts in memory, registers and devices |
| Registers.ResetIsQuiet | src/walker.c:2837-2948 | it stands at the entry, no interrupt is wanted, and ticks of the serial unit and of the sub clock change nothing until the program enables something |
| Programs.TimerWRuns | src/walker.c:302-321 | over a run whose program changes no register that Timer W's counter depends on, the counter is that of the closed form, whatever happens to Timer B and to the request flag, and whatever is executed, interrupted, pressed and displayed meanwhile; if the flag is left alone too, it is up once the first match has passed |
| Programs.TimerBRuns | src/walker.c:296-301 | the same for Timer B, whatever happens to Timer W |
| Programs.RunDrives | src/walker.c:2529-2823 | over a run, the devices behind the serial unit are where the stores and pin changes of the program and the ticks of the unit, in their order, bring them |
| Programs.ProgramReadsWhatItWrote | src/walker.c:2621-2730 | over a run, a program that writes up to a page to the EEPROM and later reads from the same address finds each byte that it wrote in SSRDR, if no data byte of another WRITE ended there; polling the status and other transactions in between do not show |
| Programs.ProgramShowsPicture | src/walker.c:2733-2820 | over a run, once a program has drawn the eight stripes of a picture, with any pauses between the steps of drawing and any other business between the stripes, every frame of that buffer is that picture until another data byte ends in it |
| Processor.Unit.GetMemory16 | src/walker.c:159-162 | reads a big-endian word, wrapping |
| Processor.Unit.SetMemory16 | src/walker.c:141-145 | writes a big-endian word, wrapping |
| Processor.Unit.SetFlagsSub | src/walker.c:220-258 | the flags of a subtraction; I, UI and U are kept |
| Processor.Unit.EnterInterrupt | src/walker.c:2548-2554 | saves program counter and flags, masks, jumps and wakes |
| Processor.Unit.ReturnFromSubroutine | src/walker.c:1531-1536 | RTS in place |
| Processor.Unit.LoadByteRegister | src/walker.c:1875-1893 | MOV.B @aa:16 and its effect on RDRF |
| Processor.Unit.StoreByteRegister | src/walker.c:1895-1920 | MOV.B to @aa:16 and its effect on TDRE and TEND |
| Processor.Unit.Transfer | src/walker.c:1384-1745 | branches, jumps, calls and returns in place |
| Processor.Unit.PerformOne | src/walker.c:386-2527 | every modelled instruction in place |
| Processor.Unit.Fetch | src/walker.c:352-380 | decodes the three words at the program counter |
| SerialUnit.Unit.constructor | src/walker.c:2848-2866 | the devices at power-on |
| SerialUnit.Unit.ReadAccel | src/walker.c:2602-2619 | accelerometer reads |
| SerialUnit.Unit.WriteAccel | src/walker.c:2670-2684 | accelerometer writes |
| SerialUnit.Unit.ExchangeEepromByte | src/walker.c:2628-2658 | READ and RDSR, byte by byte |
| SerialUnit.Unit.TransmitEepromByte | src/walker.c:2694-2727 | WREN and WRITE, byte by byte |
| SerialUnit.Unit.LcdData | src/walker.c:2740-2750 | a pixel byte in place |
| SerialUnit.Unit.LcdCommand | src/walker.c:2753-2817 | a command in place |
| SerialUnit.Unit.ForgetDeselected | src/walker.c:2529-2539 | deselected devices forget their transaction |
| SerialUnit.Unit.Tick | src/walker.c:2593-2823 | a whole tick in place, with every way it can end |
| SerialUnit.Unit.FillVideoBuffer | src/walker.c:121-134 | the two loops produce the frame, and the buffers flip |
| Walker.Walker.constructor | src/walker.c:2837-2948 | a first load gives the reset state, in fresh storage |
| Walker.Walker.Load | src/walker.c:2837-2948 | a reload into the same storage gives the reset state too and empties the queue, but for the cycle counter, which is the host's |
| Walker.Walker.RunSubClock | src/walker.c:294-327 | one sub clock tick in place |
| Walker.Walker.DispatchInterrupts | src/walker.c:2543-2587 | the dispatcher in place, with the keys that IRQ0 queues |
| Walker.Walker.RunCycle | src/walker.c:2591-2832 | one clock cycle in place |
| Walker.Walker.RunNextInstruction | src/walker.c:329-2835 | the whole step function: its new state, or its failure, is that of `Machine.Turn` |
| Walker.Walker.SetKeys | src/walker.c:282-292 | a key press in place |
| Walker.Walker.QuarterRtcInterrupt | src/walker.c:3019-3028 | the quarter, half and whole second requests |
| Walker.Walker.FillVideoBuffer | src/walker.c:121-134 | a display refresh changes nothing but which buffer is shown |
| Walker.Walker.HostTurn | src/win_main.c:170-179 | one turn of the host: a step, and a quarter second with a frame as soon as it has passed |
| Walker.Walker.HostLoop | src/win_main.c:133-179 | the host's loop over any turns and key presses is a run of the machine that takes each quarter second off before the next step, so from power-on the object's counters are those of HostKeepsPace |

## Left out

- Processor.Unit.PerformOne: data movement, logic, shifts, arithmetic and bit instructions are one arbitrary effect on registers, memory, flags and program counter that keeps the interrupt mask; no hardware meaning is claimed for them.
- Walker.Walker.RunNextInstruction: the same; everything around those instructions is modelled.
- Compare.CompareThenBranch: BRN is excluded; its 8-bit form stops the emulator and its 16-bit form resumes inside its own displacement.
- Nesting.ReturnsToMatchingCall: it is a promise of the program, not of the emulator, that no instruction but a call or a return overwrites an open return address, that the stack pointer moves by whole words, that return addresses do not lie in the registers that the machine writes by itself, and that at most 32768 words are on the stack.
- Runs.HandlerKeepsSaved: excludes handlers that unmask interrupts by LDC, for which it is false (`Runs.UnmaskingLosesSaved`).
- Runs.InterruptsAreTransparent: the same.
- Runs.InterruptedProgramResumes: the same.
- Runs.PassQuarter: a run lets any quarter second be also a half or a whole one; the exact count is in `Walker.Walker.QuarterRtcInterrupt`.
- Runs.HostKeepsPace: for a host that takes a quarter second off before the next step, as the shipped one does; `Runs.ClocksKeepPace` is for any host.
- SessionStore.BackupSurvives: excludes damage between the check and the second read of the session file, where the property is false.
- SessionStore.RunAgrees: excludes damage and a failed synchronization over an older cached image, where the property is false.
- SessionStore.OnlySavesAreAccepted: the digest is a name for its input and property lists decode to what was encoded; SHA-256, the list format and the date of a save are not modelled.
- AudioRing.CallbackPlaysInOrder: samples are raw; volume scaling is floating point and not part of this model.
- AudioRing.PWAudio.Render: the same.
- IrWire.BytesAreConserved: a wire is one connection; a reconnect starts a new one.
- Emulator.PWEmulator.Run: the core behind the adapter is any step that transmits bytes and takes 1 to 255 cycles or throws; its source is not part of this model, nor is what it does with received bytes.
- Emulator.PWEmulator.ClearIr: the core's own receive buffer, which is cleared too, is not part of this model.
- IrPath.HeardIsPublished: a device whose core threw goes on hearing behind the bytes that it lost, so nothing is claimed for it.
- Walker.Walker.HostLoop: ends after a given number of turns; the source's loop ends when its window is closed.
- Counters of cycles are unbounded; the source's 64-bit counters would take thousands of years to wrap.
- Power loss and unsynchronized disk caches: a crash ends a process, and completed writes stay.
- Meaning of the accelerometer registers, buzzer synthesis, file loading, debug printing, windows and menus.

# A verified model of skynet's runtime and two of its vendored compilers

Skynet runs actors: services with message queues, scheduled onto worker threads, driven by a timer wheel and a
socket thread, and programmed in Lua with LPeg patterns. This project models the parts of it whose correctness rests
on an argument over all inputs or all interleavings, and proves that argument in Dafny. `dafny verify
dfyconfig.toml` checks all of it.

What is proved, hardest first:

- **LPeg** (`LpegTree`, `LpegVm`, `LpegGen`, `LpegRun`, `LpegCorrect`, `LpegPeephole`, `LpegLabels`, `LpegCompile`,
  `LpegCharset`). For every pattern tree without grammars and captures whose loop bodies consume something, the
  bytecode that the compiler generates, with test, follow-set, head-fail and tail optimisations and after the
  peephole pass, makes the backtracking machine return exactly what the PEG semantics of the tree says. The analyses
  that the optimisations rely on are sound, and after the pass no label leads to a jump.
- **Scheduler** (`Scheduler`, `SchedulerInv`, `SchedulerSteps`, `SchedulerRuns`, `SchedulerSends`,
  `SchedulerProgress`, `MessageQueue`). With any number of threads that create, send to, retire and run services,
  every queue is in exactly one place in every reachable state, no two threads run one service, a service runs only
  after it was marked as initialised, and every message comes out once and in order. A message to a service that can
  be found is pushed to it, exactly once; what is taken from its queue is executed, and dropped only after its
  context has been freed; and from every reachable state the run can go on so that all messages of a service that
  can be found and is marked are executed. No queue is used after it was freed, and no context by a thread that has a reference to
  it. But `skynet_context_new` goes on using the new context after it has let go of its reference
  (`skynet-src/skynet_server.c:203-214`): `SchedulerRuns.LateWrite` and `LateRead` are runs in which it has been
  freed by then, and `AliveExactly` says exactly when it has not.
- **Sockets** (`TcpWire`, `TcpSocket`, `TcpBuffers`, `TcpEvents`, `TcpPackages`, `TcpOrder`, `TcpRuns`,
  `TcpClosing`, `TcpDelivery`, `TcpStates`). The bytes on a TCP connection are whole packages back to back, with at
  most one unfinished, *if and only if* no sender wins one race: `force_close` frees the send lists before it takes
  the lock (`skynet-src/socket_server.c:531-535`), so a direct write that gets in between follows a package that was
  cut off. `TcpRuns.RaceTears` is a run in which it happens. Without the race nothing is interleaved; with or
  without it no package is lost or written twice, `wb_size` is exact, SOCKET_CLOSE is reported at most once and no
  data after it. A package of high priority is not overtaken by one whose sending began after its own had ended,
  which takes both looks of `socket_server_send`, the one before and the one under the lock. `sending` counts every
  direct write that was cut short for ever, so a close with nothing left to send closes the socket at once if and
  only if there was none, and after 65535 of them senders wait for ever (`TcpClosing`). A package is given up only
  if the socket is closed or nobody takes it; in a run without a close or a failed write every package is written
  (`TcpDelivery`).
- **Timer** (`TimerWheel`, `Timer`). The 256 + 4×64 slot wheel over a wrapping clock dispatches, over every sequence
  of timeouts and ticks, every timer once, at exactly its tick, timers of one tick in the order in which they were
  added.
- **Locks** (`RwLock`, `Stm`, `StmReads`). With C11 atomics the reader/writer spin lock excludes *only* as long as
  no two write sections overlap: a failed `ATOM_CAS` (`skynet-src/atomic.h:34`) overwrites the `clear` of `wlock`
  (`skynet-src/rwlock.h:38-39`), so a writer that has to wait gets in at its second try, whoever is inside.
  `RwLock.RunExclusive` says exactly when there has never been more than one owner, `ApartExclusive` and
  `SyncExclusive` are the conditions under which there never is, and `OverlapBreaks` goes on from any overlap to two
  owners. The reference counts of the STM cell on this lock are exact under the same conditions, which its one
  writer object meets: a copy is freed once and never while held. A read delivers the copy that the cell had at some
  moment during the read, and never one older than an update that had ended before (`StmReads`). `Stm.FreedTwice` is
  a run of two updates at the same time that free a copy twice.
- **Indexes** (`Sharedata`, `Handle`). The frozen hash table and the handle and name tables agree with plain maps.
  When the 24-bit handle index wraps, the scan misses slot 0; `Handle.HandleStorage.Register` says exactly when that
  matters, and `Handle.WrapReadsNull` gets there. A new context has its handle only after the section that
  registered it; `Handle.LateMeets` and `LatePlaced` say exactly when a rehash in between fails its assertion or
  loses a context.
- **Codecs and arithmetic** (`Netpack`, `Seri`, `DesStandard`, `Des`, `DesProof`, `DiffieHellman`, `LuaLines`).
  Framing over any chunking, serialisation, DES with both paddings and the Lua line table are undone by their
  readers. The cipher is the Data Encryption Standard (FIPS 46-3) for every key and block: `DesProof.CryptIsDes`
  ties the tables of the code to those that the standard prints. Integers are packed in the shortest form. Modular
  powers are exact except for one input, and Diffie-Hellman agrees. `LuaLines.RemoveExact` says exactly when line
  removal keeps the table usable.

Protocols between threads are transition systems with one step for each lock section or atomic operation. Objects
that the C code changes in place are classes whose methods are proved against values. The results of system calls
are arguments. Where a comment in the code promises more than the code does, the model follows the code.

## Model

| member | source | states |
|---|---|---|
| LpegTree.NoFailSound | 3rd/lpeg/lpcode.c:196-230 | a tree that `checkaux` calls nofail matches everywhere |
| LpegTree.NotNullableConsumes | 3rd/lpeg/lpcode.c:196-230 | a match of a tree that is not nullable consumes at least one character |
| LpegTree.FixedLenSound | 3rd/lpeg/lpcode.c:236-273 | when `fixedlen` is n, every match consumes exactly n characters |
| LpegTree.GetFirstSound | 3rd/lpeg/lpcode.c:294-370 | the first set covers the next character of every match that consumes or that a character of the follow set comes after |
| LpegTree.ToCharsetSound | 3rd/lpeg/lpcode.c:107-125 | a tree that is a charset matches exactly one character of the set |
| LpegTree.NotEmptyFailsAtEnd | 3rd/lpeg/lpcode.c:294-370 | a tree whose first set does not accept the empty string fails at the end of the subject |
| LpegTree.NoFailFirstIsFull | 3rd/lpeg/lpcode.c:294-370 | a tree that never fails has the full first set under a full follow set |
| LpegTree.HeadFailExact | 3rd/lpeg/lpcode.c:377-399 | a head-failing tree matches at i if and only if i is inside the subject and the character there is in the first set |
| LpegVm.EndsOneWay | 3rd/lpeg/lpvm.c:149-294 | a run of the machine has at most one end |
| LpegCorrect.GenSound | 3rd/lpeg/lpcode.c:919-944 | the code of a tree, generated under any follow set, test and tail flag, carries the machine to where the PEG semantics says, or fails, or ends in a state from which it fails whenever the follow set excludes the next character |
| LpegCorrect.SeqSound | 3rd/lpeg/lpcode.c:899-911 | the same for sequences, with the follow set of the first part taken from the second |
| LpegCorrect.TestChoiceSound | 3rd/lpeg/lpcode.c:677-693 | the same for a choice decided by one test |
| LpegCorrect.PlainChoiceSound | 3rd/lpeg/lpcode.c:699-712 | the same for a choice that backtracks |
| LpegCorrect.TailOptionSound | 3rd/lpeg/lpcode.c:694-698 | the same for a choice with the empty pattern that reuses the enclosing choice |
| LpegCorrect.FirstBranchSound | 3rd/lpeg/lpcode.c:699-712 | the first branch under a choice commits exactly when it matches |
| LpegCorrect.TestLoopSound | 3rd/lpeg/lpcode.c:785-794 | a loop that a test ends repeats exactly as often as its body matches |
| LpegCorrect.CommitLoopSound | 3rd/lpeg/lpcode.c:795-813 | a loop of partial commits leaves the last position that its body reached |
| LpegCorrect.ChoiceLoopSound | 3rd/lpeg/lpcode.c:795-813 | a loop under a choice, its own or the enclosing one, is a repetition |
| LpegCorrect.SpanIsRep | 3rd/lpeg/lpcode.c:780-783 | a span over a charset is a repetition of it |
| LpegCorrect.NotSound | 3rd/lpeg/lpcode.c:823-837 | the code of a negative predicate, with and without head fail |
| LpegCorrect.AndSound | 3rd/lpeg/lpcode.c:720-736 | the code of a predicate, by stepping back a fixed length or by back commit |
| LpegCorrect.BehindSound | 3rd/lpeg/lpcode.c:659-663 | the code of look-behind |
| LpegCorrect.GenPatternSound | 3rd/lpeg/lpcode.c:1001-1010 | running the code of a whole pattern ends matched at j if and only if the semantics matches up to j, and gives up if and only if it fails |
| LpegPeephole.RewriteSimulates | 3rd/lpeg/lpcode.c:956-995 | one rewrite of the peephole pass is simulated step by step |
| LpegPeephole.RewriteKeepsRuns | 3rd/lpeg/lpcode.c:956-995 | so it changes no result of any run |
| LpegPeephole.LabelRewrite | 3rd/lpeg/lpcode.c:641-653 | redirecting a label to the end of a chain of jumps is such a rewrite |
| LpegPeephole.JumpAwayRewrite | 3rd/lpeg/lpcode.c:968-976 | so is replacing a jump to an unconditional return or failure |
| LpegPeephole.JumpCommitRewrite | 3rd/lpeg/lpcode.c:977-983 | so is replacing a jump to a commit by a commit |
| LpegLabels.GenLabels | 3rd/lpeg/lpcode.c:919-944 | every label in generated code leads to an instruction of it |
| LpegLabels.PatternRanked | 3rd/lpeg/lpcode.c:641-645 | chains of jumps in generated code have an end, so following them terminates |
| LpegCompile.CompileState.CodeCharset | 3rd/lpeg/lpcode.c:588-605 | appends the code of a charset, which a dominating test may shorten |
| LpegCompile.CompileState.CodeTestSet | 3rd/lpeg/lpcode.c:614-635 | appends the test of a first set |
| LpegCompile.CompileState.CodeGen | 3rd/lpeg/lpcode.c:919-944 | appending and patching in place yields exactly the generated code |
| LpegCompile.CompileState.CodeChoice | 3rd/lpeg/lpcode.c:677-712 | the same for choices |
| LpegCompile.CompileState.CodeRep | 3rd/lpeg/lpcode.c:777-813 | the same for repetitions |
| LpegCompile.CompileState.CodeNot | 3rd/lpeg/lpcode.c:823-837 | the same for negative predicates |
| LpegCompile.CompileState.CodeAnd | 3rd/lpeg/lpcode.c:720-736 | the same for predicates |
| LpegCompile.CompileState.CodeBehind | 3rd/lpeg/lpcode.c:659-663 | the same for look-behind |
| LpegCompile.CompileState.FindFinalTarget | 3rd/lpeg/lpcode.c:641-645 | the end of a chain of jumps |
| LpegCompile.CompileState.Peephole | 3rd/lpeg/lpcode.c:956-995 | the pass over the code in place changes no result of any run; after it no label leads to a jump, and no jump to an instruction that could stand in its place |
| LpegCompile.Compile | 3rd/lpeg/lpcode.c:1001-1010 | the compiled code ends every run as the semantics says, and all its labels are as the peephole pass leaves them |
| LpegCompile.RunMatch | 3rd/lpeg/lpvm.c:149-294 | the interpreter loop returns the end of the run of the machine |
| LpegCompile.CompileAndMatch | 3rd/lpeg/lpvm.c:149-294 | compiling and matching is the PEG semantics, for every tree, subject and start |
| LpegCharset.ScanCharset | 3rd/lpeg/lpcode.c:41-82 | the scan of a 32-byte bit table finds out whether the set is empty, one character, full or neither |
| SchedulerSteps.StepInv | skynet-src/skynet_server.c:156-440 | every step of every thread, the late ones of a creator included, keeps the invariant: exact reference counts, one place for each queue, contents in order, and only marked services run |
| SchedulerSteps.FoundIsMarked | skynet-src/skynet_server.c:203-209 | a worker that finds the context of its queue finds `init` set |
| SchedulerRuns.RunInv | skynet-src/skynet_mq.c:61-307 | the invariant holds in every state of every run |
| SchedulerRuns.ExactlyOnePlace | skynet-src/skynet_mq.c:61-98 | a queue not freed is once in the global list, held by one thread, or idle, empty and flagged as not in the list |
| SchedulerRuns.OneWorker | skynet-src/skynet_server.c:374-440 | two threads never run the same service |
| SchedulerRuns.TaskSafe | skynet-src/skynet_server.c:243-299 | the queue that a thread holds and the context that it has a reference to are not freed, and what it is about to put on the global list is not on it |
| SchedulerRuns.AliveExactly | skynet-src/skynet_server.c:203-214 | a context is freed if and only if it is not registered and no thread has a reference to it or is deleting it; the accesses that a creator makes after its release are safe exactly until then |
| SchedulerRuns.LateWrite | skynet-src/skynet_server.c:203-206 | a run in which the creator is about to write `init` to a context that has been freed |
| SchedulerRuns.LateRead | skynet-src/skynet_server.c:208-214 | a run in which the caller is about to read the handle from a context that has been freed |
| SchedulerRuns.StepAdvances | skynet-src/skynet_mq.c:173-307 | messages leave from the front, through the holder only; a queue is freed by its holder, off the list, with its context gone and all messages taken |
| SchedulerRuns.HistoryGrows | skynet-src/skynet_mq.c:235-307 | what was pushed and taken earlier is a prefix of what was pushed and taken later, and a freed queue stays as it is |
| SchedulerRuns.RunSafe | skynet-src/skynet_server.c:325-440 | all of this for every state of every run, with `init` set whenever a service runs, and with the exact condition for the late accesses |
| SchedulerSends.SentOnce | skynet-src/skynet_server.c:288-299 | a thread that was asked to send a message and has finished looked the service up once; if it was registered then, that message was pushed to it, exactly once, and otherwise nothing was |
| SchedulerSends.TakenExactly | skynet-src/skynet_server.c:374-440 | in every state of every run, the messages taken from a queue are those that were executed, and after them those that were dropped; none is dropped before the context has been freed |
| SchedulerSends.WorkerTakes | skynet-src/skynet_server.c:395-430 | a worker with the context takes the message at the front and runs the callback, or finds the queue idle |
| SchedulerSends.RetiredSince | skynet-src/skynet_handle.c:94-134 | once a thread that was asked to retire a service has taken a step, nobody finds the service any more |
| SchedulerProgress.RunTells | skynet-src/skynet_server.c:203-299 | in every state of every run, whoever gives a queue up has one that nobody finds, and whoever still creates one has not marked it |
| SchedulerProgress.CanExecuteAll | skynet-src/skynet_server.c:374-440 | every run in which a service can be found and is marked can go on so that all messages pushed to it by then are executed, in order |
| SchedulerProgress.CanFree | skynet-src/skynet_mq.c:284-307 | a queue on the global list of which the context has been freed can be freed |
| MessageQueue.Queue.Add | skynet-src/skynet_mq.c:235-250 | a message goes to the end of the ring, through wrap and expansion |
| MessageQueue.Queue.Push | skynet-src/skynet_mq.c:235-257 | and the queue onto the global list if it was not on its way |
| MessageQueue.Queue.Pop | skynet-src/skynet_mq.c:173-213 | the oldest message, or empty and flagged; the overload mark, and its threshold, which is doubled as often as it takes to cover the length |
| MessageQueue.Queue.Expand | skynet-src/skynet_mq.c:217-231 | a full ring is copied out in order |
| MessageQueue.Queue.Count | skynet-src/skynet_mq.c:142-158 | the computed length is the number of messages |
| MessageQueue.Queue.MarkRelease | skynet-src/skynet_mq.c:271-280 | marks the queue and wakes it |
| MessageQueue.Queue.DropAll | skynet-src/skynet_mq.c:284-291 | drops what is left, in order, and leaves nothing |
| MessageQueue.GlobalQueue.Push | skynet-src/skynet_mq.c:61-76 | the linked list grows at its tail |
| MessageQueue.GlobalQueue.Pop | skynet-src/skynet_mq.c:79-98 | and loses its head, which comes off unlinked |
| TcpWire.UnbrokenIsFlat | skynet-src/socket_server.c:793-829 | a wire on which no byte interrupts a package is whole packages and at most one unfinished |
| TcpWire.SendListKeepsPackages | skynet-src/socket_server.c:793-829 | sending a list finishes packages in order, begins at most one, loses none, and the unsent bytes decrease by those written |
| TcpWire.SendListTcp | skynet-src/socket_server.c:793-829 | the loop over the list, for every sequence of results of `write` |
| TcpBuffers.SendBufferSound | skynet-src/socket_server.c:972-1068 | sending both lists keeps buffers, size and wire right: high first, an unfinished low package is raised, what a direct write left goes first |
| TcpBuffers.DirectWriteSound | skynet-src/socket_server.c:2061-2143 | so does a direct write by another thread under the lock |
| TcpBuffers.SendSocketSound | skynet-src/socket_server.c:1144-1223 | so does adding a package without the lock |
| TcpEvents.EventsStep | skynet-src/socket_server.c:1285-1378 | every handler keeps what was reported in order |
| TcpRuns.NextInv | skynet-src/socket_server.c:1863-1998 | every step of the socket thread and of the senders keeps the whole invariant |
| TcpRuns.WholePackages | skynet-src/socket_server.c:793-829 | in every state of every run the wire is unbroken if and only if no sender has written between the freeing of a half-sent list and the closing of the descriptor; then it is the finished packages in order and the one begun |
| TcpRuns.RaceTears | skynet-src/socket_server.c:519-554 | a run in which that happens |
| TcpRuns.SizeIsUnsent | skynet-src/socket_server.c:1072-1115 | `wb_size` is the number of unsent bytes in both lists |
| TcpRuns.CloseOnce | skynet-src/socket_server.c:1275-1315 | SOCKET_CLOSE is reported at most once, and no SOCKET_DATA after it |
| TcpRuns.EachPackageOnce | skynet-src/socket_server.c:2061-2167 | every package ever sent is in exactly one place, so none is written twice, and if none was given up all are written once nothing is under way |
| TcpOrder.NextLook | skynet-src/socket_server.c:2054-2077 | each read before a direct write that goes on rules out one more place where an earlier package may still be |
| TcpOrder.DirectOrder | skynet-src/socket_server.c:2077-2119 | a direct write comes behind all packages that precede it |
| TcpOrder.SendSocketOrder | skynet-src/socket_server.c:1144-1223 | a package comes out of the pipe behind all packages that precede it |
| TcpRuns.NotOvertaken | skynet-src/socket_server.c:1251-1254 | a package of high priority that left its sender before another was issued is written first or given up |
| TcpRuns.AssertionsHold | skynet-src/socket_server.c:933-1009 | the assertions of the send path, that of `raise_uncomplete` included, hold in every reachable state |
| TcpClosing.NextSending | skynet-src/socket_server.c:1486-1519 | no step changes the difference between `sending` and the packages on their way, but the one that counts a command for a direct write that was cut short |
| TcpClosing.SendingExact | skynet-src/socket_server.c:1556-1564 | in every state of every run `sending` is the number of packages on their way and of direct writes ever cut short |
| TcpClosing.CloseExact | skynet-src/socket_server.c:1275-1315 | with nothing left to send and nothing on its way, a close without shutdown closes the socket at once if and only if it is half closed for writing or no direct write was ever cut short; otherwise it stays open without reading |
| TcpClosing.NeverDone | skynet-src/socket_server.c:1251-1254 | after such a write `nomore_sending_data` never holds again, except for a socket half closed for writing |
| TcpClosing.LeftOpen | skynet-src/socket_server.c:1275-1315 | a run in which all is written, nothing is on its way, and the close leaves the socket open |
| TcpClosing.SendersWait | skynet-src/socket_server.c:1487-1508 | after 65535 direct writes that were cut short every thread that is about to count a command waits for ever |
| TcpDelivery.GivenUpWhy | skynet-src/socket_server.c:1144-1164 | a step gives a package up only if the socket is closing or closed, or is being closed by it, or if nobody takes what is written |
| TcpDelivery.NothingGivenUp | skynet-src/socket_server.c:1144-1223 | in a run without a close, a failed write or an end of the connection no package is given up, also after the peer has shut down its side |
| TcpDelivery.AllWritten | skynet-src/socket_server.c:2061-2167 | so when nothing is under way in such a run, every package ever sent has been written, once |
| TcpDelivery.SendsAll | skynet-src/socket_server.c:972-1068 | when the kernel takes all, one call sends everything: what a direct write left, then the high list, then the low one |
| TcpDelivery.DataReported | skynet-src/socket_server.c:1588-1659 | in every run each piece of data read before the peer shuts down its side is reported once, and nothing else as data |
| TcpStates.OpensExactly | skynet-src/socket_server.c:1339-1375 | a socket that waits to be opened stays so until it is started or connected, or closed; then it is connected or listens, and that is reported |
| TcpStates.FailuresReported | skynet-src/socket_server.c:762-788 | whatever fails is reported as an error, at once or with the close that it causes |
| TcpStates.EndOfStream | skynet-src/socket_server.c:1588-1650 | the end of the stream closes a socket that is being closed exactly when nothing is left to send, and one that can send no more; any other one goes on sending |
| TcpStates.ClosesAtOnce | skynet-src/socket_server.c:1275-1303 | a shutdown closes the socket, whatever is left to send, and reports it unless the end was reported before |
| TcpStates.ClosesLater | skynet-src/socket_server.c:1305-1315 | a close that has to wait keeps the lists, reads no more, and reports the close unless the end was reported before |
| TcpStates.AcceptsReported | skynet-src/socket_server.c:1779-1822 | what happens on a listening socket is reported |
| TcpStates.QueueOrder | skynet-src/socket_server.c:1144-1210 | a package of low priority waits behind all others, one of high priority behind those of high priority, and one that finds nothing waiting is not overtaken |
| TcpStates.KeepsPriority | skynet-src/socket_server.c:2061-2167 | a package keeps its priority on its way to the pipe |
| TcpStates.WritesWhenIdle | skynet-src/socket_server.c:2053-2077 | a sender writes directly only after a moment when no package was on its way through the pipe |
| TimerWheel.OrMaskComparesPrefixes | skynet-src/skynet_timer.c:84-102 | two times with the bits of a mask set are equal if and only if their upper bits are, with bitwise or defined bit by bit |
| TimerWheel.LowBits | skynet-src/skynet_timer.c:84-148 | setting and keeping the low bits of a number, as arithmetic |
| TimerWheel.SlotStays | skynet-src/skynet_timer.c:84-148 | a pending node is at every tick in the slot that `add_node` would choose, except in the one list that the tick moves |
| TimerWheel.SchedExact | skynet-src/skynet_timer.c:105-115 | the schedule names each timer once, at the tick that is its delay after its adding, in order of adding |
| TimerWheel.DispatchedOnce | skynet-src/skynet_timer.c:182-194 | in the log of a run every timer whose tick has passed is at one place, at that tick, and nowhere else |
| TimerWheel.NothingElseDispatched | skynet-src/skynet_timer.c:169-194 | everything in the log is there for a timer due at that tick, in the order of adding |
| TimerWheel.EventDispatchedOnce | skynet-src/skynet_timer.c:182-194 | an event that only one timer has is in the log at exactly one place |
| TimerWheel.CurrentIsDue | skynet-src/skynet_timer.c:169-179 | the current slot holds exactly what is due now |
| TimerWheel.AddKeepsInv | skynet-src/skynet_timer.c:105-115 | adding a timer keeps every list what the schedule says |
| TimerWheel.ShiftKeepsInv | skynet-src/skynet_timer.c:128-148 | so does a tick, which moves one list |
| TimerWheel.ClearKeepsInv | skynet-src/skynet_timer.c:169-179 | so does taking the current list |
| Timer.LevelOf | skynet-src/skynet_timer.c:92-101 | for a timer outside the near slots, the loop of bit tests ends at the level, and at the slot in it, where the specification puts the timer |
| Timer.Wheel.AddNode | skynet-src/skynet_timer.c:84-102 | by the bit tests, the node goes to the end of the one list that the specification calls for, and every other list stays |
| Timer.Wheel.TimerAdd | skynet-src/skynet_timer.c:105-115 | a timer is added to the lists and to the history |
| Timer.Wheel.Timeout | skynet-src/skynet_timer.c:224-243 | no delay is immediate, every other one is added |
| Timer.Wheel.MoveList | skynet-src/skynet_timer.c:118-125 | a list is emptied and its nodes added again, in order |
| Timer.Wheel.TimerShift | skynet-src/skynet_timer.c:128-148 | the loop finds the one list to move, also when the clock wraps |
| Timer.Wheel.TimerExecute | skynet-src/skynet_timer.c:169-179 | what is due is dispatched, and the history goes on with what other threads add meanwhile, which does not come to the current slot |
| Timer.Wheel.TimerUpdate | skynet-src/skynet_timer.c:182-194 | a tick dispatches exactly the timers that are due, in order, and the new history is the old one, the tick, and what was added meanwhile |
| Timer.RunTimer | skynet-src/skynet_timer.c:182-243 | for every sequence of timeouts and ticks, of any length and through wraps of the clock, the log of what each tick dispatched is what the history of all calls calls for |
| Timer.CallDispatchedOnce | skynet-src/skynet_timer.c:182-243 | in terms of the calls: a timer whose event is its own is in the log at one place, at the number of updates before its call plus its delay |
| RwLock.NextInv | skynet-src/rwlock.h:21-53 | every atomic step, with either meaning of `ATOM_CAS`, keeps the counts and the exclusion, except a compare-and-swap that succeeds on a lock that is taken |
| RwLock.RunExclusive | skynet-src/rwlock.h:21-53 | in every run of any number of threads, there has never been more than one owner if and only if no compare-and-swap has succeeded on a taken lock; and then no writer was inside together with anybody else |
| RwLock.SyncExclusive | skynet-src/atomic.h:15 | without C11 atomics the lock excludes in every run |
| RwLock.ApartExclusive | skynet-src/rwlock.h:36-47 | with either meaning it excludes in every run in which no two threads are between the start of `wlock` and the end of `wunlock` |
| RwLock.TwoTries | skynet-src/atomic.h:34 | with C11 atomics a thread in the loop of `wlock` gets past it with two tries, whatever the state of the lock |
| RwLock.OverlapBreaks | skynet-src/rwlock.h:36-41 | every run in which two write sections overlap can go on to two owners |
| RwLock.TwoWritersInside | skynet-src/rwlock.h:36-47 | a run with two writers inside, and after the unlock of the first with a reader beside the second |
| Stm.StmNextInv | lualib-src/lua-stm.c:26-115 | every step that does not steal the lock keeps: the count of a copy is the number of its holders |
| Stm.HeldIsAlive | lualib-src/lua-stm.c:206-235 | where that holds, a copy that somebody holds, or has loaded inside the lock, has not been freed |
| Stm.FreedOnce | lualib-src/lua-stm.c:48-71 | where that holds, a copy is freed when nobody holds it, and once |
| Stm.NotLeaked | lualib-src/lua-stm.c:48-55 | where that holds, a copy that nobody holds or is about to free has been freed |
| Stm.StmRunSafe | lualib-src/lua-stm.c:94-235 | in every run this has held so far if and only if the lock was never stolen |
| Stm.ApartSafe | lualib-src/lua-stm.c:156-198 | so it holds in every state of every run in which one thread at a time updates or releases the cell |
| Stm.SyncSafe | skynet-src/atomic.h:15 | and in every run without C11 atomics |
| Stm.FreedTwice | lualib-src/lua-stm.c:107-117 | a run with C11 atomics in which two updates overlap: one copy is released by both, freed, and about to be freed again, and another is lost |
| StmReads.ReadDelivers | lualib-src/lua-stm.c:92-104 | a read ends with its reader holding the copy that the cell pointed to at some moment between its start and its end |
| StmReads.NeverOlder | lualib-src/lua-stm.c:206-235 | a read that starts after a store delivers what was stored, or what a later store put in its place, and nothing older |
| StmReads.LatestDelivered | lualib-src/lua-stm.c:206-235 | when nothing is stored during the read, it is the copy stored last |
| StmReads.UpdateEnds | lualib-src/lua-stm.c:107-117 | an update that has ended has stored its own copy |
| StmReads.ThenFreed | lualib-src/lua-stm.c:58-104 | a run in which a cell is read, retired, and its copy freed with the last reader |
| Sharedata.CountSize | lualib-src/lua-sharedata.c:68-89 | there are as many slots as keys outside the array part |
| Sharedata.PlaceMain | lualib-src/lua-sharedata.c:213-235 | a key that is first at its main position starts a chain |
| Sharedata.Link | lualib-src/lua-sharedata.c:238-273 | a colliding key goes into the chain of its main position, and all chains stay acyclic and apart |
| Sharedata.FreeSlot | lualib-src/lua-sharedata.c:250-260 | while a key is missing a slot is free, so the assertion holds |
| Sharedata.AllFull | lualib-src/lua-sharedata.c:278-326 | when all keys are in, all slots are taken |
| Sharedata.Table.constructor | lualib-src/lua-sharedata.c:278-326 | the table holds the map, for every order in which the keys come; integer keys are 32-bit |
| Sharedata.Table.FillNoColliding | lualib-src/lua-sharedata.c:213-235 | the first pass |
| Sharedata.Table.FillColliding | lualib-src/lua-sharedata.c:238-273 | the second pass |
| Sharedata.Table.LookupKey | lualib-src/lua-sharedata.c:503-531 | terminates and finds a key if and only if the map has it |
| Sharedata.Table.Index | lualib-src/lua-sharedata.c:534-567 | answers as the map does |
| Sharedata.Table.NextKey | lualib-src/lua-sharedata.c:591-647 | the key that comes next in the traversal |
| Sharedata.Table.TraversalComplete | lualib-src/lua-sharedata.c:591-647 | the traversal visits every key of the map exactly once |
| Handle.ScanCovers | skynet-src/skynet_handle.c:50-68 | a scan that does not wrap looks at every slot, one that wraps at every slot but 0 |
| Handle.ScanMisses | skynet-src/skynet_handle.c:55-58 | a scan that wraps does not look at slot 0 |
| Handle.FreeSlotMissed | skynet-src/skynet_handle.c:55-58 | a valid table with a free slot that no scan from that index finds |
| Handle.RehashStep | skynet-src/skynet_handle.c:78-82 | in the larger table no two contexts meet |
| Handle.LateMeets | skynet-src/skynet_handle.c:78-82 | when some contexts do not have their handle yet, the assertion of the rehash fails if and only if two do not have it, or one does not and the context in slot 0 stays there |
| Handle.LatePlaced | skynet-src/skynet_handle.c:78-82 | and every context goes to its place if and only if at most the one in slot 0 does not have it, and stays there |
| Handle.LateExample | skynet-src/skynet_server.c:190-191 | a table of four in which the rehash loses a context, or fails |
| Handle.HandleStorage.Register | skynet-src/skynet_handle.c:45-89 | the first free handle from the index on, which was not in use, is added to the map; expansion only when full; a null context is read exactly when the scan wraps and only slot 0 is free |
| Handle.WrapReadsNull | skynet-src/skynet_handle.c:50-82 | a sequence of registering and retiring from the start after which a null context is read |
| Handle.HandleStorage.Expand | skynet-src/skynet_handle.c:70-86 | the rehashed table holds the same map |
| Handle.HandleStorage.Retire | skynet-src/skynet_handle.c:94-134 | the handle leaves the map, and its names with it |
| Handle.HandleStorage.Grab | skynet-src/skynet_handle.c:164-183 | looks up the map |
| Handle.HandleStorage.FindName | skynet-src/skynet_handle.c:187-216 | binary search looks up the map of names |
| Handle.HandleStorage.NameHandle | skynet-src/skynet_handle.c:219-291 | a new name is added in order, a name in use is refused |
| Handle.HandleStorage.Compact | skynet-src/skynet_handle.c:107-121 | the names of a handle are taken out and the rest stays sorted |
| Netpack.ParseAppend | lualib-src/lua-netpack.c:189-215 | parsing may stop anywhere and go on with the bytes left over |
| Netpack.PackFormat | lualib-src/lua-netpack.c:437-452 | two bytes for the length, the high one first, and the message; a longer one is refused |
| Netpack.ParseFormat | lualib-src/lua-netpack.c:189-215 | a stream has a first package exactly when its first two bytes say so |
| Netpack.ParsePacked | lualib-src/lua-netpack.c:437-452 | packed messages parse as themselves |
| Netpack.Filter.FindUncomplete | lualib-src/lua-netpack.c:93-114 | takes the record of a connection out of its chain |
| Netpack.Filter.SaveUncomplete | lualib-src/lua-netpack.c:170-180 | puts one in |
| Netpack.Filter.PushData | lualib-src/lua-netpack.c:151-167 | a package goes to the end of the growing ring |
| Netpack.Filter.PushMore | lualib-src/lua-netpack.c:189-215 | the rest of a chunk is parsed into the queue |
| Netpack.Filter.FilterData | lualib-src/lua-netpack.c:228-307 | a chunk gives the packages that it completes, as the parse of the bytes kept and the chunk |
| Netpack.Filter.PopData | lualib-src/lua-netpack.c:397-410 | the oldest package |
| Netpack.FilterAll | lualib-src/lua-netpack.c:228-307 | for all connections, chunks and interleavings the packages of a connection are the parse of its stream |
| Netpack.PackedComesBack | lualib-src/lua-netpack.c:437-452 | what was packed comes back |
| Seri.ReadIntegerBack | lualib-src/lua-seri.c:143-174 | every 64-bit integer comes back from its bytes |
| Seri.ShortestInteger | lualib-src/lua-seri.c:143-174 | no shorter sequence of bytes, under any cookie, is read as the same integer |
| Seri.StreamFormat | lualib-src/lua-seri.c:128-213 | the byte for each type and length, and the bytes after it, as numbers |
| Seri.DepthLimit | lualib-src/lua-seri.c:297-340 | thirty-two levels of tables can be packed, and no more |
| Seri.ReadStringBack | lualib-src/lua-seri.c:191-213 | every string comes back |
| Seri.ReadBack | lualib-src/lua-seri.c:297-340 | every value, nested tables included, comes back, whatever follows it |
| Seri.ReadAllBack | lualib-src/lua-seri.c:556-597 | so does every list of values |
| Seri.WriteBlock.Push | lualib-src/lua-seri.c:66-85 | bytes go to the end of the block list, over as many blocks as it takes |
| Seri.WriteBlock.Flatten | lualib-src/lua-seri.c:535-553 | the flattened blocks are the bytes pushed |
| Seri.PackOne | lualib-src/lua-seri.c:297-340 | writes the bytes of a value, and fails exactly when tables are nested too deeply |
| Seri.Pack | lualib-src/lua-seri.c:600-612 | the same for a list of values |
| Seri.PackedComesBack | lualib-src/lua-seri.c:556-612 | whatever can be packed is unpacked to the same values |
| Des.PermutationsInverse | lualib-src/lua-crypt.c:208-230 | the final and the initial permutation undo each other |
| Des.RoundsUndo | lualib-src/lua-crypt.c:232-247 | sixteen rounds are undone by sixteen rounds with the subkeys reversed in pairs |
| Des.CryptBlockUndo | lualib-src/lua-crypt.c:321-342 | so is the encryption of a block |
| Des.PadPads | lualib-src/lua-crypt.c:380-406 | the padding that is added is recognised |
| Des.RemoveIso7816 | lualib-src/lua-crypt.c:386-400 | the length found is the only one at which the text ends in a padding |
| Des.RemovePkcs7 | lualib-src/lua-crypt.c:409-418 | the same for the other padding; it reads in front of the text if and only if all its bytes are the same and larger than its length |
| Des.OverlongExample | lualib-src/lua-crypt.c:488-511 | under every key some message of one block makes it read there |
| Des.ReverseKeys | lualib-src/lua-crypt.c:488-496 | the subkeys in reverse, two by two |
| Des.DesEncode | lualib-src/lua-crypt.c:462-485 | encrypts the padded text block by block, which by `DesProof.EncodeIsDes` is the standard's encipherment |
| Des.DesDecode | lualib-src/lua-crypt.c:488-517 | decrypts, as `DesProof.DecodeIsDes` says, and takes the padding off, and fails exactly when there is none or a length is wrong |
| Des.EncodedIsPadded | lualib-src/lua-crypt.c:462-517 | an encoded text decrypts to itself and its padding |
| Des.RoundTrip | lualib-src/lua-crypt.c:462-517 | decoding what was encoded gives the text, for every key, text and padding |
| DesProof.InitialIsIP | lualib-src/lua-crypt.c:208-217 | the first macro is the table IP of the standard, with both halves rotated |
| DesProof.FinalIsInverseIP | lualib-src/lua-crypt.c:221-230 | the last one is the inverse table |
| DesProof.MixIsCipher | lualib-src/lua-crypt.c:234-247 | what a round mixes in is the cipher function of the standard: E, the eight selection functions, and P |
| DesProof.KeyMatches | lualib-src/lua-crypt.c:252-315 | the subkeys are those of the standard: permuted choice 1, the shifts, permuted choice 2 |
| DesProof.CryptIsDes | lualib-src/lua-crypt.c:321-342 | for every key and block, the block is enciphered as the standard says |
| DesProof.EncodeIsDes | lualib-src/lua-crypt.c:462-485 | every block of an encoded text is the standard's encipherment of the padded text's |
| DesProof.DecodeIsDes | lualib-src/lua-crypt.c:488-511 | what is decoded is the text of which every block is enciphered to the code's |
| DiffieHellman.MulModP | lualib-src/lua-crypt.c:796-815 | the product modulo P, in spite of overflow |
| DiffieHellman.PowModP | lualib-src/lua-crypt.c:818-828 | the power modulo P for every exponent but 1, for which the base comes back |
| DiffieHellman.PowMod | lualib-src/lua-crypt.c:832-836 | the power modulo P if and only if not (base is P and exponent is 1) |
| DiffieHellman.GeneratorPower | lualib-src/lua-crypt.c:871-888 | no power of the generator is zero modulo P |
| DiffieHellman.FirstPowers | lualib-src/lua-crypt.c:868-888 | the first powers of the generator are those of 5, all different, and the first one over the modulus is reduced by it |
| DiffieHellman.Exchange | lualib-src/lua-crypt.c:871-888 | a power of the generator, which is never zero, and 5 for the exponent 1; only zero is an error |
| DiffieHellman.Secret | lualib-src/lua-crypt.c:854-866 | zero on either side is an error; otherwise the power modulo P, with the one exception |
| DiffieHellman.Agree | lualib-src/lua-crypt.c:854-888 | both sides get the same secret and no error |
| LuaLines.EstimateIsLow | 3rd/lua/ldebug.c:60-75 | the estimate is a lower bound of the entry looked for |
| LuaLines.GetBaseLine | 3rd/lua/ldebug.c:60-75 | the last absolute entry at or before an instruction |
| LuaLines.GetFuncLine | 3rd/lua/ldebug.c:83-95 | the line last saved for an instruction |
| LuaLines.ChangedLine | 3rd/lua/ldebug.c:800-818 | whether two instructions are on different lines |
| LuaLines.SaveExact | 3rd/lua/lcode.c:328-343 | saving any line works if and only if the line last saved is that of the last instruction or the next entry is forced to be absolute |
| LuaLines.RemoveExact | 3rd/lua/lcode.c:352-364 | removal keeps the table right, and keeps it ready for the next line except in one case |
| LuaLines.EntriesExact | 3rd/lua/lcode.c:328-343 | for every sequence of lines there are absolute entries exactly where the line is 128 away or the last entry 128 instructions back, and the difference, in a signed byte, everywhere else |
| LuaLines.RunReady | 3rd/lua/lcode.c:328-389 | after any sequence of emitting, fixing and replacing, the table holds the line last saved for each instruction |
| LuaLines.ThreeRemovalsBreak | 3rd/lua/lcode.c:352-374 | three removals in a row after which the next line is wrong |
| LuaLines.FuncState.SaveLineInfo | 3rd/lua/lcode.c:328-389 | updates the fields as specified, and keeps a ready generator ready |
| LuaLines.FuncState.RemoveLastLineInfo | 3rd/lua/lcode.c:352-364 | updates the fields as specified, keeps the table right, and keeps the generator ready exactly under the condition of `RemoveExact` |
| LuaLines.FuncState.FixLine | 3rd/lua/lcode.c:1726-1729 | the last instruction gets another line, and the table holds it |

## Left out

- LPeg captures, grammars, run-time captures and their opcodes, and the limit of the backtrack stack: patterns are trees without them.
- LPeg operands: an instruction keeps its offset and charset with its opcode and is followed by padding slots, so that sizes and offsets are those of the code, but not the packing of operands into slots. Charsets are sets of bytes; `LpegCharset.ScanCharset` ties the scan of bit tables to them.
- LpegCompile.RunMatch: takes the number of steps of the run as a ghost argument, since code that the compiler did not make need not terminate.
- Weak memory: atomics are sequentially consistent, and each spin-lock section is one step. Linked lists of timers, buffers and hash chains are sequences.
- Scheduler: the steps that register and retire a service rest on the same assumption about the write lock of the handle table (`skynet-src/skynet_handle.c:48`, `:98`).
- Scheduler: registering a handle and creating the queue of a new service are one step; `skynet_context_dispatchall`, reservation of contexts, session numbers, profiling and overload messages are not modelled. What a callback does is done by other threads of the model.
- MessageQueue.GlobalQueue.Push: requires the queue to be off the list, which the scheduler's invariant provides.
- TcpSocket: covers one TCP id from the adding of its descriptor; reuse of the slot by another id, UDP, address resolution, listening, statistics and the event registration flags are not modelled (events may come at any time, and registration may fail at any time). Whether an event still comes to a socket that a close has left open depends on those flags.
- TcpSocket: a package sent before its connection request was taken is outside the model.
- Stm: the lifetime of the shared object itself is not modelled; two readers that release it can race (`lualib-src/lua-stm.c:74-83`).
- Sharedata: values are opaque, nested tables are converted by the same code one by one, and integer keys are 32-bit: larger ones, which the code truncates (`lualib-src/lua-sharedata.c:196`), cannot be written down.
- Sharedata.Table.NextKey: states the successor of keys that the table has; other keys are not considered.
- Handle.HandleStorage.Register: writes the handle into the context inside its section, the code after it (`skynet-src/skynet_server.c:190-191`); what a rehash in between does is in `Handle.LateMeets` and `Handle.LatePlaced`.
- Handle: each method is one section, which assumes that write sections do not overlap (`RwLock.ApartExclusive`). Many threads take the write lock (`skynet-src/skynet_handle.c:48`, `:98`, `:284`), so with C11 atomics the code does not provide that (`RwLock.OverlapBreaks`).
- Handle: the mask with a power of two is a remainder; `skynet_handle_retireall` is not modelled; names are strings without a terminating zero.
- Netpack: connection numbers are not negative; messages other than data are not modelled.
- Seri: tables with a `__pairs` metamethod (`lualib-src/lua-seri.c:257-278`) are not modelled.
- Seri: values of other types, which cannot be packed, are not modelled; a table is its array part and its list of pairs, not yet a Lua table, so equal keys in a malformed stream are not merged; the stack and memory limits of Lua are not modelled.
- Des: a padding mode is one of the two.
- Seri.ReadLongString: a length of 2^31 or more is an invalid stream here, because no stream is that long; the code turns it into a negative int (`lualib-src/lua-seri.c:505-512`).
- DiffieHellman: that P is prime is neither used nor proved.
- LuaLines: line numbers are unbounded integers.
- Harbor, cluster, gate, datasheet, logging, module loading, the Lua C API and the rest of Lua: not part of this model.

# Proofs about the operating-systems seminar programs

The seminars show small programs whose point is a delicate property: a lost update, a wakeup that must not get lost, an
edge that epoll reports only once, a forged stack frame. This project models the ones whose correctness is hardest to
see, each in the form the program has, and proves what they are meant to show, for every input and every interleaving.
Nothing here executes the original programs: `dafny verify dfyconfig.toml` checks the proofs.

Three kinds of model occur.

* **Code that runs by itself** is imperative Dafny with the loops of the source: the AMD64 switch routines as methods of
  a processor class, the fiber scheduler, the three echo servers with a kernel object they make system calls on, the
  directory-tree printer with its one mutated prefix buffer, the summing and copying loops.
* **Threads and processes that interleave** are step machines with explicit program counters, because a Dafny method runs
  without interruption: condition variable, racing counter, spin lock, store buffering, pipe with many readers. A run
  is any sequence of enabled steps. Results are about all runs; where something can happen, a run is constructed.
* **What a program is meant to compute** is a function or a relation of its own (an echo stream, coroutines, atomic
  additions, a rendering with a decoder, exact sums), and the program is proved to refine it.

| file | program |
|---|---|
| `Amd64.dfy`, `ContextSwitch.dfy`, `FiberScheduler.dfy` | stack switching, contexts as coroutines, one fiber under a scheduler |
| `Network.dfy`, `Syscalls.dfy`, `EchoStream.dfy` | sockets, epoll, peers that act in between; what an echo is |
| `EpollFast.dfy`, `EpollStateful.dfy`, `ThreadingServer.dfy` | edge-triggered, level-triggered and thread-per-client echo servers |
| `PingPong.dfy` | two threads taking turns with a condition variable |
| `RaceCondition.dfy` | two unsynchronised counting threads |
| `StoreBuffer.dfy`, `SpinLock.dfy` | memory with store buffers, the store-buffering test, the spin lock against the atomic counter |
| `Pipe.dfy` | numbers through a pipe to many painters, threads or forked and killed at any time |
| `Tree.dfy` | printing a directory tree, and reading the print-out back |
| `ArraySum.dfy`, `ArrayAverage.dfy`, `Copy.dfy` | register widths, vector and threaded sums, copying with short writes |

Standards the models follow: System V AMD64 ABI, sections 3.2.1 (registers), 3.2.2 (stack frame) and 3.2.3 (parameter
passing); POSIX.1-2017, `write`, for the atomicity of small pipe writes.

## Reading guide

* *Stack switching.* `Switched` says what one call of the switch does to the machine as a whole, and the instruction
  sequence is proved to do it. `RunRefines` lifts this to any number of contexts and any sequence of switches, where the
  code between switches may do anything that leaves the other contexts' stacks and saved stack pointers alone. The
  two programs are then carried out on the modelled machine: where they go on after a switch is decided only by the
  return address popped.
* *Echo servers.* The peers have an arbitrary finite script. Before each system call takes effect they perform some
  beginning of it, so the proofs cover every interleaving at system-call granularity, short reads and writes, aborts and
  half-closes. `EpollFast.Serve` and `EpollStateful.Serve` say how the servers stand when nothing can happen any more,
  and what must then have become of each connection that the script makes: `Prospect` reads that off the script alone.
  The sockets of the level-triggered and of the threading server are blocking: a write goes on until all bytes are sent.
  For those two the waits that never end are characterised exactly.
* *Step machines.* Each has an invariant, a lemma that every step keeps it, and where it applies a measure that every
  step shrinks, from which freedom from deadlock and the bound on the length of runs follow.
* *Where the programs fail.* Several results say exactly when a program does what it should: a stack block whose size
  ends 1 to 7 bytes past a multiple of 16 makes the fiber version write past it; the tree printer overruns its prefix
  from 256 nested directories on; a newline in a file name makes its output ambiguous, and its corners sit wrong where
  readdir delivers "." or ".." last; the threaded average is right for all arrays of a size only if the thread count
  divides the size; the vector forms read past arrays that do not fill whole vectors; painters that do not close the
  inherited write end wait for ever; the level-triggered server hangs in a write to a client that does not read, unless
  epoll reports a socket writable only when a full buffer fits.

## Model

| member | source | states |
|---|---|---|
| Amd64.Cpu.SwitchToAndSaveCurrent | sem-03-asm-x86/context-switch-2/context.S:33-52 | for any registers, stacks and save slot off the caller's frame: the caller's six callee-saved registers and return address lie in a frame whose address is in the slot, no other word has changed, and the machine continues with registers, rsp and rip of the frame at the target |
| Amd64.Cpu.PrepareRsp | sem-03-asm-x86/context-switch-1/context.S:7-28 | the forged frame is one a switch can restore: zero registers, the function as return address; only the 56 bytes of the frame below the aligned top are written; rsp and control come back to the caller |
| Amd64.Cpu.PrepareRspWithArgument | sem-03-asm-x86/context-switch-2/context.S:8-30 | the same, and the argument lies where the function will find its seventh |
| ContextSwitch.SwitchSaves | sem-03-asm-x86/context-switch-2/context.S:33-43 | a switch writes only its own slot and its own stack, and leaves there all that resuming needs |
| ContextSwitch.SwitchRefines | sem-03-asm-x86/context-switch-2/context.S:33-52 | one switch of the machine is one hand-over between coroutines; every other context stays suspended as it was |
| ContextSwitch.ComputeRefines | sem-03-asm-x86/context-switch-1/context.c:23-30 | whatever the running context computes within its own memory, the suspended contexts are untouched |
| ContextSwitch.RunRefines | sem-03-asm-x86/context-switch-1/context.S:31-50 | for any contexts on disjoint stacks and any sequence of switches and computations, the machine refines abstract coroutines |
| ContextSwitch.StaysSuspended | sem-03-asm-x86/context-switch-1/context.c:20-30 | a coroutine nobody switches to keeps its suspended state through any run |
| ContextSwitch.ResumesAsItLeft | sem-03-asm-x86/context-switch-2/context.S:33-52 | after any run of the others, the switch back returns just after the context's own call with rsp and all six callee-saved registers as they were at that call |
| ContextSwitch.PreparedIsSuspended | sem-03-asm-x86/context-switch-2/context.S:8-30 | a prepared context is a suspended one: it starts at its function with zero registers, rsp + 8 a multiple of 16, and its argument at rsp + 8 |
| ContextSwitch.WritesInsideAllocation | sem-03-asm-x86/context-switch-2/context.c:59-61 | with the stack pointer that main computes, preparing stays inside the allocation if and only if the size exceeds 64 and, with an argument, does not end 1 to 7 bytes past a multiple of 16 |
| FiberScheduler.PreparedRefines | sem-03-asm-x86/context-switch-2/context.c:39-41 | after prepare_rsp main runs on unchanged and the fiber is suspended at start_helper with its argument in place |
| FiberScheduler.PrepareContext | sem-03-asm-x86/context-switch-1/context.c:14-37 | the same for a plain context, prepared without an argument |
| FiberScheduler.PrepareFiber | sem-03-asm-x86/context-switch-2/context.c:58-72 | preparing on the machine, from any start state with disjoint stacks and on any block in which it stays, establishes the refinement |
| FiberScheduler.Program.constructor | sem-03-asm-x86/context-switch-2/context.c:53-76 | main up to its loop: the fiber is ready, nothing has been switched, one line is printed |
| FiberScheduler.Program.SwitchTo | sem-03-asm-x86/context-switch-2/context.c:47 | a call of the switch hands over between main and fiber and touches nothing of the other's |
| FiberScheduler.Program.FiberTurn | sem-03-asm-x86/context-switch-2/context.c:29-51 | from the address the machine resumed at, with what it finds in its callee-saved registers, the fiber prints its next line and hands back exactly once; on its first turn it finds its own pointer as seventh argument, and through it sets finished just when its body has returned |
| FiberScheduler.Program.Schedule | sem-03-asm-x86/context-switch-2/context.c:77-80 | one iteration switches exactly twice, prints one line of each side and returns to just after main's own call |
| FiberScheduler.Program.Run | sem-03-asm-x86/context-switch-2/context.c:74-82 | for a body that yields any number k of times, counting in a callee-saved register: k + 1 steps, 2(k + 1) switches, the two logs strictly interleaved, and no finished fiber is resumed |
| FiberScheduler.Program.WithoutArgument | sem-03-asm-x86/context-switch-1/context.c:32-39 | main of the first program up to its first switch |
| FiberScheduler.Program.RunPlain | sem-03-asm-x86/context-switch-1/context.c:20-46 | main and func hand control back and forth any number of times through the two saved stack pointers: the output alternates strictly, and each goes on where it left |
| PingPong.NextKeepsControlInv | sem-07-synchronization/condvar.c:11-58 | every step keeps mutual exclusion, the relation of str to the counts, and: whoever sleeps although its turn has come is about to be signalled |
| PingPong.NextKeepsLogInv | sem-07-synchronization/condvar.c:33-34 | every step keeps the output alternating and in step with the counts |
| PingPong.NextShrinksMeasure | sem-07-synchronization/condvar.c:11-58 | every step but a spurious wakeup shrinks the measure, which a spurious wakeup raises by at most 3 |
| PingPong.StuckMeansDone | sem-07-synchronization/condvar.c:15-17 | no wakeup is lost: nobody can take a step if and only if both threads are done |
| PingPong.TurnsStayInOrder | sem-07-synchronization/condvar.c:11-61 | in every run, spurious wakeups included: the output is a beginning of n rounds of ping and pong, str tells whose turn it is except while its writer has yet to print, and the threads exclude each other |
| PingPong.EveryRunFinishes | sem-07-synchronization/condvar.c:11-70 | a run has at most 20n + 16 steps and four more for each spurious wakeup; one that cannot go on has printed exactly n rounds |
| PingPong.CanAlwaysFinish | sem-07-synchronization/condvar.c:11-70 | from every reachable state a run without spurious wakeups completes the output |
| PingPong.AnyNumberOfWakeups | sem-07-synchronization/condvar.c:15-31 | complete runs with exactly k spurious wakeups exist if and only if k is 0 or there is something to print |
| PingPong.UnlockingEarlyCanDeadlock | sem-07-synchronization/condvar.c:19-31 | the variant in the comment, unlocking before falling asleep, can leave both threads asleep, for every n of at least 2 |
| PingPong.EarlyDeadlocksExactly | sem-07-synchronization/condvar.c:19-31 | the variant can come to a halt with work left if and only if n is at least 2 |
| RaceCondition.ExecKeepsInv | sem-07-synchronization/race_condition.c:6-13 | bounds on counter and registers that every interleaving of read, increment and write keeps |
| RaceCondition.LosingSchedule | sem-07-synchronization/race_condition.c:6-13 | a schedule that ends with x + y + 2, for any x and y below n |
| RaceCondition.FinalValues | sem-07-synchronization/race_condition.c:6-27 | over all schedules the final values are exactly 2 to 2n for n of at least 2, 1 and 2 for n = 1, and 0 for n = 0 |
| RaceCondition.Thread.StepIn | sem-07-synchronization/race_condition.c:8-11 | one machine step of a worker on the shared counter is the step of the machine |
| RaceCondition.RunWorkers | sem-07-synchronization/race_condition.c:17-28 | running two worker objects under any schedule gives the machine's outcome, at most 2n and at least 2 (n, if n is below 2) once both have finished |
| StoreBufferingTest.ExecKeepsInv | sem-07-synchronization/store_buffering_bye.c:9-17 | invariants of both programs; with atomic stores no state has both reads 0 |
| StoreBufferingTest.BothMissTheStore | sem-07-synchronization/store_buffering.c:7-15 | with plain stores both threads can read 0 |
| StoreBufferingTest.Outcomes | sem-07-synchronization/store_buffering.c:7-40 | the pairs that can be read are exactly all four of 0 and 1, without (0, 0) if the accesses are atomic: the loop can stop only with plain stores |
| AtomicCounter.CounterIsSum | sem-07-synchronization/atomic.c:7-11 | the counter is always the number of additions made |
| AtomicCounter.FinalCounter | sem-07-synchronization/atomic.c:7-24 | any number of workers with any number of additions each: none is missing in the end |
| SpinLock.NewestIsTotal | sem-07-synchronization/mutex.c:21-33 | the newest value of the counter, buffered or in memory, always equals the additions so far |
| SpinLock.NextKeepsInv | sem-07-synchronization/mutex.c:53-67 | every step, flushes included, keeps: the lock is held while somebody is inside, at most one is, and nothing but the owner's own store to the counter is ever buffered |
| SpinLock.MutualExclusion | sem-07-synchronization/mutex.c:59-67 | no two workers are ever between their lock and their unlock |
| SpinLock.Refines | sem-07-synchronization/mutex.c:21-33 | simulation: every run of the locked workers on memory with store buffers is, seen through the newest counter, a run of the atomic fetch_add workers |
| SpinLock.FinalCounter | sem-07-synchronization/mutex.c:21-49 | with K workers of M rounds done, memory itself holds K * M, whatever the store buffers did |
| SpinLock.CanAlwaysFinish | sem-07-synchronization/mutex.c:21-33 | from every reachable state some run makes all workers finish |
| SpinLock.SomeRunFinishes | sem-07-synchronization/mutex.c:35-49 | from the start some run does end with all workers done and K * M in memory |
| Network.ApplyToConn | sem-10-network-2/epoll_server_fast.c:168-176 | what epoll promises: whatever a peer brings to a registered connection that a server could be waiting for leaves an edge |
| Network.ApplyAllEvolves | sem-10-network-2/epoll_server_fast.c:212-214 | the same through any sequence of peer actions |
| Network.ReadEvolves | sem-10-network-2/epoll_server_fast.c:45-54 | a read disturbs no other connection, and one that returns bytes leaves less input |
| Network.CloseKeepsInv | sem-10-network-2/epoll_server_fast.c:71-75 | closing also takes the socket out of epoll, its pending edge included |
| Network.ApplyKeepsPlan | sem-10-network-2/epoll_server_fast.c:162-176 | the peers keep to their script whatever the server does meanwhile: connections made, connections to come and closed ones stay what the whole script makes of them |
| Syscalls.LevelEvents | sem-10-network-2/epoll_server_stateful.c:132-136 | a level-triggered wait reports only what is so, each socket at most once and no more than asked for, and every ready socket if they fit |
| Syscalls.Kernel.Read | sem-10-network-2/epoll_server_fast.c:47-48 | any short count, end of file only when drained and finished, EAGAIN only with nothing there; peers may act before; every other failure is recorded |
| Syscalls.Kernel.Write | sem-10-network-2/epoll_server_fast.c:57-59 | any short count that fits, EAGAIN only without space; every other failure is recorded |
| Syscalls.Kernel.EpollWait | sem-10-network-2/epoll_server_fast.c:213-217 | reports and forgets the oldest edges; returns nothing only when no edge is pending and the peers are through |
| Syscalls.Kernel.WriteBlocking | sem-10-network-2/epoll_server_stateful.c:53-55 | on a blocking socket all bytes are sent unless the connection is aborted; the call never returns if and only if there is no abort and the bytes are more than the space there is and the space the peer still makes |
| Network.WritingEnds | sem-10-network-2/epoll_server_stateful.c:53-55 | whether a blocking write comes to its end is settled when it begins, however the peers interleave with it |
| EchoStream.WaitingIsAtRest | sem-10-network-2/epoll_server_fast.c:81-91 | an echo that must wait has sent back all that arrived, or its peer does not take the rest |
| EchoStream.EndOfInput | sem-10-network-2/epoll_server_fast.c:112-114 | read returning 0 with an empty buffer means every byte that arrived was sent back |
| EchoStream.EndsAsPlanned | sem-10-network-2/epoll_server_fast.c:112-114 | a connection that was closed well is what its peer made of it: unless it was aborted, the peer finished, takes the whole input, and got it |
| EchoStream.Filled | sem-10-network-2/epoll_server_fast.c:45-54 | after a read the unsent bytes are exactly those read, and begin and end stay in bounds, equal only at 0 |
| EchoStream.Advanced | sem-10-network-2/epoll_server_fast.c:63-67 | after a write of n bytes the unsent bytes are the rest, and an emptied buffer starts at 0 again |
| EpollFast.LeftAlone | sem-10-network-2/epoll_server_fast.c:77-91 | no lost edge: while others are served, a client cannot come to have work without an edge being pending |
| EpollFast.WaitingKeepsInv | sem-10-network-2/epoll_server_fast.c:213-221 | a reported event stands in for the edge that epoll forgets, until it is handled |
| EpollFast.BeginServing | sem-10-network-2/epoll_server_fast.c:219-226 | an event still to be handled is about a live client, and no later event is about the one being served |
| EpollFast.RegisteringEnds | sem-10-network-2/epoll_server_fast.c:162-176 | bytes that arrived before registration are not forgotten: the client is served at once |
| EpollFast.QuietMeansServed | sem-10-network-2/epoll_server_fast.c:77-115 | with no edge pending nobody waits in the backlog and no client stalls with work to do |
| EpollFast.RestAsPlanned | sem-10-network-2/epoll_server_fast.c:209-228 | when all is at rest, everything has become of each connection that the script of the peers provides for it |
| EpollFast.Server.ClientRead | sem-10-network-2/epoll_server_fast.c:45-54 | keeps the echo stream; end of file, EAGAIN and errors only for their reasons |
| EpollFast.Server.ClientWrite | sem-10-network-2/epoll_server_fast.c:56-69 | sends a nonempty beginning of the unsent bytes, in order, or nothing for a reason |
| EpollFast.Server.FlushBuffer | sem-10-network-2/epoll_server_fast.c:81-90 | ends with the buffer empty, or without space to send on a connection that is not aborted, or with -2 exactly when a write has failed |
| EpollFast.Server.EchoUntilEagain | sem-10-network-2/epoll_server_fast.c:81-111 | terminates, and ends with a client that must wait for its peer, with everything echoed at end of file, or with -1 or -2 exactly when a read or a write has failed over an abort |
| EpollFast.Server.HandleClientUntilEagain | sem-10-network-2/epoll_server_fast.c:77-115 | status 0 re-establishes the invariant for every client; -1 reports a failed read and -2 a failed write, and leaves an aborted connection open for its caller to close |
| EpollFast.Server.CloseConnection | sem-10-network-2/epoll_server_fast.c:71-75 | closes and frees one client, once: no event still to be handled is about it |
| EpollFast.Server.HandleClientEvent | sem-10-network-2/epoll_server_fast.c:117-132 | handles any event about a client and leaves all the others as they must be; a hangup always closes and frees the client, and only that one |
| EpollFast.Server.AcceptOne | sem-10-network-2/epoll_server_fast.c:139-176 | allocates a client exactly for an accepted and registered socket |
| EpollFast.Server.AcceptConnectionsUntilEagain | sem-10-network-2/epoll_server_fast.c:134-189 | terminates with the backlog empty or a fresh edge pending for it |
| EpollFast.Server.HandleEvents | sem-10-network-2/epoll_server_fast.c:219-227 | a whole batch of events is handled without touching a freed client |
| EpollFast.Server.Run | sem-10-network-2/epoll_server_fast.c:209-228 | for any script of the peers the loop comes to rest, with no edge pending and nobody waiting; it has served as many connections as the peers make, and what has become of each depends on the script alone |
| EpollFast.Serve | sem-10-network-2/epoll_server_fast.c:196-229 | all connections that the script makes have been served; one that is aborted has been closed, what was sent being a beginning of its input; of any other the bytes sent are the input as far as the peer takes it, and it has been closed if and only if that is all and the peer finishes |
| EpollStateful.PendingKept | sem-10-network-2/epoll_server_stateful.c:141-149 | what an event reports is still so when it is handled, however late in the batch |
| EpollStateful.Server.ClientWrite | sem-10-network-2/epoll_server_stateful.c:51-69 | the write after EPOLLOUT hangs the server if and only if the peer neither aborts nor makes space for all unsent bytes; otherwise they are all sent, but for an abort, and a hanging one leaves every stream an exact echo |
| EpollStateful.Server.ClientRead | sem-10-network-2/epoll_server_stateful.c:71-84 | the read after EPOLLIN never has to wait; 0 only with every byte echoed |
| EpollStateful.Server.HandleClientEvent | sem-10-network-2/epoll_server_stateful.c:41-85 | one call at most, and progress whenever the event lets it; the program gives up if and only if that call failed and was not a write with EPIPE, which closes the client and nothing else; it hangs if and only if the event makes it write more than the peer will ever take |
| EpollStateful.Server.HandleConnEvent | sem-10-network-2/epoll_server_stateful.c:87-119 | the accept never has to wait, and adds exactly one client |
| EpollStateful.FutileMeansRest | sem-10-network-2/epoll_server_stateful.c:45-84 | a complete report about which no handler does anything finds the backlog empty and every connection at rest: all echoed, or less space than epoll reports |
| EpollStateful.StandsAsPlanned | sem-10-network-2/epoll_server_stateful.c:121-151 | with the peers through, what has been sent on each connection is a beginning of the input its script provides, closed ones got all of it, and a clogged one takes less than its input |
| EpollStateful.RestAsPlanned | sem-10-network-2/epoll_server_stateful.c:121-151 | at rest, each connection not aborted has got its whole input, or all that it takes but for less than the reporting threshold; it is closed only if it finished and got everything |
| EpollStateful.Server.HandleEvents | sem-10-network-2/epoll_server_stateful.c:141-149 | a batch keeps the invariant for every client or stops in a fatal failure or a hanging write; with the peers through, one that does neither gets work done or finds every event futile |
| EpollStateful.Server.RunOnce | sem-10-network-2/epoll_server_stateful.c:134-150 | a round keeps every connection an exact echo and every client live exactly while its socket is; with the peers through it gets work done, hangs, or changes nothing, and then all are at rest; it cannot hang if writable sockets have space for a full buffer |
| EpollStateful.RestIsNoFate | sem-10-network-2/epoll_server_stateful.c:45-84 | connections at rest are not bound to hang the server: what fate is made of (unsent bytes, input read by the bufferful, space) agrees with what the handlers can still do |
| EpollStateful.Server.Settle | sem-10-network-2/epoll_server_stateful.c:134-150 | once the peers are through, finitely many rounds lead to one that changes nothing, with all at rest, or to a hanging write; without aborts, reads taking all they can, it hangs if and only if one of the connections is bound to hang it, whatever the order of the events |
| EpollStateful.Serve | sem-10-network-2/epoll_server_stateful.c:121-151 | against any script of the peers, unless a fatal failure ends the program, which takes an abort: all their connections have been made, each is an exact echo of its scripted input or ended well, be it with the server hung; a hung server waits on a peer whose script takes less than its input, and it never hangs if epoll reports a socket writable only when a full buffer fits; otherwise all come to rest, with everything done for each that its peer lets the server do |
| EpollStateful.HangsFromTheStart | sem-10-network-2/epoll_server_stateful.c:134-150 | for every lower reporting threshold there are two clients on which the main loop, started with no client and reading all it can, always hangs |
| EpollStateful.StarvesAnother | sem-10-network-2/epoll_server_stateful.c:51-69 | three rounds of it, each with a complete report of what is ready, after which the server hangs and another client, with input and with space for its echo, has got nothing |
| ThreadingServer.ReadBlocking | sem-10-network-2/threading_server.c:30 | returns bytes, end of file or an error for its reason; waits for ever only if the peers are through and nothing is there |
| Network.StepKeepsOutlook | sem-10-network-2/threading_server.c:27-44 | the input, whether it ends, and the bytes that can be sent in all depend on the peer alone: they stay the same from step to step of its script |
| ThreadingServer.WriteAll | sem-10-network-2/threading_server.c:31-42 | the inner loop drains the buffer, or returns -2 exactly when a write has failed over an abort; it never returns if and only if there is no abort and the peer never takes all bytes of the buffer |
| ThreadingServer.HandleClient | sem-10-network-2/threading_server.c:27-51 | the outcome depends on the peer alone: what is sent is a beginning of the input; without an abort it is the input up to what the peer takes, and the call returns, with 0, if and only if that is all and the peer finishes; with an abort it always returns: with -1 exactly when a read has failed, with -2 exactly when a write has, with -3 after the end of the input |
| Pipe.NextKeepsQueueInv | sem-08-ipc/pipe_queue.c:33-67 | every step keeps numbers read and numbers queued a partition of those written, in order |
| Pipe.NextKeepsEndsInv | sem-08-ipc/pipe_close_handling.c:80-91 | which process holds which end, through fork, close, exit and kill |
| Pipe.NextKeepsGoneInv | sem-08-ipc/pipe_close_handling.c:36-39 | a painter that saw the end of file saw the end of everything |
| Pipe.NextShrinksMeasure | sem-08-ipc/pipe_close_handling.c:27-96 | every step, signals and the key press included, shrinks the measure |
| Pipe.NumbersStayInOrder | sem-08-ipc/pipe_queue.c:33-67 | in every run with any number of painters and any capacity: numbers read, then numbers queued, are exactly the numbers written; each painter prints in increasing order what it read, short of at most one number |
| Pipe.WriteFailsExactly | sem-08-ipc/pipe_close_handling.c:48-52 | the generator gets EPIPE if and only if the painters are processes and all of them were killed |
| Pipe.WriteWaitsExactly | sem-08-ipc/pipe_close_handling.c:43-60 | a write waits if and only if the pipe is full and the painters are threads or one of them has not been killed |
| Pipe.AllCanDie | sem-08-ipc/pipe_close_handling.c:48-52 | from every reachable state with numbers to write, a run in which all painters are killed and the generator says so |
| Pipe.AllDeadExactly | sem-08-ipc/pipe_close_handling.c:48-52 | some run says "all painters are dead" if and only if painters are processes and there are numbers to write |
| Pipe.ReadEndsExactly | sem-08-ipc/pipe_close_handling.c:32-39 | a painter at an empty pipe sees end of file if and only if main has closed or is gone and every inherited copy of the write end is closed |
| Pipe.MessagesTellTheTruth | sem-08-ipc/pipe_queue.c:43-46 | "numbers are gone" appears only when the pipe is empty for good and, unless the generator was killed, every number was read; "all painters are dead" only when all were killed |
| Pipe.StuckMeansThrough | sem-08-ipc/pipe_close_handling.c:80-92 | nothing is deadlocked: nobody can take a step if and only if main is through and no painter is alive, or painters that kept the write end wait at an empty pipe |
| Pipe.EveryRunEnds | sem-08-ipc/pipe_close_handling.c:27-96 | a run has at most 3 * limit + 5 * painters + 5 steps |
| Pipe.EveryNumberIsPrinted | sem-08-ipc/pipe_queue.c:69-104 | when nobody is killed, a run that cannot go on has read all numbers and printed what was read, painter by painter; the painters finish if and only if they do not keep the write end |
| Pipe.CanAlwaysFinish | sem-08-ipc/pipe_close_handling.c:62-96 | from every reachable state letting everyone go on leads to an end |
| Tree.Strcat | sem-02-files/tree.c:24 | appends in place, and fits if and only if text and terminator do |
| Tree.PrintTree | sem-02-files/tree.c:11-48 | the look-ahead loop with its mutated prefix prints the recursive rendering and restores the prefix, and stays in the buffer if and only if the tree is not too deep; `RenderShows` tells what the rendering shows |
| Tree.PrintRoot | sem-02-files/tree.c:50-63 | with the buffer of 1024 the whole program works if and only if fewer than 256 directories are nested, and then shows the root and a line for every entry, drawn as `RenderShows` says |
| Tree.RenderShows | sem-02-files/tree.c:14-45 | each entry other than "." and ".." has its line, in order: a corner if and only if it is the last that readdir delivers for its directory, a bar otherwise; before it a column for each directory around it, with a bar if and only if that directory is not the last of its own, blank otherwise |
| Tree.CornersLastExactly | sem-02-files/tree.c:35-45 | in every directory the corner marks the last entry shown if and only if readdir delivers neither "." nor ".." last where anything is shown |
| Tree.ParseRendered | sem-02-files/tree.c:19-36 | without newlines in names each printed line gives back its name, its depth and whether its entry is the last, at any indentation |
| Tree.BuildItems | sem-02-files/tree.c:11-48 | names, depths and marks of the last in order determine the forest |
| Tree.DecodeRender | sem-02-files/tree.c:11-48 | decoding the print-out gives back the forest of the names other than "." and "..", with the mark of the last of each directory, if and only if no such name contains a newline |
| Tree.RenderIsInjective | sem-02-files/tree.c:11-48 | forests with different newline-free names or nesting look different |
| Tree.NewlinesAreAmbiguous | sem-02-files/tree.c:19 | two different forests with the same print-out |
| ArraySum.SumWords | sem-04-simd-arm/flow-sizes/array_sum.s:19-46 | the loop stores the sum modulo 2^32, which is the sum if and only if that lies in 0 to 2^32 - 1 |
| ArraySum.SumWordsSignExtended | sem-04-simd-arm/flow-sizes/array_sum.s:43-45 | with sxtw it is the sum if and only if that fits 32 signed bits, whatever overflowed on the way |
| ArraySum.SumSignedWords | sem-04-simd-arm/flow-sizes/array_sum.s:32-35 | with ldrsw it is the sum if and only if that fits 64 signed bits |
| ArraySum.SumOfParts | sem-04-simd-arm/flow-sizes/array_sum.s:28-40 | the sum that the three forms are compared with: parts of an array add up, and a single element is its own sum |
| ArrayAverage.AverageC | sem-04-simd-arm/simd/main.c:14-20 | the size times the result is the sum of all elements; an empty array has no average (exact arithmetic) |
| ArrayAverage.AverageSse | sem-04-simd-arm/simd/sse.s:6-31 | if 4 divides the size, the size times the result is the sum of all elements; otherwise, and only then, the loop reads past the array |
| ArrayAverage.AverageAvx | sem-04-simd-arm/simd/avx.s:7-31 | if 8 divides the size, the size times the result is the sum of all elements; otherwise, and only then, the loop reads past the array |
| ArrayAverage.AverageIntrinsics | sem-04-simd-arm/simd/intrinsics.h:5-21 | the same with the halves added in the other order |
| ArrayAverage.NextRange | sem-06-processes/array_avg.c:35-37 | each range begins where the one before it ends, or one element later, which never happens if the thread count divides the size |
| ArrayAverage.RangesSeparate | sem-06-processes/array_avg.c:35-37 | every range lies inside the array and any two are disjoint |
| ArrayAverage.UncoveredMeans | sem-06-processes/array_avg.c:35-37 | an index is uncovered if and only if it is in the array and in no range |
| ArrayAverage.ThreadsLeaveOut | sem-06-processes/array_avg.c:32-37 | the set of uncovered indices has exactly size mod threads elements |
| ArrayAverage.AverageParallel | sem-06-processes/array_avg.c:30-52 | the size times the result is the sum over the ranges of all threads, whatever the order in which they finish |
| ArrayAverage.ThreadsMiss | sem-06-processes/array_avg.c:41-45 | on an array of ones the joined sum falls short by the number of uncovered elements |
| ArrayAverage.ThreadsAgreeExactly | sem-06-processes/array_avg.c:32-51 | the threads get every array of a size right if and only if the thread count divides the size |
| Copy.WriteAll | sem-02-files/cp-3.c:15-25 | writes all bytes in order through any short writes; it fails if and only if a call has failed, after a beginning of them |
| Copy.CopyFile | sem-02-files/cp-3.c:27-46 | the destination gains exactly the rest of the source if and only if no call fails; otherwise one call has failed and a beginning has arrived, after a failed read all that had been read |
| Copy.CopyContents | sem-02-files/cp-3.c:76-100 | from the start of a file to an empty one: an identical copy if no call failed, or after one failure a beginning |

## Left out

- Threads are step relations, not methods: `condvar.c`, `mutex.c`, `atomic.c`, `store_buffering.c`, `store_buffering_bye.c` and the two pipe programs. Their loops appear as program counters and iteration counts; only `race_condition.c` also has objects that are stepped under a schedule.
- Clients of the two epoll servers are values in a map that the server object reassigns, and their buffers sequences. Update of a client in place through the pointer kept in epoll is not captured; that no event refers to a freed client is proved about the map's keys.
- EpollFast.Serve: the source's loop never ends; the peers' script is finite here, so that the loop can be shown to come to rest. Safety of each call and batch does not depend on it.
- EpollStateful.Serve: the level-triggered server never stops spinning, as a connection with enough send space is always reported; coming to rest means that its rounds change nothing any more. With more than 64000 ready sockets at once epoll_wait need not report them all, and only safety is stated. The space from which on a socket is reported writable is a parameter of the kernel.
- Syscalls.Kernel.Read: interrupted calls, spurious readiness, reuse of descriptor numbers and the listen backlog's length limit are not modelled; nor is a threshold for edges, one for sending is raised when space comes back from zero. Level-triggered reports do have one.
- ThreadingServer.HandleClient: it follows one thread against its peer; the threads share nothing but the kernel. SIGPIPE, and whether shutdown itself can fail on a connection that was not aborted, are not modelled; closing after an error belongs to the calling thread.
- Amd64.Cpu.SwitchToAndSaveCurrent: memory holds aligned words only, so overlap of misaligned accesses and the red zone below rsp are not captured, and addresses do not wrap around.
- FiberScheduler.Program.Compute: what the code between two switches computes is arbitrary in `ContextSwitch`; on the modelled machine it scribbles over one word of its stack and over all callee-saved registers but the two in which the body and `run_fiber` keep their variables. The source's body is the loop unrolled for two yields.
- SpinLock.Refines: `mutex.c` calls pthread's mutex and has the spin lock's calls commented out; the model uses the spin lock, with `sched_yield` as a step that does nothing.
- PingPong.EarlyDeadlocksExactly: the variant keeps the loop around the wait, where the comment has an `if`.
- RaceCondition.FinalValues: counters are unbounded; that 2n exceeds a 32-bit `int` for large n, and that a data race is undefined in C, is left out. The same holds for the counters of the other programs.
- Pipe.NumbersStayInOrder: errors of read and write other than EPIPE are left out, and the numbers are unbounded.
- Tree.PrintTree: directories that cannot be opened, and entries added or removed while printing, are left out.
- ArrayAverage.AverageAvx: rounding is left out; `array_avg_avx_aligned` differs only in requiring alignment and is not repeated.
- ArrayAverage.AverageParallel: overflow of i * size is left out, and a thread count of 0 is excluded.
- Copy.CopyFile: `prepare_dest` and the opening of files are left out, and a write of something is taken to move something or fail.
- Socket setup, argument parsing, logging, timing and colours.
- `epoll_server.c`, `tcp_server.c` and the clients: they assert full writes where the modelled servers handle short ones.
- The seccomp filter, the shells, the signal, mmap and linking demos, `list.c`, `vec.c`, `float.c`: straight-line code or behaviour of libc and the kernel.

# Verified models of the system programming exercises

The repository is a set of operating-system exercises in C: processes and threads that share memory, semaphores,
condition variables, signals, descriptors and sockets. This project models the places where the result depends on more
than one function or on more than one process, and proves what those programs are for.

* **Sleeping barber** (`cw07/zad1`; `WaitingRoom`, `Barber`, `BarberSafety`, `BarberTheorems`, `BarberSeats`,
  `BarberLimits`). One
  barber and any number of clients share four semaphores, a sleeping flag, a chair and a ring of seats that carry a
  semaphore each. One step is one semaphore operation or one access to the shared memory. The interesting point is
  that a seat leaves the ring before its client has woken up, so that a push could take it. `clients_count = wr_cap`
  rules that out; the key that spawns as many clients again does not, unless the first ones have left the shop. The
  theorems are stated for runs that never have more clients in the shop than seats.
* **Producers and consumers** (`cw09/zad1`; `LineBuffer`, `BoundedFifo`; `LineThreads`, `LineThreadProofs` and
  `Leftover` for what both programs share; `SemLine`, `SemLineProofs`, `SemLineLeftover`; `Monitor`, `MonitorProofs`,
  `MonitorLeftover`). A ring buffer under two synchronisation schemes: counting semaphores used as wake-up tokens, and
  a mutex with two condition variables that are signalled, with spurious wake-ups. Both refine one bounded queue.
  The main thread joins the producers, cancels the consumers and joins them.
* **Shell** (`cw05/zad1`; `Grammar`, `MemoryScan`, `Interpreter`, `Segments`, `Descriptors`, `Pipeline`). A tokenizer
  that writes NULs into its line and returns pointers into it, against a declarative grammar; and the recursion that
  cuts argv at the bars, forks, and rewires descriptor tables.
* **Record sort** (`cw02/zad1`; `StableSort`, `RecordFile`, `FileSort`, `RecordSort`, `ShortFiles`, `PartialRows`,
  `SortLimits`). Insertion sort of the records of a file by their first byte, through a cursor; the relative seeks rely
  on a product that wraps around in `size_t`, and nothing checks that the file holds the records asked for.
* **Image filter** (`cw08/zad1`; `GridSum`, `Convolution`, `ParallelFilter`) and **client registry** (`cw10/zad1`;
  `Registry`, `RoundRobin`, `RegistryRuns`, `RegistryAnswers`, `SharedAddress`). A clamped convolution, the threads
  that share out its pixels and count their progress under a try-lock; a table of clients with round-robin selection,
  and its listener interleaved with its pinger in the datagram build.
* **Requests by signal** (`cw04/zad3`, mode 2; `Signals`). Stop-and-wait over signals that merge while they are
  pending.

`Counting` holds sums over the processes of a system and two facts about rings.

## How the models are built

Sequential code that changes something in place is a class or a method over arrays with the fields of the C program,
proved against functions on values. Concurrent code is a state machine: one constructor of a `Pc` datatype for each
place where a process can be interrupted, a step function for each process, and an `Actor` that says who moves. A run is
a sequence of states that starts in the initial state, with any order of steps; every theorem about runs quantifies
over all of them, over any number of processes, and over all inputs. The logs in the states record what the programs do
and print; no step reads them.

Each protocol has an invariant (`Inv`), a lemma that every step keeps it, a lemma that somebody can move until the
work is done, and a natural number that every step lowers. Together they say that every run ends, and how.

Where the code and its comments disagree, the code is followed: the comment at `cw10/zad1/src/config.h:10-12` speaks
of a client that is disconnected after three pings; a silent client is sent four and dropped in the fifth round.
A `|` between quotes cuts a pipeline like any other, as `exec_command` sees it after the quotes are gone.

## What does not hold in general

Seven properties that the programs seem to be meant to have fail on some inputs. Each comes with the exact condition
under which it holds.

* Everyone gets a haircut: exactly with no more clients than seats (`BarberLimits`).
* The shop does not deadlock: exactly with no more clients than seats, or with no seat at all. A push that takes the
  seat of an invited client leaves the barber and both clients waiting for ever (`BarberLimits`).
* A line read from a file is handled: not by a consumer that is cancelled before it takes the line. The buffer is empty
  at the end of every run exactly when there was nothing to push (`SemLineLeftover`, `MonitorLeftover`).
* `interpret_line` reads the line in its buffer: after a bare argument at the very end of the line it reads on, so that
  an incomplete last line of a script may get arguments from the line before (`MemoryScan`, `Interpreter`).
* A pipeline connects its commands: only when the standard descriptors that are closed at the call leave the pipes
  their places (`Descriptors`).
* Sorting keeps the records of a file: not when it is asked for more than the file holds, except for one more that
  happens to do no harm (`SortLimits`).
* A client that answers its pings keeps its slot: exactly when no earlier active slot has its address
  (`RegistryAnswers`, `SharedAddress`).

## Model

| member | source | states |
|---|---|---|
| `WaitingRoom.PopTakesTheFirst` | cw07/zad1/src/barber-shop.c:25-33 | the seat popped is the head of the queue and becomes the one place the ring would give out last |
| `WaitingRoom.PushTakesAFreeSeat` | cw07/zad1/src/barber-shop.c:35-42 | the seat pushed goes to the end of the queue and was not in it |
| `WaitingRoom.SharedRoom.constructor` | cw07/zad1/src/barber-shop.c:125-153 | the waiting room starts empty, with empty seats |
| `WaitingRoom.SharedRoom.Pop` | cw07/zad1/src/barber-shop.c:25-33 | takes the first seat off the queue; fails exactly when it is empty, and then changes nothing |
| `WaitingRoom.SharedRoom.Push` | cw07/zad1/src/barber-shop.c:35-42 | appends a seat to the queue; fails exactly when every seat is in it, and then changes nothing |
| `BarberSafety.BarberKeepsInv` | cw07/zad1/src/barber.c:96-150 | every step of the barber keeps the global invariant of lock, logs, queue, seats and the visit under way |
| `BarberSafety.ClientKeepsInv` | cw07/zad1/src/client.c:43-103 | so does every step of every client, except a push that takes the seat of an invited client; being turned away is no exception |
| `BarberSafety.RoomForOneMore` | cw07/zad1/src/client.c:65-72 | with no more clients in the shop than seats, a client about to push finds a free seat, and a second one while another client is being served, so that the seat popped last is not reused |
| `BarberSafety.RoomyIsSafe` | cw07/zad1/src/client.c:60-72 | so whoever looks into the waiting room then finds a seat, and it is not that of an invited client |
| `BarberTheorems.RunKeepsInv` | cw07/zad1/src/barber.c:72-150 | the invariant holds in every state of every run, with any number of clients, until a push takes the seat of an invited client |
| `BarberTheorems.RoomyRun` | cw07/zad1/src/barber.c:72-150 | in a run that has never had more clients in the shop than seats no push takes such a seat, and nobody has left without a haircut |
| `BarberTheorems.EnoughSeats` | cw07/zad1/src/barber.c:77 | every run is like that when there are no more clients than seats |
| `BarberTheorems.ServiceIsExclusive` | cw07/zad1/src/barber.c:105-149 | as long as the shop never has more clients in it than seats: customers are engaged one at a time, each after the one before has finished, and nobody else is past the queue; all semaphores stay at 0 or 1; the chair holds the client that is cut; nobody is turned away; the barber sleeps only when nobody waits |
| `BarberTheorems.InvitationIsNotLost` | cw07/zad1/src/client.c:65-87 | in such a run, from its pop to delete_seat the seat of the invited client is not pushed again, not touched by others, and keeps its one invitation |
| `BarberTheorems.SeatSemaphoresExist` | cw07/zad1/src/barber-shop.c:44-62 | in such a run every post and wait on a seat semaphore meets one that exists and belongs to the client meant |
| `BarberTheorems.FirstComeFirstServed` | cw07/zad1/src/barber-shop.c:25-42 | in such a run clients invited, followed by the waiting room, are all pushes in order; haircuts follow the order of engagement |
| `BarberTheorems.NeverStuckEarly` | cw07/zad1/src/barber.c:96-150 | while the invariant holds, some process can move until every client has been served or has gone for want of a seat |
| `BarberTheorems.StepDoesWork` | cw07/zad1/src/client.c:43-103 | every step lowers a natural number, whatever the number of seats |
| `BarberTheorems.EveryoneIsServed` | cw07/zad1/src/client.c:43-103 | every run is finite; one that has never had more clients in the shop than seats and cannot go on has given each client exactly its haircuts and left the barber asleep |
| `BarberTheorems.SafeRunEndsQuietly` | cw07/zad1/src/client.c:43-103 | one in which no push has taken the seat of an invited client, whatever the number of clients, and that cannot go on, has left the barber asleep and given every client its haircuts but the one it found no seat for |
| `BarberSeats.SemaphoresAreHeld` | cw07/zad1/src/barber-shop.c:44-68 | as long as no push takes the seat of an invited client: in every state a seat has a semaphore if and only if some client is between its new_seat and its delete_seat on it, and then it is one client, whose pid the seat carries; no new_seat meets a seat that still has one; the chair is taken and has one exactly while somebody sits in it, and is empty otherwise |
| `BarberSeats.NoSemaphoreIsLeft` | cw07/zad1/src/client.c:82-100 | such a run that cannot go on has removed every semaphore that a client has made |
| `BarberSeats.ChairIsTakenAnew` | cw07/zad1/src/client.c:60-84 | in any state: who sits down does so on a new seat with a semaphore at 0, and the barber cuts the pid in the chair |
| `BarberLimits.SeatForEachClient` | cw07/zad1/src/barber.c:72-78 | no run turns a client away if and only if there are no more clients than seats |
| `BarberLimits.RunOut` | cw07/zad1/src/client.c:43-103 | every run goes on to one in which nobody can move, and a client that has left without its haircut never gets it |
| `BarberLimits.ServedIffSeats` | cw07/zad1/src/barber.c:72-89 | every run that cannot go on has served everyone if and only if there are no more clients than seats |
| `BarberLimits.InvitedSeatsAreSafeIff` | cw07/zad1/src/client.c:65-87 | no push ever takes the seat on which an invited client still waits if and only if there is a seat for each client, or none at all |
| `BarberLimits.InvitationErased` | cw07/zad1/src/client.c:65-79 | when a push takes such a seat, the newcomer's initialization sets the invitation back to 0 while the other client still waits for it |
| `BarberLimits.NoDeadlockIff` | cw07/zad1/src/barber.c:72-150 | every run that cannot go on has left the barber asleep and every client served or gone if and only if there is a seat for each client, or none at all; otherwise there is a run that ends with the barber waiting for a client that waits for its invitation |
| `LineBuffer.PushAppends` | cw09/zad1/src/buffer.c:36-45 | the modular ring appends to a plain sequence |
| `LineBuffer.PopTakesTheOldest` | cw09/zad1/src/buffer.c:47-57 | the modular ring takes the head of that sequence |
| `LineBuffer.Buffer.constructor` | cw09/zad1/src/buffer.c:15-26 | the buffer starts empty |
| `LineBuffer.Buffer.IsEmpty` | cw09/zad1/src/buffer.c:28-30 | tells whether the buffer holds no line |
| `LineBuffer.Buffer.IsFull` | cw09/zad1/src/buffer.c:32-34 | tells whether every cell holds a line |
| `LineBuffer.Buffer.Push` | cw09/zad1/src/buffer.c:36-45 | appends the line, or fails exactly on a full buffer and changes nothing |
| `LineBuffer.Buffer.Pop` | cw09/zad1/src/buffer.c:47-57 | removes the oldest line, or fails exactly on an empty buffer and changes nothing |
| `BoundedFifo.FifoKeepsInv` | cw09/zad1/src/buffer.c:36-57 | lines popped, followed by the queue, are the lines pushed, in order, and the queue fits its size |
| `LineThreadProofs.ProducerMoveKeepsInv` | cw09/zad1/src/main-sem.c:52-75 | a producer's move is a step of the bounded queue or leaves it alone, and keeps lock, order and every thread's account of its lines |
| `LineThreadProofs.ConsumerMoveKeepsInv` | cw09/zad1/src/main-sem.c:93-122 | so does a consumer's |
| `LineThreadProofs.MainMoveKeepsInv` | cw09/zad1/src/runner.c:60-70 | joining and cancelling leave the queue alone and keep the order of shutdown |
| `LineThreadProofs.WhoCanMove` | cw09/zad1/src/main-monitor.c:46-121 | until the main thread is done some thread can move on its own, or all that are left wait for a wake-up |
| `SemLineProofs.StepRefinesFifo` | cw09/zad1/src/main-sem.c:52-122 | every step of producers, consumers, main thread or cancellation is a step of the bounded queue or leaves it alone |
| `SemLineProofs.StepKeepsInv` | cw09/zad1/src/main-sem.c:52-122 | every step keeps lock, token counts, lines in hand and the order of shutdown |
| `SemLineProofs.TokensAlwaysMatch` | cw09/zad1/src/main-sem.c:56-71 | while a producer waits, lines plus producer tokens plus producers on their way reach the size; while a consumer waits, consumer tokens and consumers on their way cover the lines |
| `SemLineProofs.NeverStuck` | cw09/zad1/src/main-sem.c:93-111 | with a cell and a consumer, somebody can move until the main thread is done |
| `SemLineProofs.StepDoesWork` | cw09/zad1/src/main-sem.c:52-122 | every step lowers a natural number |
| `SemLineProofs.LinesArriveInOrder` | cw09/zad1/src/main-sem.c:52-74 | in every state lines leave in the order they came; every line was pushed by one of the producers and popped by one of the consumers; each producer has pushed a prefix of its non-empty lines, each consumer has handled all it popped but the line in hand |
| `SemLineProofs.EveryRunEndsCleanly` | cw09/zad1/src/runner.c:60-70 | every run ends, with every thread joined, every line of every file pushed and no other, every popped line handled by the consumer that popped it, and the lock free; the lines left are the last ones pushed, and no more of them than the buffer holds |
| `SemLineLeftover.EmptyIffNothingPushed` | cw09/zad1/src/runner.c:60-70 | with a cell and a consumer, every finished run has emptied the buffer if and only if no file has a line to push |
| `SemLineLeftover.OneLineMayStay` | cw09/zad1/src/main-sem.c:91-104 | one producer with one line, one cell and one consumer have a finished run that leaves the line in the buffer |
| `MonitorProofs.StepRefinesFifo` | cw09/zad1/src/main-monitor.c:41-132 | the monitor refines the same bounded queue, spurious wake-ups included |
| `MonitorProofs.StepKeepsInv` | cw09/zad1/src/main-monitor.c:41-132 | every step keeps lock, wake-up counts, lines in hand and the order of shutdown, also when a consumer acts on its cancellation on the way into pthread_cond_wait, while waiting, or on the way out |
| `MonitorProofs.WakeUpsAlwaysMatch` | cw09/zad1/src/main-monitor.c:47-70 | no wake-up is lost although one thread is signalled at a time: a waiting producer means that woken producers cover the free cells, a waiting consumer that woken consumers cover the lines, apart from consumers that shutdown has made go away |
| `MonitorProofs.CancelledStaysAwake` | cw09/zad1/src/main-monitor.c:94-113 | in every run a consumer that is to be cancelled and does not sleep never goes to sleep again |
| `MonitorProofs.MayWakeAtAnyTime` | cw09/zad1/src/main-monitor.c:55-100 | a waiting thread may wake up for no reason in any state, with its line in hand, and goes on only when the lock is free |
| `MonitorProofs.NeverStuck` | cw09/zad1/src/main-monitor.c:96-121 | with a cell and a consumer, somebody can move without a spurious wake-up until the main thread is done |
| `MonitorProofs.StepDoesWork` | cw09/zad1/src/main-monitor.c:41-132 | every step lowers a natural number, except that a spurious wake-up adds three |
| `MonitorProofs.LinesArriveInOrder` | cw09/zad1/src/main-monitor.c:41-73 | as for the semaphores |
| `MonitorProofs.EveryRunEndsCleanly` | cw09/zad1/src/runner.c:60-70 | as for the semaphores, in a number of steps bounded by the spurious wake-ups; a consumer cancelled inside its wait leaves the lock free through its clean-up handler |
| `MonitorLeftover.EmptyIffNothingPushed` | cw09/zad1/src/runner.c:60-70 | as for the semaphores |
| `MonitorLeftover.OneLineMayStay` | cw09/zad1/src/main-monitor.c:94-113 | as for the semaphores |
| `Grammar.TokenizeIsTheGrammar` | cw05/zad1/src/interpreter.c:16-74 | the scan yields given arguments if and only if the line is written from them by the grammar of quoted and bare arguments |
| `Grammar.MalformedMeansNoDerivation` | cw05/zad1/src/interpreter.c:31-45 | the scan fails exactly on the lines that the grammar does not derive |
| `Grammar.WordsComeApart` | cw05/zad1/src/interpreter.c:48-69 | two bare words with any gap of spaces, tabs, newlines, vertical tabs, form feeds and carriage returns between them, and none of these in them, are split into those two words |
| `Grammar.QuoteRoundTrip` | cw05/zad1/src/interpreter.c:24-46 | any list of arguments without quotes comes back from being quoted, joined with spaces and split |
| `MemoryScan.ScanOfLine` | cw05/zad1/src/interpreter.c:16-74 | on memory that holds a line the scan finds the spans of the line, and those of what is behind it when the line ends in a bare argument |
| `MemoryScan.ReadsAsTheLine` | cw05/zad1/src/interpreter.c:48-69 | for all memory, the scan is that of the line if and only if the line is malformed or does not end in a bare argument, or nothing but white space stands between its end and another one |
| `MemoryScan.CompleteLine` | cw05/zad1/src/interpreter.c:80 | so a line with the newline and the NUL that fgets leaves is read as it is |
| `MemoryScan.BoundsAreKept` | cw05/zad1/src/interpreter.c:16-74 | all accesses stay in bounds if and only if the scan ends within the memory and args has room for a pointer to each argument that begins and, unless the scan fails, for the final NULL |
| `MemoryScan.LineOutcome` | cw05/zad1/src/interpreter.c:16-74 | on a line that is read as it is, they do if and only if args has room for what the line stores, and then the call succeeds exactly on a well-formed line |
| `MemoryScan.SameAsTheLine` | cw05/zad1/src/interpreter.c:48-69 | given that room, spans and outcome are those of the line if and only if the condition on what is behind it holds |
| `Interpreter.FirstLineLeaves` | cw05/zad1/src/interpreter.c:37-60 | what the scan of the line `a foo` leaves in the buffer |
| `Interpreter.StaleArgument` | cw05/zad1/src/interpreter.c:48-69 | an incomplete line `ls` put over the beginning of that is scanned into `ls` and `oo`, although its only token is `ls` |
| `Interpreter.PunchAt` | cw05/zad1/src/interpreter.c:37-60 | the line after the scan is NUL at the end of every argument and unchanged elsewhere |
| `Interpreter.MarkedPoints` | cw05/zad1/src/interpreter.c:16-74 | pointers to such spans are NULL-terminated and point at disjoint NUL-terminated strings that are the spans' texts |
| `Interpreter.QuotedArgument` | cw05/zad1/src/interpreter.c:24-46 | the branch for quotes stores one argument, or returns because the line ends or is malformed, or leaves the bounds |
| `Interpreter.BareArgument` | cw05/zad1/src/interpreter.c:48-61 | the branch for a word stores one argument, or leaves the bounds |
| `Interpreter.InterpretLine` | cw05/zad1/src/interpreter.c:16-74 | whatever the buffer holds and however short args is: the outcome is that of the scan of the memory, and on success args points at its arguments inside the buffer, in order, disjoint, each followed by a NUL, and those NULs are all that has changed |
| `Interpreter.InterpretText` | cw05/zad1/src/interpreter.c:16-74 | on a line with nothing but white space behind a bare argument at its end: succeeds exactly on a well-formed line for which args has room, and args then points at the tokens of the line |
| `Segments.JoinOfSplit` | cw05/zad1/src/command_runner.c:12-18 | segments joined with bars are the command line, no segment holds an argument that is a single bar, and there is one segment more than there are such arguments |
| `Segments.SplitOfJoin` | cw05/zad1/src/command_runner.c:12-18 | segments without bars come back from being joined and split |
| `Pipeline.Shell.Pipe` | cw05/zad1/src/command_runner.c:20-24 | a pipe takes the two lowest free descriptors |
| `Pipeline.Shell.CutAtBar` | cw05/zad1/src/command_runner.c:11-18 | finds the first bar and makes it NULL, or leaves argv alone |
| `Descriptors.ChildTurns` | cw05/zad1/src/command_runner.c:45-48 | the child has exactly the table at the fork with the write end of the new pipe in the higher of the two lowest free places and in place 1, and nothing else |
| `Descriptors.ParentTurns` | cw05/zad1/src/command_runner.c:34-36 | the parent goes on with exactly the table at the fork with the read end of the new pipe in the lowest free place and in place 0, and without the write end |
| `Pipeline.Shell.SpawnWriter` | cw05/zad1/src/command_runner.c:20-48 | one child behind a new pipe, with the arguments up to the first NULL and exactly that table, and the parent turned to the next segment |
| `Descriptors.HandedMore` | cw05/zad1/src/command_runner.c:33-48 | what each child of the rest has been handed from the parent's new table is what it has been handed from the table at the call |
| `Descriptors.WiringMore` | cw05/zad1/src/command_runner.c:33-48 | a child in front of connected children is connected exactly when the table at the fork left room for the pipes |
| `Descriptors.RanMore` | cw05/zad1/src/command_runner.c:33-39 | a child in front of a pipeline built by the recursive call makes a longer pipeline |
| `Descriptors.ClosedOutput` | cw05/zad1/src/command_runner.c:20-48 | with 0 and 2 open, 1 closed and two commands, the second one's standard output is the end of the pipe that it reads from |
| `Pipeline.Shell.ExecCommand` | cw05/zad1/src/command_runner.c:10-55 | from any descriptor table: one child for each segment with exactly its arguments; each child has every descriptor from 2 on that was open at the call with the same end, its pipe ends as 0 and 1 or those of the call, and in places that were closed at most its own write end and read ends of the pipes before it; each write end is held by its child alone, and no child holds the read end of the pipe it writes to; the parent keeps its descriptors but 0; only bars in argv change. Child i reads from pipe i - 1 and writes to pipe i, the outer ends as at the call, if and only if there is one segment, or 1 and 2 are open, or there are two segments and 0 and 1 are closed |
| `StableSort.StableSortIsUnique` | cw02/zad1/src/operations.c:53-96 | there is one sorted arrangement that keeps the order of equal keys |
| `StableSort.StableIsPermutation` | cw02/zad1/src/operations.c:53-96 | keeping the records of each key in order loses and doubles none |
| `StableSort.MovedIsSorted` | cw02/zad1/src/operations.c:75-92 | one insertion at its place sorts one record more |
| `StableSort.MovedIsStable` | cw02/zad1/src/operations.c:75-92 | one insertion at its place keeps the records of each key in order |
| `RecordFile.OffsetIsIntended` | cw02/zad1/src/file_desc.c:126-132 | the product wrapped in size_t and read back as off_t is the intended one if and only if an off_t can hold that |
| `RecordFile.OffsetWraps` | cw02/zad1/src/file_desc.c:108-133 | any other product is read back as the number in the range of off_t that differs from it by a multiple of 2^64 |
| `RecordFile.SeekBackLands` | cw02/zad1/src/file_desc.c:126-132 | going back n records lands n records back inside the file |
| `RecordFile.File.Read` | cw02/zad1/src/file_desc.c:74-85 | every byte of the buffer is the byte of the file at its place behind the cursor, or what it was where the file has ended; the cursor moves by the bytes read |
| `RecordFile.File.Write` | cw02/zad1/src/file_desc.c:87-98 | every byte of the file is that of the buffer in the range written, the old one elsewhere, and 0 in a gap behind the old end; the cursor moves behind it |
| `RecordFile.File.SeekRow` | cw02/zad1/src/file_desc.c:108-115 | sets the cursor to the product modulo 2^64, or leaves it where that is 2^63 or more |
| `RecordFile.File.SeekRowRel` | cw02/zad1/src/file_desc.c:126-133 | moves the cursor by the product taken into the range of off_t, or leaves it when the target is out of that range |
| `RecordFile.OverwriteRow` | cw02/zad1/src/file_desc.c:87-98 | a write of one record at its place changes that record and nothing else |
| `FileSort.InsertedMoves` | cw02/zad1/src/operations.c:72-90 | the inner loop moves the record in hand to its place among the records before it and touches nothing behind the records |
| `FileSort.SortingSorts` | cw02/zad1/src/operations.c:66-93 | after each turn of the outer loop the records so far are sorted, stably, the others as they were, and everything behind them unchanged |
| `RecordSort.InsertRow` | cw02/zad1/src/operations.c:72-90 | the do-while loop with its seeks, reads and writes does what `FileSort.Inserted` says, on a file of any length |
| `RecordSort.OpSort` | cw02/zad1/src/operations.c:53-96 | in a file that holds the records they end up sorted by first byte, records with equal first bytes in their old order, everything behind the records and the length of the file unchanged; any other file becomes what `FileSort.Sorting` makes of it, which is what `SortLimits` is about |
| `ShortFiles.OneRowTooMany` | cw02/zad1/src/operations.c:66-93 | with one record too many asked for, the greatest record is overwritten by a second copy of the one that was last in the file |
| `ShortFiles.GrowsWithTwoMissing` | cw02/zad1/src/operations.c:66-90 | with two or more the file gets longer |
| `PartialRows.PartIsPutIn` | cw02/zad1/src/operations.c:67-90 | a part of a record behind the last whole one is taken up together with old bytes of the buffer and inserted among the records that begin that many bytes behind the records of the file; the bytes before those stay |
| `PartialRows.PartKeptIff` | cw02/zad1/src/operations.c:66-93 | that keeps the file sorted, with all its records, if and only if what is taken up is what stood there already and fits behind the row before it |
| `SortLimits.SortsExactlyWhen` | cw02/zad1/src/operations.c:53-96 | for every file: sorting m records keeps the length and all records, and sorts, if and only if the file holds m records, or m is at most 1, or the file has at least two and lacks a single one that does no harm, because the last record is among the greatest or the part of a record behind it fits |
| `SortLimits.SortsEveryFileIff` | cw02/zad1/src/operations.c:53-96 | sorting m records does so on every file of a length if and only if m is at most 1 or a file of that length holds m records |
| `Convolution.Filter.Randomize` | cw08/zad1/src/filter.c:20-43 | for all draws: the sum is positive if and only if some draw is, and then the weights are not negative, sum up to 1, and the weight stored at row times size plus column, times the sum, is its draw times 2 / size / size |
| `Convolution.Image.GetPixel` | cw08/zad1/src/pgm.c:19-21 | reads the pixel of a column and a row inside the data |
| `Convolution.Image.SetPixel` | cw08/zad1/src/pgm.c:23-25 | changes that pixel and no other |
| `Convolution.ApplyFilter` | cw08/zad1/src/filter.c:45-72 | reads inside the image only, and wherever the plain sum, row by row, of the weights times the clamped pixels lies between -0.5 and 255.5 the result is the pixel value nearest to it, an exact half going up |
| `Convolution.FilteredIsNearest` | cw08/zad1/src/filter.c:45-72 | the function that the loops and the threads are held against is that nearest value, for every filter, image and position |
| `Convolution.StaysWithinTheImage` | cw08/zad1/src/filter.c:45-72 | a normalized filter stays between the darkest and the brightest pixel, so a constant image is kept |
| `Convolution.ClampIsNearest` | cw08/zad1/src/filter.c:58-61 | a position outside the image is replaced by the nearest one inside |
| `Convolution.RoundIsNearest` | cw08/zad1/src/filter.c:71 | the nearest integer, halves away from zero |
| `Convolution.OneWeightCopies` | cw08/zad1/src/filter.c:45-72 | a filter with a single weight of 1 copies the clamped pixel under it; in the middle it is the identity |
| `ParallelFilter.StepKeepsInv` | cw08/zad1/src/main.c:46-67 | every step keeps strides apart, pixels painted once, the try-lock exclusive and the count exact |
| `ParallelFilter.ProgressIsExact` | cw08/zad1/src/main.c:59-66 | pixels_processed plus what the threads have not added yet is the number of pixels done, in every state; no addition to it is lost, and each is of more than thread count + 5 pixels |
| `ParallelFilter.TryNeverWaits` | cw08/zad1/src/main.c:61 | a thread takes the lock when it is free and goes on filtering, with its batch, when it is not |
| `ParallelFilter.UpdatesWouldBeLost` | cw08/zad1/src/main.c:61-66 | two threads that both read the counter before either writes it, which the lock prevents, would lose the batch of the first |
| `ParallelFilter.LastPixelsAreNotCounted` | cw08/zad1/src/main.c:51-73 | nothing counts the last pixels: with one thread, whatever the image, the counter ends at the number of pixels less its remainder modulo 7 |
| `ParallelFilter.FiltersTheImage` | cw08/zad1/src/main.c:46-67 | for any number of threads and any interleaving, every run ends with each pixel written once and the output equal to filtering pixel by pixel |
| `Registry.Server.FreeId` | cw10/zad1/src/server_cllist.c:26-39 | the first free slot, or -1 exactly when there is none |
| `Registry.Server.ForAddr` | cw10/zad1/src/server_cllist.c:41-55 | the first active client at the address, or -1 |
| `Registry.Server.IsNameTaken` | cw10/zad1/src/server_cllist.c:72-85 | whether an active client has the name |
| `Registry.Server.Register` | cw10/zad1/src/server_cllist.c:87-123 | refuses exactly the names of active clients and then changes nothing; else the first inactive slot, if there is one, becomes active with the name, socket and address given and a counter of 0, and every other slot keeps all its fields; names stay apart |
| `Registry.Server.Unregister` | cw10/zad1/src/server_cllist.c:125-145 | for an id of 0 or more that slot is inactive with its other fields as they were, and every other slot is unchanged; for a negative one nothing changes |
| `Registry.Server.Pong` | cw10/zad1/src/server_listen.c:21-23 | clears the counter of one client |
| `Registry.Server.PingRound` | cw10/zad1/src/server_pinger.c:18-44 | a slot is active afterwards if and only if it was and its counter was at most CONF_INACTIVITY_MAX, and then the counter is one more; name, socket and address stay; exactly the active ones are pinged, each once, in order |
| `Registry.Server.NextFree` | cw10/zad1/src/server_cllist.c:166-188 | the active client nearest behind the last one picked, or -1 exactly when nobody is active; free_cl stays in 0..CONF_CLIENTS_MAX |
| `Registry.InsertKeepsNames` | cw10/zad1/src/server_cllist.c:101-122 | inserting keeps names apart if and only if the name is free at that moment or there is no room |
| `Registry.TwoChecksFirst` | cw10/zad1/src/server_cllist.c:91-103 | two checks before either insertion put the name in the table twice |
| `RoundRobin.PickedSoon` | cw10/zad1/src/server_cllist.c:168-188 | a client that stays active is picked within CONF_CLIENTS_MAX calls, however the table changes |
| `RoundRobin.NoBypass` | cw10/zad1/src/server_cllist.c:168-188 | a client that stays active is picked between any two picks of another one |
| `RegistryRuns.MessagesFindTheirSender` | cw10/zad1/src/server_listen.c:64-96 | a pong or a leave is taken for the first active client at the sender's address, or for nobody if there is none; a registration goes on to the name check; any other message leaves the whole state as it is but for the listener, which is idle again |
| `RegistryRuns.MessagesAreCarriedOut` | cw10/zad1/src/server_cllist.c:87-145 | each step of the listener changes the table and the log as the message asks: the first inactive slot is taken, with all its fields, or none if the name is in use; the slot that leaves is inactive; the counter of the one heard of is 0; no other slot changes |
| `RegistryRuns.OthersLeaveNoTrace` | cw10/zad1/src/server_listen.c:90-97 | in every run, from the delivery of a response or of an unknown message to the next delivery the listener changes no slot and logs nothing |
| `RegistryRuns.TableFollowsTheLog` | cw10/zad1/src/server_cllist.c:101-145 | in every state of every run a slot is active if and only if the log has somebody in it, who has neither left nor been visited more than CONF_INACTIVITY_MAX + 1 times without being heard of |
| `RegistryRuns.GoneUntilTaken` | cw10/zad1/src/server_cllist.c:125-145 | after a client has left its slot is inactive until the next one takes it |
| `RegistryRuns.RoundIsLocked` | cw10/zad1/src/server_pinger.c:18-44 | during a round the listener can write down a pong and do nothing else, which makes nobody active or inactive; between rounds it can go on with anything |
| `RegistryRuns.StepKeepsInv` | cw10/zad1/src/server_listen.c:38-99 | every step of listener and pinger keeps names apart, a checked name free, counters and rounds exact |
| `RegistryRuns.NamesStayDistinct` | cw10/zad1/src/server_cllist.c:72-145 | in every interleaving active names differ, cl_inactivity is the number of visits since the client was last heard of, and each round visits each slot once |
| `RegistryRuns.DroppedAfterSilence` | cw10/zad1/src/server_pinger.c:18-44 | a silent client is active if and only if it has been visited at most CONF_INACTIVITY_MAX + 1 times: the next visit drops it, for good |
| `RegistryAnswers.AnsweringKeepsTheSlot` | cw10/zad1/src/server_listen.c:64-88 | a client that never leaves more than CONF_INACTIVITY_MAX + 1 visits without a pong stays active in every run, as long as no earlier active slot has its address |
| `RegistryAnswers.ShadowedIsDropped` | cw10/zad1/src/server_listen.c:64-88 | behind an earlier active slot with its address it is dropped as if it had kept silent, whatever it sends |
| `RegistryAnswers.KeptIffFirst` | cw10/zad1/src/server_cllist.c:41-55 | so a client that answers in time survives more than CONF_INACTIVITY_MAX + 1 visits if and only if no earlier active slot has its address |
| `SharedAddress.AnsweringIsNotEnough` | cw10/zad1/src/server_cllist.c:87-123 | for every address there is a run in which two clients with different names register from it and the second one, though it answers every ping before the next one, is dropped |
| `Signals.StepKeepsInv` | cw04/zad3/src/main.c:70-94 | every step keeps one request under way exactly while the parent waits |
| `Signals.NeverStuckEarly` | cw04/zad3/src/main.c:88-91 | no wake-up is missed between the test of the flag and sigsuspend |
| `Signals.StepDoesWork` | cw04/zad3/src/main.c:81-94 | every step lowers a natural number |
| `Signals.NothingIsMerged` | cw04/zad3/src/child.c:15-21 | in every state of every run: when either side is about to send SIGUSR1, none is pending at the other, so none is merged; one at most is under way; counts on both sides differ by that one, and agree before the final send |
| `Signals.HandlerRunsInSuspend` | cw04/zad3/src/main.c:84-93 | in every run the handler of the parent runs inside sigsuspend only, not between the test of the flag and it |
| `Signals.EveryRequestIsAnswered` | cw04/zad3/src/main.c:29-104 | every run ends with every signal received by the child and one reply received for each request |

## Left out

- Sleeping barber: shared memory and identifier set-up, and interrupted waits. The key that spawns more clients is covered by letting their number be any: they come in whenever they like, and the theorems ask only how many are in the shop at a time.
- Producers and consumers: cancellation under a time limit, command line and configuration, failing system calls, overflow of the semaphore counters.
- SemLineProofs.EveryRunEndsCleanly: the bound is the work of the first state, not the exact number of steps.
- Cancellation is modelled at the waits and before the first loop, where it is enabled; the calls that switch it on and off are part of the neighbouring steps.
- Interpreter.InterpretLine: after an error return the buffer and args are left unspecified, as the original's caller does not use them. An access outside the buffer or args ends the model's call; what it does to the memory there is not part of this model. White space is that of the C locale.
- Pipeline.Shell.ExecCommand: pipe and vfork succeed; exec, exit statuses and waiting are not part of this model, and neither is who else holds read ends, which the parent never closes.
- RecordSort.OpSort: the record size is positive, since an array of length 0 is undefined in C. Interrupted or failing reads and writes are left out, and so is the stream mode, which writes behind a read without repositioning.
- SortLimits.SortsExactlyWhen: two more records than the file holds have offsets that an off_t can hold.
- ParallelFilter.LastPixelsAreNotCounted: for one thread; with more of them what is left uncounted depends on the run.
- Generating and copying record files.
- Convolution.Filter.Randomize: over the reals, without floating-point rounding; when all draws are 0, or there are none, the model stops where the original divides 0 by 0.
- Convolution.ApplyFilter: over the reals; the conversion of a rounded sum outside 0..255 to a byte, undefined in C, is taken modulo 256, and no property of that is claimed.
- Reading and writing image and filter files, the progress printer, and thread creation.
- RegistryRuns.NamesStayDistinct: for the datagram build with its single listener; in the stream build two accepting threads may insert the same name (`TwoChecksFirst`).
- The lock of the registry is recursive and its nested uses are not steps of their own; each write of one slot is one step. Sockets, responses, logging and shutdown of the server are left out.
- Signals: modes 1 and 3, SIGINT, failing kill, and the start, where the child's handlers are assumed to be in place before the first signal.
- The other exercises: directory listing, message queues, the allocator and its nearest-sum search (which compares with a wrong index), and the earlier copies of the command interpreter.

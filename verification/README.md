# A verified model of the web server

The server is a multi-threaded HTTP server in C. One thread accepts connections and puts them in a bounded
ring buffer; a fixed pool of workers takes them out, handles the requests, keeps statistics per thread and
appends records to a shared log guarded by a readers/writer lock with writer priority; a POST returns the log.
This project models those parts in Dafny and proves what they promise, one by one and together.

`dafny verify dfyconfig.toml` checks everything.

## How the model is built

Each C object that is updated in place is a class with the same fields, and each function a method with the same
branches and loops: `ServerLog` (log.c), `RequestQueue` (server.c), `Rio` over a `Descriptor` (segel.c), `ThreadStats`
(request.c). Their contracts are stated with functions on values (`Counters`, `Usage`, `Ring`, `Stats`, strings).

Concurrency is modelled by step systems over the same functions.

- **The log** (`LogMachine`): any number of threads, each with a program of `get_log` and `add_to_log` calls, an explicit
  mutex, two wait sets. Taking the mutex, testing a loop condition, reading `size`, copying one byte, swapping the
  buffer, updating `size`, storing the NUL are separate steps, because readers work without the mutex.
- **The pool** (`PoolMachine`): main, any number of workers, one mutex, two wait sets, a clock that never goes back. Every
  locked section ends before anything blocks other than in `pthread_cond_wait`, so one pass through a section is one step.
- **The server** (`ServerMachine`): pool and log side by side, and between them the phases of `requestHandle`. Worker `w`
  is thread `w` of both; the pool closes a connection only after its request has been handled, log call included. Every
  connection of the batch has an `Input`: the bytes it brings decide the method and whether the header loop of a GET ends;
  a worker whose header loop does not end takes no further step.

Condition variables follow POSIX.1-2017 (`pthread_cond_wait`, `pthread_cond_signal`): a signal unblocks at least one sleeper
if there is one, any set of them may be unblocked, a broadcast unblocks all, and sleepers may wake spuriously. A run
has a finite number of spurious wakeups, of any size.

A `FiniteRun` is a sequence of states from an initial one. A `MaximalRun` is a function from step numbers to states that
moves whenever any step is possible. "Every maximal run ends with ..." is proved by a lexicographic rank that falls at every
step, together with the fact that a state in which nothing can move is a finished one.

| files | contents |
|---|---|
| `Sums`, `Runs`, `Memory`, `Clock` | sums over threads, runs and ranks, memcpy, `struct timeval` |
| `LockCounters`, `Growth`, `LogObject` | decisions of the lock, growth policy, the log object |
| `LogMachine`, `LogControl`, `LogData`, `LogSafety`, `LogLiveness` | the log as a step system, its invariants and theorems |
| `BoundedQueue`, `PoolMachine`, `PoolInvariant`, `PoolTheorems` | the ring buffer and the pool |
| `RioReader`, `Headers` | the buffered reader and the header loop |
| `Format`, `Records` | `sprintf`, the statistics block, decoding a log |
| `RequestLine`, `Requests`, `ServerMachine` | what a connection brings, one request, and the whole server as a step system |
| `ServerInvariant`, `ServerRequests` | its invariants: counters and records, and which request went where |
| `ServerTheorems` | what holds in every reachable state |
| `ServerRecords`, `ServerAnswers`, `ServerPosts` | which request has which record and what it shows, which POST got which answer |
| `ServerLiveness` | what every maximal run ends with |

## Where the code differs from its description

- `add_to_log` puts nothing between entries (log.c:109-111), although some tests expect a newline between records. The model
  concatenates, and the proof shows that the log can be decoded all the same.
- `rio_readlineb` returns the number of bytes stored only when the line ends in a newline; when it ends at end of file or at the
  length limit it returns one more (segel.c:408-425); `ResultIsLengthAtNewline` says exactly when, `ResultOffByOne` gives inputs.
  At end of file with nothing read it returns 0 and leaves the caller's buffer alone.
- `requestReadhdrs` ends only if an empty line is still to come; at end of file its buffer does not change and the loop repeats
  for ever (request.c:72-75). `EndsExactlyWhenBlankAhead` gives the exact condition, `UnfinishedHeaderNeverEnds` an input. Such a
  request holds its worker and its slot for ever, so "every connection is served" is false; `ConnectionsServed` says for every
  connection of a batch exactly when it is served: fewer connections before it have endless headers than there are workers, and
  than there are slots, and its own header ends. `OneUnfinishedRequestBlocksAll` is an instance.
- A request for an empty file is counted as static in the record that is logged, although the counter has been taken back by then
  (request.c:167-174, 256-261).
- The tests of `writers > 0` at both gates of the lock never decide anything (log.c:40, 59), and the wait loop inside `enqueue` is
  never entered (server.c:58-60).

## Model

| member | source | states |
|---|---|---|
| LogObject.ServerLog.constructor | log.c:7-23 | a new log is empty, terminated, of capacity 4096, with nobody inside or waiting |
| LogObject.ServerLog.TryStartRead | log.c:38-45 | a reader is admitted exactly when no writer is inside or waiting, and only then counted |
| LogObject.ServerLog.EndRead | log.c:47-54 | the last reader to leave signals the writers, others nobody |
| LogObject.ServerLog.Register | log.c:56-58 | a writer is counted as waiting before its first test |
| LogObject.ServerLog.TryStartWrite | log.c:59-63 | a writer is admitted exactly when nobody is inside, and stops being counted as waiting |
| LogObject.ServerLog.EndWrite | log.c:66-74 | a leaving writer signals a writer if one waits, and otherwise wakes all readers |
| LogObject.ServerLog.GrowCapacity | log.c:98-101 | the doubling loop ends at the least doubling that holds old text, new entry and NUL |
| LogObject.ServerLog.EnsureRoom | log.c:97-107 | reallocates exactly when the source does; afterwards the old text is intact and the entry with its NUL fits; what was moved is accounted |
| LogObject.ServerLog.Append | log.c:97-111 | the text becomes the old text followed by the entry, still terminated and within the growth bound |
| LogObject.ServerLog.Snapshot | log.c:82-84 | a fresh copy of the whole text with its NUL, and its length |
| LogObject.ServerLog.AddToLog | log.c:91-116 | an uncontended call appends exactly the entry and leaves the lock as found; an empty entry does nothing |
| LogObject.ServerLog.GetLog | log.c:77-87 | an uncontended call returns the whole text and changes nothing |
| Growth.DoubledIsLeast | log.c:98-101 | the loop's result is the capacity times a power of two, and either no doubling was needed or it is below twice the need |
| Growth.MakeRoomKeepsBound | log.c:97-107 | making room keeps: capacity 4096 times a power of two, at most twice what it holds or 4096, moved bytes at most capacity minus 4096 |
| Growth.GrowthIsAmortised | log.c:7-12 | over any sequence of appends these bounds hold, size is the sum of the entries, and reallocation moved at most twice the size |
| LogControl.StepKeepsControl | log.c:38-74 | every step keeps exact counters, unique mutex ownership, exclusion, and somebody to wake every sleeper |
| LogData.WriterIsAlone | log.c:56-74 | a thread inside an append holds the mutex with no reader and no other writer inside |
| LogData.StepKeepsData | log.c:77-116 | every step keeps what the buffer, each partial copy, each partial append and each finished snapshot must hold |
| LogData.TextPrefix | log.c:109-111 | the text of earlier entries is a prefix of the text of later ones |
| LogSafety.ReachableInv | log.c:38-116 | control and data invariants hold in every state of every run |
| LogSafety.WriterExcludesAll | log.c:56-74 | in every reachable state a writer inside holds the mutex, readers is 0, and no other thread is inside |
| LogSafety.CountersWithMutexFree | log.c:38-74 | with the mutex free, writers is 0, readers counts admitted readers, waiting_writers counts sleeping and woken writers |
| LogSafety.NoLostWakeup | log.c:38-74 | a sleeping writer has a reader inside, a writer inside or a writer on its way; a sleeping reader has a writer waiting or inside |
| LogSafety.WritersTestIsRedundant | log.c:40-59 | the system without the tests writers > 0 has exactly the same runs |
| LogSafety.WaitingWriterBlocksReaders | log.c:40-43 | while a writer waits no step admits a reader or raises readers |
| LogSafety.WritersHavePriority | log.c:38-64 | from registration to admission of a writer, over any stretch of any run, no reader is admitted and readers never rises |
| LogSafety.ReaderBodyIsConsistent | log.c:82-84 | the three separate reads of size agree and the partial copy is the front of the buffer, although the mutex is free |
| LogSafety.SnapshotsAreLinearizable | log.c:77-87 | each call of get_log has a step inside it at which it passed the gate, and returns the concatenation of exactly the entries finished by that step, terminated, and its length |
| LogSafety.AnswersAreFresh | log.c:77-113 | an entry whose append finished before a call passed the gate is in its answer, at its place |
| LogSafety.LaterAnswersExtend | log.c:77-87 | a call that passes the gate after another has returned answers with an extension of its answer |
| LogSafety.SnapshotsArePrefixOrdered | log.c:77-116 | of any two snapshots of a run the earlier admitted is a prefix of the other |
| LogSafety.HistoryGrows | log.c:109-113 | finished entries are never lost or reordered along a run |
| LogSafety.BufferHoldsHistory | log.c:97-111 | when nobody is appending, the buffer holds the whole history, terminated, within the growth bounds |
| LogSafety.MovedIsCounted | log.c:97-107 | the account of moved bytes is the number of steps that have copied a byte into a new buffer |
| LogSafety.CallsAreConserved | log.c:77-116 | per thread, entries recorded and appends to come are its program's appends in order, and snapshots and calls to come are its get_log calls |
| LogLiveness.AccessesAreInBounds | log.c:82-111 | in every reachable state no read or write of the buffer, the new buffer or a copy is outside its block |
| LogLiveness.SomebodyIsReady | log.c:38-74 | unless all threads are done some thread can move: there is no deadlock |
| LogLiveness.StepLowersRank | log.c:38-116 | every step lowers the rank: spurious wakeups, then steps of calls including those they cause by waking, then bytes |
| LogLiveness.EveryCallCompletes | log.c:38-116 | every maximal run, for any programs and finitely many spurious wakeups, completes every call; the log then holds each thread's appends in order |
| Clock.TimerSubIsDifference | server.c:102-106 | the interval is the exact difference, normalised, and non-negative exactly when the clock did not go back |
| BoundedQueue.PutAppends | server.c:61-65 | storing in a ring that is not full appends to the queue and overwrites nothing undelivered |
| BoundedQueue.TakeRemovesFirst | server.c:76-80 | taking removes the oldest request and keeps the order of the others |
| BoundedQueue.RequestQueue.constructor | server.c:43-55 | a new queue is empty and has the given capacity |
| BoundedQueue.RequestQueue.Enqueue | server.c:56-68 | refuses exactly when size equals capacity, otherwise appends one request |
| BoundedQueue.RequestQueue.Dequeue | server.c:71-84 | refuses exactly when nothing is queued, otherwise returns the oldest and keeps its slot counted |
| BoundedQueue.RequestQueue.FinishHandling | server.c:85-90 | gives back one slot and leaves the queue alone |
| PoolInvariant.StepKeepsSlots | server.c:56-90 | every step keeps slot accounting, the wakeup guarantee and the impossibility of a full queue once main has passed its test |
| PoolInvariant.StepKeepsFifo | server.c:56-90 | every step keeps: dispatched then queued is enqueued, and that then what main carries is accepted |
| PoolInvariant.StepKeepsClosedOnce | server.c:101-109 | every step keeps: each dispatched request is handled by one worker or has been closed once, no other has |
| PoolInvariant.StepKeepsTimes | server.c:71-84 | every step keeps stamps ordered and intervals exact |
| PoolInvariant.StepKeepsBackPressure | server.c:164-174 | every step keeps the lower bound on releases at each arrival stamp |
| PoolTheorems.RingIsFifo | server.c:43-90 | in every reachable state rear is front plus queued modulo capacity, size minus queued is the workers in service, and dispatch order is accept order |
| PoolTheorems.NoLostWakeup | server.c:56-90 | when a worker sleeps on not_empty at least as many workers are woken and not run as requests are queued; main sleeps only when the queue is full |
| PoolTheorems.BackPressureHolds | server.c:164-174 | stamps and requests are numbered alike, the stamp of request k is taken after at least k minus capacity plus 1 releases, and the wait loop in enqueue is never entered |
| PoolTheorems.StampsAreOrdered | server.c:71-84 | under any non-decreasing clock arrival and dispatch stamps are sorted and arrival plus interval is the dispatch instant |
| PoolTheorems.DispatchStampIsNow | server.c:71-84 | the step that dequeues a request takes the oldest one, stamps it with the instant of that step, and hands its worker the exact interval |
| PoolTheorems.ArrivalStampIsNow | server.c:171-173 | the arrival stamp is the instant at which main read the clock, and is stored unchanged |
| PoolTheorems.ResourcesAreBounded | server.c:164-174 | at most capacity plus 1 connections are accepted and unclosed, at most min(workers, capacity) requests are in service |
| PoolTheorems.CountClosings | server.c:101-109 | closings plus requests being handled add up to the requests dispatched |
| PoolTheorems.StuckMeansQuiescent | server.c:56-113 | the pool can stop only with every worker asleep, nothing queued or in service, and main in accept with no connection left |
| PoolTheorems.SettledMeansServed | server.c:56-113 | if fewer requests than workers and than slots are never finished, all others leave the queue and main gets back to accept |
| PoolTheorems.StepLowersRank | server.c:56-174 | every step of the pool lowers its rank |
| PoolTheorems.EveryConnectionIsServed | server.c:91-174 | when handling always ends, every maximal run serves any finite batch and stops: dispatched in order, each connection closed exactly once, everybody idle |
| RioReader.LineIsShortest | segel.c:404-426 | a line is the shortest prefix that ends in newline, reaches the limit or hits end of file |
| RioReader.ResultIsLengthAtNewline | segel.c:408-425 | the result is the number of bytes stored exactly when the line ends in a newline or nothing was left, otherwise one more |
| RioReader.ResultOffByOne | segel.c:408-425 | inputs for which it is one more: at end of file and at the limit |
| RioReader.Rio.constructor | segel.c:367-371 | a new reader has an empty cache: what remains is what the descriptor has |
| RioReader.Rio.Refill | segel.c:337-349 | the refill loop survives any interruptions, loses nothing, and ends with bytes cached, at end of file, or with -1 exactly when a read failed |
| RioReader.Rio.ReadSome | segel.c:334-360 | delivers the next bytes in order, as many as returned; 0 only at end of file or when none were asked for, -1 exactly when a read failed |
| RioReader.Rio.ReadN | segel.c:378-397 | for every chunking delivers exactly the next min(n, remaining) bytes |
| RioReader.Rio.FillLine | segel.c:408-423 | the loop stores exactly one line and computes the value to be returned |
| RioReader.Rio.ReadLine | segel.c:404-426 | for every chunking stores exactly one line with a NUL and consumes exactly it; the result is as the code computes it, off by one included |
| RioReader.RunCalls | segel.c:334-426 | any mix of calls delivers what the same calls deliver from the plain stream, whatever read does, and fails exactly when a read failed |
| RioReader.DeliveryIsFaithful | segel.c:334-426 | the parts delivered, joined, followed by what is left, are the stream: no byte lost, repeated or reordered |
| Headers.BlankIsFirstEmptyLine | request.c:69-77 | the specification of the header loop is about the first empty line in the stream split as rio_readlineb splits it |
| Headers.ComparisonDecides | request.c:73 | the C string comparison recognises exactly the empty header line |
| Headers.RoundsReachBlank | request.c:72-75 | after n calls the loop has ended iff the first empty line is among the first n lines, and then what is left is what follows it |
| Headers.ReadOneHeader | request.c:72-75 | one call consumes one line, or at end of file nothing, and reports whether the buffer now holds an empty line |
| Headers.ReadHeaders | request.c:69-77 | for every chunking and number of rounds the loop has seen what Rounds says of the plain stream: it has ended iff an empty line lies that near, and then exactly the lines through it are consumed |
| Headers.EndsExactlyWhenBlankAhead | request.c:72-75 | some number of rounds of the loop ends it iff an empty line is still to come |
| Headers.UnfinishedHeaderNeverEnds | request.c:72-75 | an input for which no number of rounds ends the loop |
| RequestLine.FirstTokenIsFirstWord | request.c:233 | the token taken from the request line is the whole first word, blanks before it skipped |
| RequestLine.MethodDecides | request.c:235-291 | the first word, whatever its case, decides between the outcomes of a GET, the answer to a POST, and an unsupported method |
| RequestLine.PlainRequestLine | request.c:233-291 | so it does for every stream that starts with a word and a blank |
| RequestLine.HeaderEndsMeans | request.c:229-236 | a request's header ends iff some number of rounds of the header loop, started after the request line, ends it |
| RequestLine.HeaderEndsAtEmptyLine | request.c:69-77 | that is, iff an empty line is among the lines after the first |
| RequestLine.EndlessMeans | request.c:69-77 | a request is endless iff it is a GET for which no number of rounds ends the loop |
| RequestLine.ShortestGetEnds | request.c:229-236 | a GET without header lines ends |
| RequestLine.ReadRequest | request.c:226-236 | on a new reader, for every chunking: the first line is read, its first word taken, and for a GET the header loop has ended iff Rounds says so, within as many rounds as there are bytes iff the header ends |
| Format.DecimalValue | request.c:12-30 | decimal digits denote the number printed and have no leading zero |
| Format.ScanUndoesPrint | request.c:12-30 | scanning printed text gives back the values and leaves what follows |
| Format.PrintUndoesScan | request.c:12-30 | scanning accepts nothing but printed text |
| Records.BlockText | request.c:8-32 | the block is seven labelled lines and an empty line, each counter under its own label |
| Records.BlockFits | request.c:254-259 | with numbers of 64 bits a block and its NUL fit a buffer of MAXLINE characters |
| Records.AppendStats | request.c:8-32 | the block is appended to the C string already in the buffer and the result is the new length |
| Records.Sprintf | request.c:12-13 | writes the text and a NUL at the offset and returns the text's length |
| Records.StrLen | request.c:10 | the offset of the first NUL |
| Records.ScanUndoesBlock | request.c:8-32 | a block followed by anything reads back as its record |
| Records.BlockUndoesScan | request.c:8-32 | only blocks read as blocks |
| Records.DecodeUndoesBlocks | log.c:109-111 | a log decodes to exactly the records it was made of, for all non-negative seconds and counters and all microseconds |
| Records.BlocksUndoDecode | log.c:109-111 | only concatenations of blocks decode |
| Records.LogIsUnambiguous | log.c:109-111 | two record sequences with the same log text are the same |
| Requests.SeriesAddsUp | request.c:234-291 | after any series of requests each counter has grown by the requests of its kind and the total by those with a request line; each request is of one kind |
| Requests.EmptyFilesAreUndone | request.c:167-174 | wherever empty files occur in a series they leave no trace in the counters but the total; a request is recorded with other counters than it leaves behind exactly if it is for an empty file |
| Requests.ThreadStats.ServeStatic | request.c:150-201 | an empty file takes the static request back and is answered with an error carrying the corrected counters |
| Requests.ThreadStats.ServeContent | request.c:255-279 | the block is formatted with the request counted and before an empty file is taken back, the content is served, and the block is appended |
| Requests.ThreadStats.Handle | request.c:219-294 | each counter, the log and the answer after one request, for every outcome: one block exactly for static and dynamic requests, which decodes to a record with this request counted; POST answered with the whole log |
| ServerTheorems.StepsMatchCall | request.c:219-294 | the handling steps of the step system, in order, give the counters and the logged record that Handle promises |
| ServerInvariant.StepKeepsInv | server.c:91-113 | every step of the whole server keeps the invariants of pool and log and the agreement of counters, records and entries |
| ServerInvariant.BranchKeepsBalance | request.c:254-279 | counting a request and formatting its record keeps: counts in records increase, kinds within the count, static plus dynamic equal to the position less empty files, and the balance of counters, records and errors |
| ServerInvariant.BranchKeepsTally | request.c:235-291 | counting a request keeps each counter equal to the number of requests of its kind |
| ServerRequests.StepKeepsFull | server.c:91-113 | every step keeps: each dispatched request comes to one worker once, each record carries the stamps of its request, log calls are appends of the current record or reads of a POST, no request past its header is endless |
| ServerRequests.ClosedIsNotEndless | request.c:69-77 | a connection that has been closed had a header that ends |
| ServerRequests.EndlessAreHeld | server.c:91-113 | every dispatched request that never ends is held by a worker, no worker holds two, and there are at least as many busy workers as such requests |
| ServerTheorems.LogMatchesCounters | request.c:234-291 | in every reachable state log records plus appends on their way equal static and dynamic requests plus empty files taken back |
| ServerTheorems.TotalsAddUp | request.c:234-291 | between requests the counters are those of the series of requests handled: each is the number of its kind, and the total is static plus dynamic plus post plus errors |
| ServerTheorems.EachRequestIsHandledOnce | server.c:101-109 | in every reachable state each dispatched request has come to exactly one worker exactly once, and a closed one has been read |
| ServerTheorems.LogDecodes | request.c:254-279 | in every reachable state the log text decodes, entry by entry, to the records its writers formatted, in their order |
| ServerTheorems.AnswersDecode | request.c:203-216 | whatever the log answers goes to a worker answering a POST, was fixed at one step inside that call, and decodes to the records of exactly the entries finished by that step |
| ServerTheorems.AnswersTellOfClosed | request.c:203-277 | read your writes: for every static or dynamic request closed before its call passed the gate, the answer to a POST has the entry formatted for that request, with its thread and stamps |
| ServerTheorems.AnswersAreFresh | log.c:77-113 | inside the server too, an entry finished before a call passed the gate is in its answer, at its place |
| ServerTheorems.LaterAnswersExtend | log.c:77-87 | inside the server too, a call that passes the gate after another has returned answers with an extension of its answer |
| ServerTheorems.WritersHavePriority | log.c:38-64 | inside the server too, while a worker waits to append, no POST is let in and readers never rises |
| ServerTheorems.ThreadRecordsInOrder | request.c:234-277 | records of one thread appear in handling order with strictly increasing Count, kinds within Count, and static plus dynamic equal to k less earlier empty files |
| ServerAnswers.RecordCounters | request.c:8-32 | in every reachable state every entry of the log is the record of a request of its writer and shows, each under its own name, the number of requests of each kind before it, with this one counted |
| ServerAnswers.PostsAreAsked | request.c:203-216 | a worker's answers, calls of get_log under way and the call it is about to make are as many as its POSTs |
| ServerRecords.RecordsMatchRequests | request.c:234-291 | in every reachable state no request has two entries in the log, only static and dynamic requests have one, and every closed one of these has it |
| ServerRecords.MethodIsObeyed | request.c:233-291 | in every reachable state a request that was read turned out as the first word of its line says |
| ServerPosts.PostsAreAnswered | request.c:203-216 | in every reachable state a closed request has exactly one answer of the log iff it turned out a POST, and every answer was given, linearized, while its request was being handled |
| ServerLiveness.StuckMeansResting | server.c:56-174 | the whole server can stop only with the log idle, main unable to go on, and every worker asleep or in a header loop that does not end |
| ServerLiveness.NextLowersRank | server.c:91-174 | every step of the whole server, log steps included, lowers one lexicographic rank |
| ServerLiveness.ConnectionsServed | server.c:91-174 | every maximal run stops, and then for every connection of any batch: dispatched in its turn iff fewer connections before it are endless than there are workers and than there are slots, closed once iff besides it is not endless, otherwise not at all; a closed one turned out as its method says, has one entry in the log iff static or dynamic, and got one answer in time iff a POST |
| ServerLiveness.OneUnfinishedRequestBlocksAll | request.c:72-75 | with one worker and an unfinished GET first, every maximal run closes no connection at all |
| ServerLiveness.LogAtRest | request.c:254-279 | then each worker has in the log exactly its records in order, as many as the counters say, and the text decodes to them |
| ServerLiveness.EveryConnectionIsServed | server.c:91-174 | if every header ends, every maximal run dispatches the whole batch in order, reads and closes each connection once, records each static or dynamic one in exactly one entry, answers each POST exactly once, ends with everybody idle, and leaves a log that decodes to exactly the records formatted |

## Left out

- Sockets, `Accept`, name lookup and the wrappers that exit the process on an error: a connection is a number in the batch, and a wrapper that exits ends the run.
- Serving file bytes, memory mapping, file modes and CGI children: each request has an arbitrary `Outcome`. The branches after a failed `Open` or `Mmap` (request.c:159-165, 178-186) cannot be reached because those wrappers exit.
- Response text other than the statistics block, and the aliasing of source and destination in some `sprintf` calls: formatting only.
- `requestParseURI`, `requestGetFiletype`, `rio_readn`, `rio_writen`: short tables, or the same loop argument with less state.
- Null arguments of `get_log` and `add_to_log`, and negative lengths: not passed by any caller. An entry of length 0 is modelled.
- Fixed widths of `int` and `size_t`, including the narrowing of the result of `get_log`, and exhausted memory: sizes are natural numbers, allocation succeeds. `ThreadStats.Handle` asks that counters and times be of at most 64 bits.
- Negative counters and times: the counters count, and the clock starts at a non-negative second.
- A `read` that never returns, and read errors: `Input` is all that arrives before end of file, and the wrappers exit on an error.
- A request line without a method: the source then compares an uninitialised buffer; the model takes the method as unsupported.
- What is sent back by the whole server, apart from the log text that a POST gets: the replies of one request are in `ThreadStats.Handle`.
- Waiting inside the class methods: a method reports that its caller must wait, and the waiting itself is modelled in the step systems.
- Fairness among workers, real time, and readers kept out by an endless stream of writers: the code promises nothing about them.
- `destroy_log` and the code after the accept loop: never reached.

/** The whole server as a step system: the pool (server.c), the log (log.c) and, between the two,
    what each worker does with a request (request.c).

    Worker `w` of the pool is thread `w` of the log and carries thread id `w + 1`. A step is a step of
    the pool, a step of the log, or a step of one worker's request handling; the pool may close a
    connection only once its request has been handled. A worker whose header loop does not end takes
    no further step: the rounds of that loop change nothing. */
module ServerMachine {
  import P = PoolMachine
  import L = LogMachine
  import opened Records
  import opened RequestLine
  import opened Requests

  datatype Phase =
    | Outside
    | Reading(k: nat)                          // in requestHandle with request k; next: read the request line
    | Counted(o: Outcome)                      // total_req counted; next: the header loop of a GET, the branch
    | Serving(rec: Record, empty: bool)        // kind counted, record formatted; next: serve
    | Appending(rec: Record)                   // next: call add_to_log
    | Fetching                                 // next: call get_log
    | InLog                                    // inside that call
    | Returned                                 // requestHandle has returned; next: Close

  /** The record of request `k` as it was formatted, and whether its file turned out to be empty. */
  datatype Formatted = Formatted(k: nat, rec: Record, empty: bool)

  /** `formatted`, `undone`, `errors` and `handled` record what has happened: the records formatted so
      far, how often stat_req was taken back, how many requests were answered with an error, and the
      requests whose request line has been read, in order. */
  datatype Worker = Worker(
    stats: Stats,
    phase: Phase,
    formatted: seq<Formatted>,
    undone: nat,
    errors: nat,
    handled: seq<Handled>)

  /** `inputs` says what each connection of the batch brings. */
  datatype State = State(pool: P.State, log: L.State, workers: seq<Worker>, inputs: nat -> Input)

  datatype Action = PoolStep(p: P.Action) | LogStep(l: L.Action) | Handle(w: nat, o: Outcome)

  function NewWorker(w: nat): Worker
  {
    Worker(Stats(w + 1, 0, 0, 0, 0), Outside, [], 0, 0, [])
  }

  ghost predicate Init(s: State)
  {
    && P.Init(s.pool) && L.Init(s.log)
    && |s.workers| == |s.pool.workers| == |s.log.threads|
    && forall w | 0 <= w < |s.workers| :: s.log.threads[w].todo == [] && s.workers[w] == NewWorker(w)
  }

  // ---------------------------------------------------------------- request handling

  /** The record of the request that worker `w` is handling, with the counters as they are. */
  function RecordNow(s: State, w: nat, st: Stats): Record
    requires w < |s.pool.workers| && s.pool.workers[w].Handling?
  {
    Record(s.pool.workers[w].req.arrival, s.pool.workers[w].interval, st)
  }

  /** A log call of worker `w` has returned. */
  predicate LogCallDone(s: State, w: nat)
  {
    w < |s.log.threads| && s.log.threads[w] == L.Thread(L.Idle, [])
  }

  /** The branch of a GET is taken only after its header loop has ended. */
  predicate PastHeader(i: Input, o: Outcome)
  {
    IsGet(o) ==> i.HeaderEnds()
  }

  predicate CanHandle(s: State, w: nat, o: Outcome)
  {
    && w < |s.workers| && w < |s.pool.workers| && w < |s.log.threads|
    && match s.workers[w].phase
       case Outside => false
       case Reading(k) => s.inputs(k).Allows(o)
       case Counted(branch) => s.pool.workers[w].Handling? && PastHeader(s.inputs(s.pool.workers[w].k), branch)
       case Serving(_, empty) => empty ==> s.workers[w].stats.statReq > 0
       case Appending(rec) => rec.Printable()
       case Fetching => true
       case InLog => LogCallDone(s, w)
       case Returned => false
  }

  function SetWorker(s: State, w: nat, wk: Worker): State
    requires w < |s.workers|
  {
    s.(workers := s.workers[w := wk])
  }

  /** requestHandle: read the line; a request without one is dropped uncounted. */
  function ReadLine(wk: Worker, k: nat, o: Outcome): Worker
  {
    var read := wk.(handled := wk.handled + [Handled(k, o)]);
    if o.NoLine? then read.(phase := Returned)
    else read.(phase := Counted(o), stats := CountRequest(wk.stats))
  }

  /** The branch taken: count the kind, and format the record of a request that will be logged. */
  function Branch(wk: Worker, k: nat, o: Outcome, rec: Record): Worker
  {
    var counted := wk.(stats := CountKind(wk.stats, o));
    if IsLogged(o) then
      counted.(phase := Serving(rec, IsEmptyFile(o)), formatted := wk.formatted + [Formatted(k, rec, IsEmptyFile(o))])
    else if o.Post? then counted.(phase := Fetching)
    else counted.(phase := Returned, errors := wk.errors + 1)
  }

  /** requestServeStatic or requestServeDynamic: an empty file is taken back and answered 403. */
  function Serve(wk: Worker): Worker
    requires wk.phase.Serving? && (wk.phase.empty ==> wk.stats.statReq > 0)
  {
    if wk.phase.empty then
      wk.(phase := Appending(wk.phase.rec),
          stats := UndoStatic(wk.stats),
          undone := wk.undone + 1,
          errors := wk.errors + 1)
    else wk.(phase := Appending(wk.phase.rec))
  }

  function HandleStep(s: State, w: nat, o: Outcome): State
    requires CanHandle(s, w, o)
  {
    var wk := s.workers[w];
    match wk.phase
    case Outside => s
    case Reading(k) => SetWorker(s, w, ReadLine(wk, k, o))
    case Counted(branch) =>
      SetWorker(s, w, Branch(wk, s.pool.workers[w].k, branch, RecordNow(s, w, CountKind(wk.stats, branch))))
    case Serving(_, _) => SetWorker(s, w, Serve(wk))
    case Appending(rec) => SetWorker(s, w, wk.(phase := InLog)).(log := L.Submit(s.log, w, L.AddToLog(Block(rec))))
    case Fetching => SetWorker(s, w, wk.(phase := InLog)).(log := L.Submit(s.log, w, L.GetLog))
    case InLog => SetWorker(s, w, wk.(phase := Returned))
    case Returned => s
  }

  // ---------------------------------------------------------------- all steps

  /** Does this pool step take worker `w` through Close? */
  predicate Closes(s: P.State, a: P.Action)
  {
    a.Worker? && a.w < |s.workers| && s.workers[a.w].Handling?
  }

  predicate Enabled(s: State, a: Action)
  {
    match a
    case PoolStep(p) =>
      && P.Enabled(s.pool, p)
      && (p.Worker? ==> p.w < |s.workers|)
      && (Closes(s.pool, p) ==> s.workers[p.w].phase == Returned)
    case LogStep(l) => L.Enabled(s.log, l)
    case Handle(w, o) => CanHandle(s, w, o)
  }

  /** A worker that comes out of dequeue with a request enters requestHandle; after Close it is out. */
  function PhaseAfter(wk: Worker, before: P.WorkerPc, after: P.WorkerPc): Worker
  {
    if after.Handling? && !before.Handling? then wk.(phase := Reading(after.k))
    else if before.Handling? && !after.Handling? then wk.(phase := Outside)
    else wk
  }

  function Apply(s: State, a: Action): State
    requires Enabled(s, a)
  {
    match a
    case PoolStep(p) =>
      var pool := P.Apply(s.pool, p);
      if p.Worker? && p.w < |pool.workers| then
        var wk := PhaseAfter(s.workers[p.w], s.pool.workers[p.w], pool.workers[p.w]);
        s.(pool := pool, workers := s.workers[p.w := wk])
      else s.(pool := pool)
    case LogStep(l) => s.(log := L.Apply(s.log, l))
    case Handle(w, o) => HandleStep(s, w, o)
  }

  ghost predicate Next(s: State, s': State)
  {
    exists a :: Enabled(s, a) && s' == Apply(s, a)
  }
}

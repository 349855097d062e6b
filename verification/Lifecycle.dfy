/**
 * Worker generations, live reload and reconnect as a step system: callers (requests), the
 * reconnect supervisor and the background workers interleave freely, one step of one thread at
 * a time. The leaf locks (healthMu, randMu) are held for no other step, so they do not show.
 */
module Lifecycle {
  import opened Basics

  // ---- threads ----

  /** What a goroutine of a worker generation runs. A Fetch is one call of Download. */
  datatype Job = Sweeper | Loop | Monitor | Fetch(ticket: nat, id: int)

  datatype Worker = Worker(gen: nat, job: Job)

  datatype Thread = Caller(n: nat) | Supervisor | Background(w: Worker)

  /** A reload in progress: the settings version its runtime was built from, and whether doReconnect called it. */
  datatype Task = Task(ver: nat, through: bool)

  /** Where a thread stands while it holds mu. */
  datatype Stage =
    | Cancelling
    | Waiting                      // in workersWG.Wait
    | Resetting
    | Publishing
    | Launching
    | Spawning(gen: nat, k: nat)
    | Unlocking
    | Booting                      // Start, before runCtx is set
    | BootReset                    // Start, before its resetStaleDownloads

  /** Where a caller or the supervisor stands. */
  datatype Pc =
    | Idle
    | Saved                        // ApplySettings has stored, not yet reloaded
    | WantReconnect                // at reconnectMu.Lock
    | Probing                      // holds reconnectMu
    | WantMu(task: Task)           // runtime built, at mu.Lock
    | WantStart                    // Start, at mu.Lock
    | Inside(at: Stage, task: Task)
    | Seeding(task: Task)          // mu released

  datatype RowState = Waits | Active | Settled         // queued; downloading; ready, error or evicted

  /**
   * What a settings version decides: whether there is an engine, how many downloads it runs at
   * once, and which workers return by themselves because their interval is zero.
   */
  datatype Config = Config(engine: nat -> bool, slots: nat -> nat, brief: (nat, Job) -> bool)

  datatype Locks = Locks(mu: Option<Thread>, reconnectMu: Option<Thread>, pc: map<Thread, Pc>)

  datatype Crew = Crew(
    live: set<Worker>,
    brief: set<Worker>,              // started with a zero interval
    current: Option<nat>,            // workersCancel and workersWG
    cancelled: set<nat>,             // generations whose context is cancelled
    nextGen: nat,
    nextTicket: nat,
    pending: map<nat, set<int>>,     // ids a generation's RunOnce has scanned and not dispatched
    slots: map<nat, nat>)            // each generation's concurrency

  /**
   * The one-slot channel of reconnect requests. Requests are numbered in the order they are
   * made; `taken` and `probed` are the number made when the supervisor last took one from the
   * channel and when it last began a reconnect.
   */
  datatype Calls = Calls(full: bool, asked: nat, taken: nat, probed: nat)

  datatype State = State(
    locks: Locks,
    crew: Crew,
    rows: map<int, RowState>,
    starter: Option<Thread>,         // who has called Start; main calls it once
    started: bool,                   // runCtx set, supervisor launched
    down: bool,                      // runCtx cancelled
    liveVersion: nat,                // settings version of the published runtime
    storedVersion: nat,
    calls: Calls)

  function PcOf(l: Locks, t: Thread): Pc {
    if t in l.pc then l.pc[t] else Idle
  }

  predicate HoldsMu(p: Pc) { p.Inside? }

  predicate HoldsReconnectMu(p: Pc) {
    p.Probing? || ((p.WantMu? || p.Inside? || p.Seeding?) && p.task.through)
  }

  /** A generation's context is done. */
  predicate Stopped(s: State, gen: nat) { s.down || gen in s.crew.cancelled }

  function Fetches(c: Crew, gen: nat): set<Worker> {
    set w | w in c.live && w.gen == gen && w.job.Fetch?
  }

  /** Workers counted by a generation's waitgroup; downloads are waited for by their loop. */
  function Counted(c: Crew, gen: nat): set<Worker> {
    set w | w in c.live && w.gen == gen && !w.job.Fetch?
  }

  function ResetRows(rows: map<int, RowState>): map<int, RowState> {
    map id | id in rows :: if rows[id] == Active then Waits else rows[id]
  }

  // ---- steps ----

  /** What a caller or the supervisor does next. */
  datatype Move =
    | Save               // ApplySettings stores
    | Read               // settings.GetAll, Effective, buildRuntimeWith
    | Fail               // a reload or reconnect gives up before it takes mu
    | CallReconnect      // ReconnectSource, or the supervisor takes a request
    | LockReconnect
    | LockMu
    | CancelGen          // stopWorkersLocked: workersCancel
    | WaitDone           // stopWorkersLocked: workersWG.Wait returns
    | ResetAll           // resetStaleDownloads
    | Publish            // rt.Store
    | NewGen             // launchWorkersLocked
    | Spawn              // wg.Go, three times, then workersCancel and workersWG are set
    | UnlockMu
    | Seed               // seedHealth, and the deferred reconnectMu.Unlock
    | CallStart
    | Boot               // Start: runCtx and the supervisor

  /** What a background worker does next. */
  datatype Act =
    | Exit               // the sweeper, monitor or loop returns: cancelled, or its interval is zero
    | Tick               // it sleeps, sweeps, polls or probes and goes on
    | LoopReset          // the loop's own ResetStaleDownloads
    | Scan               // RunOnce reads the queued ids
    | Dispatch(id: int)  // RunOnce starts a download
    | Mark               // markDownloading
    | Finish             // RecordReady or markError, and return
    | Quit               // return without writing the row
    | Ask                // requestReconnect

  datatype Step =
    | Do(t: Thread, m: Move)
    | Work(w: Worker, a: Act)
    | Queue(id: int)
    | EvictRow(id: int)
    | Shutdown

  predicate CanDo(s: State, t: Thread, m: Move) {
    var p := PcOf(s.locks, t);
    && !t.Background?
    && match m
       case Save => t.Caller? && p == Idle
       case Read => (t.Caller? && p == Idle) || p == Saved || p == Probing
       case Fail => p == Saved || p == Probing
       case CallReconnect => p == Idle && (t.Supervisor? ==> s.started && s.calls.full)
       case LockReconnect => p == WantReconnect && s.locks.reconnectMu.None?
       case LockMu => s.locks.mu.None? && (p.WantMu? || p.WantStart?)
       case CancelGen => p.Inside? && p.at == Cancelling
       case WaitDone =>
         p.Inside? && p.at == Waiting && s.crew.current.Some? && Counted(s.crew, s.crew.current.value) == {}
       case ResetAll => p.Inside? && (p.at == Resetting || p.at == BootReset)
       case Publish => p.Inside? && p.at == Publishing
       case NewGen => p.Inside? && p.at == Launching && (s.started ==> s.crew.current.None?)
       case Spawn => p.Inside? && p.at.Spawning?
       case UnlockMu => p.Inside? && p.at == Unlocking
       case Seed => p.Seeding?
       case CallStart => t.Caller? && p == Idle && s.starter.None?
       case Boot => p.Inside? && p.at == Booting
  }

  predicate CanWork(s: State, w: Worker, a: Act) {
    && w in s.crew.live
    && match a
       case Exit =>
         !w.job.Fetch? && (Stopped(s, w.gen) || w in s.crew.brief) && (w.job.Loop? ==> Fetches(s.crew, w.gen) == {})
       case Tick => !w.job.Fetch? && !Stopped(s, w.gen) && w !in s.crew.brief
       case LoopReset => w.job.Loop? && w.gen !in s.crew.pending && !Stopped(s, w.gen)
       case Scan =>
         && w.job.Loop? && w !in s.crew.brief && !Stopped(s, w.gen)
         && w.gen in s.crew.pending && Fetches(s.crew, w.gen) == {}
       case Dispatch(id) =>
         w.job.Loop? && w.gen in s.crew.pending && w.gen in s.crew.slots
         && id in s.crew.pending[w.gen] && |Fetches(s.crew, w.gen)| < s.crew.slots[w.gen]
       case Mark => w.job.Fetch? && !Stopped(s, w.gen) && w.job.id in s.rows
       case Finish => w.job.Fetch? && !Stopped(s, w.gen) && w.job.id in s.rows
       case Quit => w.job.Fetch? && (Stopped(s, w.gen) || w.job.id !in s.rows || s.rows[w.job.id] != Active)
       case Ask => w.job.Monitor? && w !in s.crew.brief
  }

  predicate Enabled(s: State, st: Step) {
    match st
    case Do(t, m) => CanDo(s, t, m)
    case Work(w, a) => CanWork(s, w, a)
    case Queue(id) => true
    case EvictRow(id) => id in s.rows
    case Shutdown => s.started
  }

  /** The program counter a move leads to. */
  function PcAfter(s: State, t: Thread, m: Move): Pc
    requires CanDo(s, t, m)
  {
    var p := PcOf(s.locks, t);
    match m
    case Save => Saved
    case Read => WantMu(Task(s.storedVersion, p == Probing))
    case Fail => Idle
    case CallReconnect => WantReconnect
    case LockReconnect => Probing
    case LockMu => if p.WantStart? then Inside(Booting, Task(s.liveVersion, false)) else Inside(Cancelling, p.task)
    case CancelGen => p.(at := if s.crew.current.Some? then Waiting else Resetting)
    case WaitDone => p.(at := Resetting)
    case ResetAll => p.(at := if p.at == BootReset then Launching else Publishing)
    case Publish => p.(at := Launching)
    case NewGen => p.(at := if s.started then Spawning(s.crew.nextGen, 0) else Unlocking)
    case Spawn => p.(at := if p.at.k < 3 then Spawning(p.at.gen, p.at.k + 1) else Unlocking)
    case UnlockMu => Seeding(p.task)
    case Seed => Idle
    case CallStart => WantStart
    case Boot => p.(at := BootReset)
  }

  function LocksAfter(s: State, t: Thread, m: Move): Locks
    requires CanDo(s, t, m)
  {
    var l, p := s.locks, PcOf(s.locks, t);
    var moved := l.(pc := l.pc[t := PcAfter(s, t, m)]);
    match m
    case LockReconnect => moved.(reconnectMu := Some(t))
    case LockMu => moved.(mu := Some(t))
    case UnlockMu => moved.(mu := None)
    case Fail => moved.(reconnectMu := if p == Probing then None else l.reconnectMu)
    case Seed => moved.(reconnectMu := if p.task.through then None else l.reconnectMu)
    case _ => moved
  }

  /** Which worker the k-th wg.Go starts, if any: a runtime without an engine has no loop. */
  function Spawned(cfg: Config, ver: nat, gen: nat, k: nat): set<Worker> {
    if k == 0 then {Worker(gen, Sweeper)}
    else if k == 1 && cfg.engine(ver) then {Worker(gen, Loop)}
    else if k == 2 then {Worker(gen, Monitor)}
    else {}
  }

  /** Those of them whose interval is zero. */
  function Brief(cfg: Config, ver: nat, started: set<Worker>): set<Worker> {
    set w | w in started && cfg.brief(ver, w.job)
  }

  function CrewAfter(cfg: Config, s: State, t: Thread, m: Move): Crew
    requires CanDo(s, t, m)
  {
    var c, p := s.crew, PcOf(s.locks, t);
    match m
    case CancelGen => if c.current.Some? then c.(cancelled := c.cancelled + {c.current.value}) else c
    case WaitDone => c.(current := None)
    case NewGen =>
      if s.started then c.(nextGen := c.nextGen + 1, slots := c.slots[c.nextGen := cfg.slots(p.task.ver)]) else c
    case Spawn =>
      if p.at.k < 3 then
        var more := Spawned(cfg, p.task.ver, p.at.gen, p.at.k);
        c.(live := c.live + more, brief := c.brief + Brief(cfg, p.task.ver, more))
      else c.(current := Some(p.at.gen))
    case _ => c
  }

  function AfterMove(cfg: Config, s: State, t: Thread, m: Move): State
    requires CanDo(s, t, m)
  {
    var next := s.(locks := LocksAfter(s, t, m), crew := CrewAfter(cfg, s, t, m));
    match m
    case Save => next.(storedVersion := s.storedVersion + 1)
    case CallReconnect =>
      if t.Supervisor? then next.(calls := s.calls.(full := false, taken := s.calls.asked)) else next
    case LockReconnect => if t.Supervisor? then next.(calls := s.calls.(probed := s.calls.asked)) else next
    case ResetAll => next.(rows := ResetRows(s.rows))
    case Publish => next.(liveVersion := PcOf(s.locks, t).task.ver)
    case CallStart => next.(starter := Some(t))
    case Boot => next.(started := true)
    case _ => next
  }

  function CrewWorks(s: State, w: Worker, a: Act): Crew
    requires CanWork(s, w, a)
  {
    var c := s.crew;
    match a
    case Exit => c.(live := c.live - {w}, pending := if w.job.Loop? then c.pending - {w.gen} else c.pending)
    case LoopReset => c.(pending := c.pending[w.gen := {}])
    case Scan => c.(pending := c.pending[w.gen := set id | id in s.rows && s.rows[id] == Waits])
    case Dispatch(id) =>
      c.(live := c.live + {Worker(w.gen, Fetch(c.nextTicket, id))}, nextTicket := c.nextTicket + 1,
         pending := c.pending[w.gen := c.pending[w.gen] - {id}])
    case Finish => c.(live := c.live - {w})
    case Quit => c.(live := c.live - {w})
    case _ => c
  }

  function AfterWork(s: State, w: Worker, a: Act): State
    requires CanWork(s, w, a)
  {
    var next := s.(crew := CrewWorks(s, w, a));
    match a
    case LoopReset => next.(rows := ResetRows(s.rows))
    case Mark => next.(rows := s.rows[w.job.id := Active])
    case Finish => next.(rows := s.rows[w.job.id := Settled])
    case Ask => next.(calls := s.calls.(full := true, asked := s.calls.asked + 1))
    case _ => next
  }

  function Apply(cfg: Config, s: State, st: Step): State
    requires Enabled(s, st)
  {
    match st
    case Do(t, m) => AfterMove(cfg, s, t, m)
    case Work(w, a) => AfterWork(s, w, a)
    case Queue(id) => s.(rows := s.rows[id := if id in s.rows && s.rows[id] == Active then Active else Waits])
    case EvictRow(id) => s.(rows := s.rows[id := Settled])
    case Shutdown => s.(down := true)
  }

  /** Before Start: nothing runs. The rows may still say 'downloading' from a process that died. */
  ghost predicate Init(s: State) {
    && s.locks == Locks(None, None, map[])
    && s.crew == Crew({}, {}, None, {}, 0, 0, map[], map[])
    && s.starter.None? && !s.started && !s.down && s.calls == Calls(false, 0, 0, 0)
    && s.liveVersion == s.storedVersion
  }

  ghost predicate Reachable(cfg: Config, s: State) {
    exists init, run :: Init(init) && CanRun(cfg, init, run) && Run(cfg, init, run) == s
  }

  predicate CanRun(cfg: Config, s: State, run: seq<Step>)
    decreases |run|
  {
    run == [] || (Enabled(s, run[0]) && CanRun(cfg, Apply(cfg, s, run[0]), run[1..]))
  }

  function Run(cfg: Config, s: State, run: seq<Step>): State
    requires CanRun(cfg, s, run)
    decreases |run|
  {
    if run == [] then s else Run(cfg, Apply(cfg, s, run[0]), run[1..])
  }

  // ---- what every step keeps ----

  /** Each lock is held by exactly the thread whose program counter says so. */
  ghost predicate LocksOk(l: Locks) {
    && (forall t | t in l.pc :: !t.Background?)
    && (forall t :: HoldsMu(PcOf(l, t)) <==> l.mu == Some(t))
    && (forall t :: HoldsReconnectMu(PcOf(l, t)) <==> l.reconnectMu == Some(t))
  }

  /** Where the holder of mu stands, if anyone holds it. */
  function Holder(l: Locks): Option<Stage> {
    if l.mu.Some? && PcOf(l, l.mu.value).Inside? then Some(PcOf(l, l.mu.value).at) else None
  }

  /** The generation that workers may belong to, if any may be alive. */
  function Owner(h: Option<Stage>, c: Crew): Option<nat> {
    if h.Some? && h.value.Spawning? then Some(h.value.gen) else c.current
  }

  /** All live workers belong to one generation, the current one or the one being spawned. */
  ghost predicate GenerationsOk(h: Option<Stage>, c: Crew, started: bool) {
    && (forall w | w in c.live :: Owner(h, c) == Some(w.gen))
    && (Owner(h, c).Some? ==> Owner(h, c).value < c.nextGen)
    && (forall g | g in c.cancelled :: g < c.nextGen)
    && (h.Some? && h.value.Spawning? ==> c.current.None? && started && h.value.gen !in c.cancelled)
    && (h == Some(Waiting) <==> c.current.Some? && c.current.value in c.cancelled)
    && (h == Some(Resetting) || h == Some(Publishing) || h == Some(Launching) || h == Some(BootReset) ==>
        c.current.None?)
    && (!started ==> c.current.None?)
  }

  /** Start runs once. */
  ghost predicate StartOk(s: State) {
    && (s.started ==> s.starter.Some?)
    && (forall t :: Starting(PcOf(s.locks, t)) ==> s.starter == Some(t) && !s.started)
  }

  predicate Starting(p: Pc) { p.WantStart? || (p.Inside? && p.at == Booting) }

  ghost predicate EngineOk(c: Crew) {
    && (forall w | w in c.live && w.job.Fetch? :: Worker(w.gen, Loop) in c.live && w.gen in c.pending)
    && (forall w | w in c.live && w.job.Fetch? :: w.job.ticket < c.nextTicket)
    && (forall g | g in c.pending :: Worker(g, Loop) in c.live)
    && (forall w | w in c.live && w.job.Fetch? && w.gen in c.pending :: w.job.id !in c.pending[w.gen])
    && (forall w, v | w in c.live && v in c.live && w.job.Fetch? && v.job.Fetch?
                      && w.gen == v.gen && w.job.id == v.job.id ::
          w == v)
  }

  /** No generation runs more downloads than its configuration allows. */
  ghost predicate CapacityOk(c: Crew) {
    forall g | g in c.slots :: |Fetches(c, g)| <= c.slots[g]
  }

  /**
   * A 'downloading' row may be without a worker: before Start, after shutdown, or while a generation
   * is being stopped.
   */
  predicate OrphansAllowed(s: State) {
    var h := Holder(s.locks);
    !s.started || s.down || h == Some(Waiting) || h == Some(Resetting) || h == Some(BootReset)
  }

  ghost predicate Held(c: Crew, id: int) {
    exists w :: w in c.live && w.job.Fetch? && w.job.id == id
  }

  ghost predicate RowsOk(s: State) {
    OrphansAllowed(s) || forall id | id in s.rows && s.rows[id] == Active :: Held(s.crew, id)
  }

  /**
   * Request number k is in the channel, in the hands of the supervisor on its way to a
   * reconnect, or covered by a reconnect that began after it was made.
   */
  predicate Served(s: State, k: nat) {
    || (s.calls.taken < k && s.calls.full)
    || (s.calls.probed < k <= s.calls.taken && PcOf(s.locks, Supervisor) == WantReconnect)
    || k <= s.calls.probed
  }

  ghost predicate RequestsOk(s: State) {
    var p := PcOf(s.locks, Supervisor);
    && s.calls.probed <= s.calls.asked && s.calls.taken <= s.calls.asked
    && (s.calls.taken < s.calls.asked && s.calls.probed < s.calls.asked ==> s.calls.full)
    && (s.calls.probed < s.calls.taken ==> p == WantReconnect)
    && (p == Idle || p == WantReconnect || HoldsReconnectMu(p))
  }

  ghost predicate SlotsOk(h: Option<Stage>, c: Crew) {
    && (forall w | w in c.live :: w.gen in c.slots)
    && (h.Some? && h.value.Spawning? ==> h.value.gen in c.slots)
    && (forall g | g in c.slots :: g < c.nextGen)
  }

  ghost predicate Inv(s: State) {
    && LocksOk(s.locks) && GenerationsOk(Holder(s.locks), s.crew, s.started) && StartOk(s)
    && EngineOk(s.crew) && SlotsOk(Holder(s.locks), s.crew) && CapacityOk(s.crew) && RowsOk(s) && RequestsOk(s)
  }
}

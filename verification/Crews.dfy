/** The crew of a generation against the settings it was launched from: its size and its members. */
module Crews {
  import opened Basics
  import opened Lifecycle
  import opened Generations

  /** The long-running workers a settings version calls for: no loop without an engine. */
  predicate Wanted(cfg: Config, ver: nat, job: Job) {
    job.Sweeper? || job.Monitor? || (job.Loop? && cfg.engine(ver))
  }

  /** In which order they are started. */
  function Turn(job: Job): nat { if job.Sweeper? then 0 else if job.Loop? then 1 else if job.Monitor? then 2 else 3 }

  /**
   * Of generation g the first k have been started, for this version; none of them is missing but those
   * with a zero interval, unless the generation is being stopped.
   */
  ghost predicate Staffed(cfg: Config, ver: nat, c: Crew, g: nat, k: nat, stopped: bool) {
    forall job: Job | !job.Fetch? ::
      && (Worker(g, job) in c.live ==> Wanted(cfg, ver, job) && Turn(job) < k)
      && (Worker(g, job) in c.brief <==> Wanted(cfg, ver, job) && Turn(job) < k && cfg.brief(ver, job))
      && (Wanted(cfg, ver, job) && Turn(job) < k && !stopped ==> Worker(g, job) in c.live || Worker(g, job) in c.brief)
  }

  /** The settings version the holder of mu works with, once that is the one published. */
  ghost predicate VersionOk(s: State) {
    s.locks.mu.Some? && PcOf(s.locks, s.locks.mu.value).Inside? ==>
      var p := PcOf(s.locks, s.locks.mu.value);
      p.at == Launching || p.at.Spawning? || p.at == Unlocking || p.at == Booting || p.at == BootReset ==>
        p.task.ver == s.liveVersion
  }

  /** The crew, wherever mu's holder stands, against the published settings. */
  ghost predicate Manned(cfg: Config, h: Option<Stage>, c: Crew, live: nat, started: bool, down: bool) {
    && (started && (h == None || h == Some(Unlocking) || h == Some(Cancelling) || h == Some(Waiting)) ==>
          c.current.Some?)
    && (forall w | w in c.brief :: w.gen < c.nextGen)
    && (Owner(h, c).Some? ==>
          var g := Owner(h, c).value;
          && g in c.slots && c.slots[g] == cfg.slots(live)
          && Staffed(cfg, live, c, g, if h.Some? && h.value.Spawning? then h.value.k else 3, down || g in c.cancelled))
  }

  ghost predicate CrewOk(cfg: Config, s: State) {
    VersionOk(s) && Manned(cfg, Holder(s.locks), s.crew, s.liveVersion, s.started, s.down)
  }

  // ---- every step keeps it ----

  lemma InitCrew(cfg: Config, s: State)
    requires Init(s)
    ensures CrewOk(cfg, s)
  {
  }

  lemma WorkKeepsCrew(cfg: Config, s: State, w: Worker, a: Act)
    requires GenerationsOk(Holder(s.locks), s.crew, s.started) && CrewOk(cfg, s) && CanWork(s, w, a)
    ensures CrewOk(cfg, AfterWork(s, w, a))
  {
    hide Holder, Fetches, Wanted;
  }

  lemma RestKeepsCrew(cfg: Config, s: State, st: Step)
    requires CrewOk(cfg, s) && Enabled(s, st) && !st.Do? && !st.Work?
    ensures CrewOk(cfg, Apply(cfg, s, st))
  {
  }

  /** What a move does to the program counters and to mu. */
  lemma PcMoves(s: State, t: Thread, m: Move)
    requires CanDo(s, t, m) && LocksOk(s.locks)
    ensures var l' := LocksAfter(s, t, m);
      && PcOf(l', t) == PcAfter(s, t, m)
      && (forall u :: u != t ==> PcOf(l', u) == PcOf(s.locks, u))
      && (PcAfter(s, t, m).Inside? ==> l'.mu == Some(t))
      && (l'.mu.Some? && l'.mu != Some(t) ==> s.locks.mu == l'.mu)
      && (PcOf(s.locks, t).Inside? ==> s.locks.mu == Some(t))
  {
    MoveTakesFreeLocks(s, t, m);
    assert HoldsMu(PcOf(s.locks, t)) <==> s.locks.mu == Some(t);
    hide LocksOk, HoldsReconnectMu;
  }

  lemma MoveKeepsVersion(cfg: Config, s: State, t: Thread, m: Move)
    requires CanDo(s, t, m) && LocksOk(s.locks) && VersionOk(s)
    ensures VersionOk(AfterMove(cfg, s, t, m))
  {
    PcMoves(s, t, m);
    hide CrewAfter, LocksOk, LocksAfter;
  }

  lemma FlowKeepsManned(cfg: Config, h: Option<Stage>, h': Option<Stage>, c: Crew, live: nat, live': nat,
                        started: bool, booted: bool, down: bool)
    requires GenerationsOk(h, c, started) && Manned(cfg, h, c, live, started, down) && (booted ==> !started)
    requires Flows(h, h', booted) && (live' != live ==> h == Some(Publishing))
    ensures Manned(cfg, h', c, live', started || booted, down)
  {
    hide Staffed;
  }

  lemma StageKeepsManned(cfg: Config, s: State, t: Thread, m: Move)
    requires CanDo(s, t, m) && LocksOk(s.locks) && StartOk(s) && StageMove(m)
    requires GenerationsOk(Holder(s.locks), s.crew, s.started)
    requires Manned(cfg, Holder(s.locks), s.crew, s.liveVersion, s.started, s.down)
    ensures var s' := AfterMove(cfg, s, t, m);
      Manned(cfg, Holder(s'.locks), s'.crew, s'.liveVersion, s'.started, s'.down)
  {
    hide GenerationsOk, Manned;
    HolderAfter(s, t, m);
    hide LocksOk, LocksAfter, Holder;
    assert m == Boot ==> Starting(PcOf(s.locks, t));
    FlowKeepsManned(cfg, Holder(s.locks), Holder(LocksAfter(s, t, m)), s.crew, s.liveVersion,
                    AfterMove(cfg, s, t, m).liveVersion, s.started, m == Boot, s.down);
  }

  lemma QuietKeepsManned(cfg: Config, s: State, t: Thread, m: Move)
    requires CanDo(s, t, m) && LocksOk(s.locks)
    requires m != CancelGen && m != WaitDone && m != NewGen && m != Spawn && !StageMove(m)
    requires Manned(cfg, Holder(s.locks), s.crew, s.liveVersion, s.started, s.down)
    ensures var s' := AfterMove(cfg, s, t, m);
      Manned(cfg, Holder(s'.locks), s'.crew, s'.liveVersion, s'.started, s'.down)
  {
    HolderAfter(s, t, m);
    hide LocksOk, LocksAfter, Holder, Manned;
  }

  lemma StopKeepsManned(cfg: Config, s: State, t: Thread, m: Move)
    requires CanDo(s, t, m) && LocksOk(s.locks) && GenerationsOk(Holder(s.locks), s.crew, s.started)
    requires m == CancelGen || m == WaitDone
    requires Manned(cfg, Holder(s.locks), s.crew, s.liveVersion, s.started, s.down)
    ensures var s' := AfterMove(cfg, s, t, m);
      Manned(cfg, Holder(s'.locks), s'.crew, s'.liveVersion, s'.started, s'.down)
  {
    HolderAfter(s, t, m);
    hide LocksOk, LocksAfter, Holder, Wanted;
  }

  lemma NewGenKeepsManned(cfg: Config, s: State, t: Thread, m: Move)
    requires CanDo(s, t, m) && LocksOk(s.locks) && GenerationsOk(Holder(s.locks), s.crew, s.started)
    requires m == NewGen && PcOf(s.locks, t).task.ver == s.liveVersion
    requires Manned(cfg, Holder(s.locks), s.crew, s.liveVersion, s.started, s.down)
    ensures var s' := AfterMove(cfg, s, t, m);
      Manned(cfg, Holder(s'.locks), s'.crew, s'.liveVersion, s'.started, s'.down)
  {
    HolderAfter(s, t, m);
    hide LocksOk, LocksAfter, Holder, Wanted;
  }

  lemma SpawnKeepsManned(cfg: Config, s: State, t: Thread, m: Move)
    requires CanDo(s, t, m) && LocksOk(s.locks) && GenerationsOk(Holder(s.locks), s.crew, s.started)
    requires m == Spawn && PcOf(s.locks, t).task.ver == s.liveVersion
    requires Manned(cfg, Holder(s.locks), s.crew, s.liveVersion, s.started, s.down)
    ensures var s' := AfterMove(cfg, s, t, m);
      Manned(cfg, Holder(s'.locks), s'.crew, s'.liveVersion, s'.started, s'.down)
  {
    HolderAfter(s, t, m);
    hide LocksOk, LocksAfter, Holder;
    var p := PcOf(s.locks, t);
    if p.at.k < 3 {
      SpawnStaffs(cfg, s.liveVersion, s.crew, CrewAfter(cfg, s, t, m), p.at.gen, p.at.k,
                  s.down || p.at.gen in s.crew.cancelled);
      hide Staffed;
    }
  }

  /** The k-th start brings in exactly the worker whose turn it is. */
  lemma SpawnStaffs(cfg: Config, ver: nat, c: Crew, c': Crew, g: nat, k: nat, stopped: bool)
    requires Staffed(cfg, ver, c, g, k, stopped) && k < 3
    requires var more := Spawned(cfg, ver, g, k);
      c' == c.(live := c.live + more, brief := c.brief + Brief(cfg, ver, more))
    ensures Staffed(cfg, ver, c', g, k + 1, stopped)
  {
  }

  lemma MoveKeepsCrew(cfg: Config, s: State, t: Thread, m: Move)
    requires CanDo(s, t, m) && Inv(s) && CrewOk(cfg, s)
    ensures CrewOk(cfg, AfterMove(cfg, s, t, m))
  {
    MoveKeepsVersion(cfg, s, t, m);
    PcMoves(s, t, m);
    hide Manned, GenerationsOk, LocksOk, StartOk, AfterMove, Holder, LocksAfter;
    if m == NewGen {
      NewGenKeepsManned(cfg, s, t, m);
    } else if m == Spawn {
      SpawnKeepsManned(cfg, s, t, m);
    } else if m == CancelGen || m == WaitDone {
      StopKeepsManned(cfg, s, t, m);
    } else if StageMove(m) {
      StageKeepsManned(cfg, s, t, m);
    } else {
      QuietKeepsManned(cfg, s, t, m);
    }
  }

  lemma StepKeepsCrew(cfg: Config, s: State, st: Step)
    requires Inv(s) && CrewOk(cfg, s) && Enabled(s, st)
    ensures CrewOk(cfg, Apply(cfg, s, st))
  {
    hide CrewOk, AfterMove, AfterWork;
    match st
    case Do(t, m) => MoveKeepsCrew(cfg, s, t, m);
    case Work(w, a) => WorkKeepsCrew(cfg, s, w, a);
    case _ => RestKeepsCrew(cfg, s, st);
  }

  lemma {:induction false} RunKeepsCrew(cfg: Config, s: State, run: seq<Step>)
    requires Inv(s) && CrewOk(cfg, s) && CanRun(cfg, s, run)
    ensures CrewOk(cfg, Run(cfg, s, run))
    decreases |run|
  {
    hide CrewOk, Inv, Apply, Enabled;
    if run != [] {
      StepKeepsInv(cfg, s, run[0]);
      StepKeepsCrew(cfg, s, run[0]);
      RunKeepsCrew(cfg, Apply(cfg, s, run[0]), run[1..]);
    }
  }

  lemma ReachableCrew(cfg: Config, s: State)
    requires Reachable(cfg, s)
    ensures Inv(s) && CrewOk(cfg, s)
  {
    var init, run :| Init(init) && CanRun(cfg, init, run) && Run(cfg, init, run) == s;
    InitCrew(cfg, init);
    RunKeepsInv(cfg, init, run);
    RunKeepsCrew(cfg, init, run);
  }

  // ---- what it means ----

  /** At most as many downloads run, over all generations together, as the settings now live allow. */
  lemma {:induction false} BoundedByConfiguration(cfg: Config, s: State)
    requires Reachable(cfg, s)
    ensures |Downloads(s.crew)| <= cfg.slots(s.liveVersion)
  {
    ReachableCrew(cfg, s);
    if w :| w in Downloads(s.crew) {
      assert Downloads(s.crew) == Fetches(s.crew, w.gen);
    } else {
      assert Downloads(s.crew) == {};
    }
  }

  /** A waiting id is taken exactly while fewer run: no slot stays empty while ids wait. */
  lemma {:induction false} DispatchIff(cfg: Config, s: State, w: Worker, id: int)
    requires Reachable(cfg, s) && w in s.crew.live && w.job.Loop?
    requires w.gen in s.crew.pending && id in s.crew.pending[w.gen]
    ensures CanWork(s, w, Dispatch(id)) <==> |Downloads(s.crew)| < cfg.slots(s.liveVersion)
  {
    ReachableCrew(cfg, s);
    assert Downloads(s.crew) == Fetches(s.crew, w.gen);
  }

  /**
   * Between reloads of a running process there is one generation, nobody has cancelled it, and it has
   * the workers the live settings call for, no more and none fewer, but for those whose interval is zero.
   */
  lemma {:induction false} FullCrew(cfg: Config, s: State)
    requires Reachable(cfg, s) && s.started && !s.down && s.locks.mu.None?
    ensures s.crew.current.Some?
    ensures var g := s.crew.current.value;
      && !Stopped(s, g) && g in s.crew.slots && s.crew.slots[g] == cfg.slots(s.liveVersion)
      && (cfg.brief(s.liveVersion, Sweeper) || Worker(g, Sweeper) in s.crew.live)
      && (cfg.brief(s.liveVersion, Monitor) || Worker(g, Monitor) in s.crew.live)
      && (cfg.brief(s.liveVersion, Loop) || (Worker(g, Loop) in s.crew.live <==> cfg.engine(s.liveVersion)))
      && (Worker(g, Loop) in s.crew.live ==> cfg.engine(s.liveVersion))
  {
    ReachableCrew(cfg, s);
    hide LocksOk, EngineOk, RowsOk, RequestsOk, CapacityOk, SlotsOk, StartOk;
    assert Holder(s.locks) == None;
  }
}

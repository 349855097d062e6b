/** The invariant of the step system and what it says about generations, downloads and requests. */
module Generations {
  import opened Basics
  import opened Lifecycle

  lemma MoveTakesFreeLocks(s: State, t: Thread, m: Move)
    requires CanDo(s, t, m) && LocksOk(s.locks)
    ensures var l, l', p := s.locks, LocksAfter(s, t, m), PcAfter(s, t, m);
      && l'.pc == l.pc[t := p]
      && (HoldsMu(p) && !HoldsMu(PcOf(l, t)) ==> l.mu.None?)
      && l'.mu == (if HoldsMu(p) then Some(t) else if HoldsMu(PcOf(l, t)) then None else l.mu)
      && (HoldsReconnectMu(p) && !HoldsReconnectMu(PcOf(l, t)) ==> l.reconnectMu.None?)
      && l'.reconnectMu ==
         (if HoldsReconnectMu(p) then Some(t) else if HoldsReconnectMu(PcOf(l, t)) then None else l.reconnectMu)
  {
  }

  lemma KeepsLocks(cfg: Config, s: State, st: Step)
    requires LocksOk(s.locks) && Enabled(s, st)
    ensures LocksOk(Apply(cfg, s, st).locks)
  {
    if st.Do? {
      MoveTakesFreeLocks(s, st.t, st.m);
      MoveKeepsLocks(s.locks, LocksAfter(s, st.t, st.m), st.t, PcAfter(s, st.t, st.m));
    }
  }

  /** A move keeps the locks in order if it takes only free ones and gives back only its own. */
  lemma MoveKeepsLocks(l: Locks, l': Locks, t: Thread, p: Pc)
    requires LocksOk(l) && !t.Background? && l'.pc == l.pc[t := p]
    requires HoldsMu(p) && !HoldsMu(PcOf(l, t)) ==> l.mu.None?
    requires l'.mu == if HoldsMu(p) then Some(t) else if HoldsMu(PcOf(l, t)) then None else l.mu
    requires HoldsReconnectMu(p) && !HoldsReconnectMu(PcOf(l, t)) ==> l.reconnectMu.None?
    requires l'.reconnectMu ==
      if HoldsReconnectMu(p) then Some(t) else if HoldsReconnectMu(PcOf(l, t)) then None else l.reconnectMu
    ensures LocksOk(l')
  {
    forall u
      ensures HoldsMu(PcOf(l', u)) <==> l'.mu == Some(u)
      ensures HoldsReconnectMu(PcOf(l', u)) <==> l'.reconnectMu == Some(u)
    {
      assert PcOf(l', u) == if u == t then p else PcOf(l, u);
    }
  }

  lemma HolderAfter(s: State, t: Thread, m: Move)
    requires CanDo(s, t, m) && LocksOk(s.locks)
    ensures var p, p' := PcOf(s.locks, t), PcAfter(s, t, m);
      && (p.Inside? ==> Holder(s.locks) == Some(p.at))
      && Holder(LocksAfter(s, t, m)) ==
         (if p'.Inside? then Some(p'.at) else if p.Inside? then None else Holder(s.locks))
      && (p'.Inside? && !p.Inside? ==> Holder(s.locks).None?)
  {
    MoveTakesFreeLocks(s, t, m);
    MoveKeepsLocks(s.locks, LocksAfter(s, t, m), t, PcAfter(s, t, m));
    hide PcAfter, LocksAfter, CanDo;
    assert LocksAfter(s, t, m).mu.Some? ==>
      PcOf(LocksAfter(s, t, m), LocksAfter(s, t, m).mu.value).Inside?;
  }

  predicate StageMove(m: Move) {
    m == LockMu || m == ResetAll || m == Publish || m == UnlockMu || m == Boot
  }

  /** How mu's holder moves on while the crew stays as it is. */
  predicate Flows(h: Option<Stage>, h': Option<Stage>, booted: bool) {
    || (h == None && !booted && (h' == Some(Booting) || h' == Some(Cancelling)))
    || (h == Some(Resetting) && !booted && h' == Some(Publishing))
    || ((h == Some(BootReset) || h == Some(Publishing)) && !booted && h' == Some(Launching))
    || (h == Some(Unlocking) && !booted && h' == None)
    || (h == Some(Booting) && booted && h' == Some(BootReset))
  }

  lemma FlowKeepsGenerations(h: Option<Stage>, h': Option<Stage>, c: Crew, started: bool, booted: bool)
    requires GenerationsOk(h, c, started) && Flows(h, h', booted) && (booted ==> !started)
    ensures GenerationsOk(h', c, started || booted)
  {
    assert Owner(h', c) == Owner(h, c);
  }

  lemma StageKeepsGenerations(cfg: Config, s: State, t: Thread, m: Move)
    requires LocksOk(s.locks) && StartOk(s) && GenerationsOk(Holder(s.locks), s.crew, s.started) && CanDo(s, t, m)
    requires StageMove(m)
    ensures var s' := AfterMove(cfg, s, t, m); GenerationsOk(Holder(s'.locks), s'.crew, s'.started)
  {
    hide GenerationsOk;
    HolderAfter(s, t, m);
    hide LocksOk, EngineOk, LocksAfter, Holder;
    assert m == Boot ==> Starting(PcOf(s.locks, t));
    FlowKeepsGenerations(Holder(s.locks), Holder(LocksAfter(s, t, m)), s.crew, s.started, m == Boot);
  }

  lemma QuietKeepsGenerations(cfg: Config, s: State, t: Thread, m: Move)
    requires LocksOk(s.locks) && StartOk(s) && GenerationsOk(Holder(s.locks), s.crew, s.started) && CanDo(s, t, m)
    requires m != CancelGen && m != WaitDone && m != NewGen && m != Spawn && !StageMove(m)
    ensures var s' := AfterMove(cfg, s, t, m); GenerationsOk(Holder(s'.locks), s'.crew, s'.started)
  {
    HolderAfter(s, t, m);
    hide LocksOk, EngineOk, LocksAfter, Holder, GenerationsOk, StartOk;
  }

  lemma CancelKeepsGenerations(cfg: Config, s: State, t: Thread, m: Move)
    requires LocksOk(s.locks) && StartOk(s) && GenerationsOk(Holder(s.locks), s.crew, s.started) && CanDo(s, t, m)
    requires m == CancelGen
    ensures var s' := AfterMove(cfg, s, t, m); GenerationsOk(Holder(s'.locks), s'.crew, s'.started)
  {
    HolderAfter(s, t, m);
    hide LocksOk, EngineOk, LocksAfter, Holder;
  }

  lemma NewGenKeepsGenerations(cfg: Config, s: State, t: Thread, m: Move)
    requires LocksOk(s.locks) && StartOk(s) && GenerationsOk(Holder(s.locks), s.crew, s.started) && CanDo(s, t, m)
    requires m == NewGen
    ensures var s' := AfterMove(cfg, s, t, m); GenerationsOk(Holder(s'.locks), s'.crew, s'.started)
  {
    HolderAfter(s, t, m);
    hide LocksOk, EngineOk, LocksAfter, Holder;
  }

  lemma SpawnKeepsGenerations(cfg: Config, s: State, t: Thread, m: Move)
    requires LocksOk(s.locks) && StartOk(s) && GenerationsOk(Holder(s.locks), s.crew, s.started) && CanDo(s, t, m)
    requires m == Spawn
    ensures var s' := AfterMove(cfg, s, t, m); GenerationsOk(Holder(s'.locks), s'.crew, s'.started)
  {
    HolderAfter(s, t, m);
    hide LocksOk, EngineOk, LocksAfter, Holder;
  }

  lemma WaitKeepsGenerations(cfg: Config, s: State, t: Thread, m: Move)
    requires LocksOk(s.locks) && StartOk(s) && GenerationsOk(Holder(s.locks), s.crew, s.started) && CanDo(s, t, m)
    requires m == WaitDone && EngineOk(s.crew)
    ensures var s' := AfterMove(cfg, s, t, m); GenerationsOk(Holder(s'.locks), s'.crew, s'.started)
  {
    HolderAfter(s, t, m);
    NobodyLeft(s.crew, s.crew.current.value);
    hide LocksOk, EngineOk, LocksAfter, Holder;
  }

  lemma MoveKeepsGenerations(cfg: Config, s: State, t: Thread, m: Move)
    requires LocksOk(s.locks) && StartOk(s) && GenerationsOk(Holder(s.locks), s.crew, s.started) && CanDo(s, t, m)
    requires EngineOk(s.crew)
    ensures var s' := AfterMove(cfg, s, t, m); GenerationsOk(Holder(s'.locks), s'.crew, s'.started)
  {
    hide LocksOk, StartOk, GenerationsOk, EngineOk, AfterMove, CanDo;
    match m
    case CancelGen => CancelKeepsGenerations(cfg, s, t, m);
    case WaitDone => WaitKeepsGenerations(cfg, s, t, m);
    case NewGen => NewGenKeepsGenerations(cfg, s, t, m);
    case Spawn => SpawnKeepsGenerations(cfg, s, t, m);
    case _ =>
      if StageMove(m) {
        StageKeepsGenerations(cfg, s, t, m);
      } else {
        QuietKeepsGenerations(cfg, s, t, m);
      }
  }

  /** A generation whose waitgroup has drained has no download left either. */
  lemma NobodyLeft(c: Crew, gen: nat)
    requires EngineOk(c) && forall w | w in c.live :: w.gen == gen
    ensures Counted(c, gen) == {} ==> c.live == {}
  {
    if c.live != {} {
      var w :| w in c.live;
      assert (if w.job.Fetch? then Worker(gen, Loop) else w) in Counted(c, gen);
    }
  }

  lemma WorkKeepsGenerations(s: State, w: Worker, a: Act)
    requires GenerationsOk(Holder(s.locks), s.crew, s.started) && CanWork(s, w, a)
    ensures var s' := AfterWork(s, w, a); GenerationsOk(Holder(s'.locks), s'.crew, s'.started)
  {
  }

  lemma KeepsGenerations(cfg: Config, s: State, st: Step)
    requires Inv(s) && Enabled(s, st)
    ensures var s' := Apply(cfg, s, st); GenerationsOk(Holder(s'.locks), s'.crew, s'.started)
  {
    match st
    case Do(t, m) => MoveKeepsGenerations(cfg, s, t, m);
    case Work(w, a) => WorkKeepsGenerations(s, w, a);
    case _ =>
  }

  lemma MoveKeepsStart(cfg: Config, s: State, t: Thread, m: Move)
    requires StartOk(s) && CanDo(s, t, m)
    ensures var s' := AfterMove(cfg, s, t, m);
      && (s'.started ==> s'.starter.Some?)
      && (Starting(PcAfter(s, t, m)) ==> s'.starter == Some(t) && !s'.started)
      && (s.starter.Some? ==> s'.starter == s.starter)
      && (s'.started && !s.started ==> s.starter == Some(t))
  {
    assert Starting(PcOf(s.locks, t)) ==> s.starter == Some(t) && !s.started;
  }

  lemma KeepsStart(cfg: Config, s: State, st: Step)
    requires StartOk(s) && Enabled(s, st)
    ensures StartOk(Apply(cfg, s, st))
  {
    if st.Do? {
      MoveKeepsStart(cfg, s, st.t, st.m);
      assert LocksAfter(s, st.t, st.m).pc == s.locks.pc[st.t := PcAfter(s, st.t, st.m)];
      StartFrame(s, AfterMove(cfg, s, st.t, st.m), st.t, PcAfter(s, st.t, st.m));
    } else {
      assert Apply(cfg, s, st).locks == s.locks;
    }
  }

  lemma StartFrame(s: State, s': State, t: Thread, p: Pc)
    requires StartOk(s) && s'.locks.pc == s.locks.pc[t := p]
    requires s'.started ==> s'.starter.Some?
    requires Starting(p) ==> s'.starter == Some(t) && !s'.started
    requires s.starter.Some? ==> s'.starter == s.starter
    requires s'.started && !s.started ==> s.starter == Some(t)
    ensures StartOk(s')
  {
    forall u ensures Starting(PcOf(s'.locks, u)) ==> s'.starter == Some(u) && !s'.started {
      assert PcOf(s'.locks, u) == if u == t then p else PcOf(s.locks, u);
    }
  }

  lemma QuietKeepsEngine(cfg: Config, s: State, t: Thread, m: Move)
    requires GenerationsOk(Holder(s.locks), s.crew, s.started) && LocksOk(s.locks)
    requires EngineOk(s.crew) && SlotsOk(Holder(s.locks), s.crew)
    requires CanDo(s, t, m)
    requires m != CancelGen && m != WaitDone && m != NewGen && m != Spawn
    ensures var c := CrewAfter(cfg, s, t, m); EngineOk(c) && SlotsOk(Holder(LocksAfter(s, t, m)), c)
  {
    HolderAfter(s, t, m);
    hide LocksOk, LocksAfter, Holder, EngineOk;
  }

  lemma StopKeepsEngine(cfg: Config, s: State, t: Thread, m: Move)
    requires GenerationsOk(Holder(s.locks), s.crew, s.started) && LocksOk(s.locks)
    requires EngineOk(s.crew) && SlotsOk(Holder(s.locks), s.crew)
    requires CanDo(s, t, m)
    requires m == CancelGen || m == WaitDone
    ensures var c := CrewAfter(cfg, s, t, m); EngineOk(c) && SlotsOk(Holder(LocksAfter(s, t, m)), c)
  {
    HolderAfter(s, t, m);
    hide LocksOk, LocksAfter, Holder;
  }

  lemma NewGenKeepsEngine(cfg: Config, s: State, t: Thread, m: Move)
    requires GenerationsOk(Holder(s.locks), s.crew, s.started) && LocksOk(s.locks)
    requires EngineOk(s.crew) && SlotsOk(Holder(s.locks), s.crew)
    requires CanDo(s, t, m)
    requires m == NewGen
    ensures var c := CrewAfter(cfg, s, t, m); EngineOk(c) && SlotsOk(Holder(LocksAfter(s, t, m)), c)
  {
    HolderAfter(s, t, m);
    hide LocksOk, LocksAfter, Holder;
  }

  lemma SpawnKeepsEngine(cfg: Config, s: State, t: Thread, m: Move)
    requires GenerationsOk(Holder(s.locks), s.crew, s.started) && LocksOk(s.locks)
    requires EngineOk(s.crew) && SlotsOk(Holder(s.locks), s.crew)
    requires CanDo(s, t, m)
    requires m == Spawn
    ensures var c := CrewAfter(cfg, s, t, m); EngineOk(c) && SlotsOk(Holder(LocksAfter(s, t, m)), c)
  {
    HolderAfter(s, t, m);
    hide LocksOk, LocksAfter, Holder;
  }

  lemma MoveKeepsEngine(cfg: Config, s: State, t: Thread, m: Move)
    requires GenerationsOk(Holder(s.locks), s.crew, s.started) && LocksOk(s.locks)
    requires EngineOk(s.crew) && SlotsOk(Holder(s.locks), s.crew)
    requires CanDo(s, t, m)
    ensures var c := CrewAfter(cfg, s, t, m); EngineOk(c) && SlotsOk(Holder(LocksAfter(s, t, m)), c)
  {
    hide LocksOk, GenerationsOk, EngineOk, SlotsOk, CrewAfter, LocksAfter, CanDo, Holder;
    match m
    case CancelGen => StopKeepsEngine(cfg, s, t, m);
    case WaitDone => StopKeepsEngine(cfg, s, t, m);
    case NewGen => NewGenKeepsEngine(cfg, s, t, m);
    case Spawn => SpawnKeepsEngine(cfg, s, t, m);
    case _ => QuietKeepsEngine(cfg, s, t, m);
  }

  lemma DispatchKeepsEngine(s: State, w: Worker, a: Act)
    requires GenerationsOk(Holder(s.locks), s.crew, s.started) && SlotsOk(Holder(s.locks), s.crew) && EngineOk(s.crew)
    requires CanWork(s, w, a)
    requires a.Dispatch?
    ensures EngineOk(CrewWorks(s, w, a)) && SlotsOk(Holder(s.locks), CrewWorks(s, w, a))
  {
    hide Fetches, Holder;
  }

  lemma LeaveKeepsEngine(s: State, w: Worker, a: Act)
    requires GenerationsOk(Holder(s.locks), s.crew, s.started) && SlotsOk(Holder(s.locks), s.crew) && EngineOk(s.crew)
    requires CanWork(s, w, a)
    requires a == Exit || a == Finish || a == Quit
    ensures EngineOk(CrewWorks(s, w, a)) && SlotsOk(Holder(s.locks), CrewWorks(s, w, a))
  {
    forall v | v in s.crew.live && v.job.Fetch? && v.gen == w.gen ensures Fetches(s.crew, w.gen) != {} {
      assert v in Fetches(s.crew, w.gen);
    }
    hide Fetches, Holder;
  }

  lemma ListKeepsEngine(s: State, w: Worker, a: Act)
    requires GenerationsOk(Holder(s.locks), s.crew, s.started) && SlotsOk(Holder(s.locks), s.crew) && EngineOk(s.crew)
    requires CanWork(s, w, a)
    requires !a.Dispatch? && a != Exit && a != Finish && a != Quit
    ensures EngineOk(CrewWorks(s, w, a)) && SlotsOk(Holder(s.locks), CrewWorks(s, w, a))
  {
    forall v | v in s.crew.live && v.job.Fetch? && v.gen == w.gen ensures Fetches(s.crew, w.gen) != {} {
      assert v in Fetches(s.crew, w.gen);
    }
    hide Fetches, Holder;
  }

  lemma WorkKeepsEngine(s: State, w: Worker, a: Act)
    requires GenerationsOk(Holder(s.locks), s.crew, s.started) && SlotsOk(Holder(s.locks), s.crew) && EngineOk(s.crew)
    requires CanWork(s, w, a)
    ensures EngineOk(CrewWorks(s, w, a)) && SlotsOk(Holder(s.locks), CrewWorks(s, w, a))
  {
    hide GenerationsOk, SlotsOk, EngineOk, CrewWorks, CanWork, Holder;
    if a.Dispatch? {
      DispatchKeepsEngine(s, w, a);
    } else if a == Exit || a == Finish || a == Quit {
      LeaveKeepsEngine(s, w, a);
    } else {
      ListKeepsEngine(s, w, a);
    }
  }

  lemma MoveKeepsCapacity(cfg: Config, s: State, t: Thread, m: Move)
    requires GenerationsOk(Holder(s.locks), s.crew, s.started) && CapacityOk(s.crew) && CanDo(s, t, m)
    ensures CapacityOk(CrewAfter(cfg, s, t, m))
  {
    var c, c' := s.crew, CrewAfter(cfg, s, t, m);
    forall g | g in c'.slots ensures |Fetches(c', g)| <= c'.slots[g] {
      assert Fetches(c', g) == Fetches(c, g);
      if g !in c.slots || m == NewGen {
        assert g == c.nextGen ==> Fetches(c, g) == {};
      }
    }
  }

  lemma WorkKeepsCapacity(s: State, w: Worker, a: Act)
    requires CapacityOk(s.crew) && CanWork(s, w, a)
    ensures CapacityOk(CrewWorks(s, w, a))
  {
    var c, c' := s.crew, CrewWorks(s, w, a);
    forall g | g in c'.slots ensures |Fetches(c', g)| <= c'.slots[g] {
      if a.Dispatch? {
        var f := Worker(w.gen, Fetch(c.nextTicket, a.id));
        assert Fetches(c', g) == if g == w.gen then Fetches(c, g) + {f} else Fetches(c, g);
      } else {
        FewerFetches(c, c', g);
      }
    }
  }

  lemma FewerFetches(c: Crew, c': Crew, g: nat)
    requires c'.live <= c.live
    ensures |Fetches(c', g)| <= |Fetches(c, g)|
  {
    Subset(Fetches(c', g), Fetches(c, g));
  }

  lemma Subset<T>(a: set<T>, b: set<T>)
    requires a <= b
    ensures |a| <= |b|
  {
    if a != {} {
      var x :| x in a;
      Subset(a - {x}, b - {x});
    }
  }

  lemma MoveKeepsRows(cfg: Config, s: State, t: Thread, m: Move)
    requires LocksOk(s.locks) && StartOk(s) && RowsOk(s) && CanDo(s, t, m)
    ensures RowsOk(AfterMove(cfg, s, t, m))
  {
    HolderAfter(s, t, m);
    hide LocksOk, LocksAfter;
    var s' := AfterMove(cfg, s, t, m);
    assert s.crew.live <= s'.crew.live;
    if m != ResetAll && !OrphansAllowed(s) {
      forall id | id in s'.rows && s'.rows[id] == Active ensures Held(s'.crew, id) {
        assert Held(s.crew, id);
      }
    }
  }

  lemma WorkKeepsRows(s: State, w: Worker, a: Act)
    requires GenerationsOk(Holder(s.locks), s.crew, s.started) && RowsOk(s) && CanWork(s, w, a)
    ensures RowsOk(AfterWork(s, w, a))
  {
    var s' := AfterWork(s, w, a);
    if !OrphansAllowed(s) && a != LoopReset {
      assert a == Quit ==> w.job.id !in s.rows || s.rows[w.job.id] != Active;
      forall id | id in s'.rows && s'.rows[id] == Active ensures Held(s'.crew, id) {
        if a == Mark && id == w.job.id {
          assert w in s'.crew.live;
        } else {
          var v :| v in s.crew.live && v.job.Fetch? && v.job.id == id;
          assert v in s'.crew.live;
        }
      }
    }
  }

  lemma KeepsRows(cfg: Config, s: State, st: Step)
    requires Inv(s) && Enabled(s, st)
    ensures RowsOk(Apply(cfg, s, st))
  {
    match st
    case Do(t, m) => MoveKeepsRows(cfg, s, t, m);
    case Work(w, a) => WorkKeepsRows(s, w, a);
    case _ =>
      if !OrphansAllowed(s) {
        forall id | id in Apply(cfg, s, st).rows && Apply(cfg, s, st).rows[id] == Active ensures Held(s.crew, id) {
          assert id in s.rows && s.rows[id] == Active;
        }
      }
  }

  lemma MoveKeepsRequests(cfg: Config, s: State, t: Thread, m: Move)
    requires LocksOk(s.locks) && RequestsOk(s) && CanDo(s, t, m)
    ensures RequestsOk(AfterMove(cfg, s, t, m))
  {
    MoveTakesFreeLocks(s, t, m);
    hide LocksOk, CrewAfter, LocksAfter;
    assert t != Supervisor ==> PcOf(LocksAfter(s, t, m), Supervisor) == PcOf(s.locks, Supervisor);
  }

  /** Every step of every thread keeps the invariant. */
  lemma StepKeepsInv(cfg: Config, s: State, st: Step)
    requires Inv(s) && Enabled(s, st)
    ensures Inv(Apply(cfg, s, st))
  {
    hide LocksOk, GenerationsOk, StartOk, EngineOk, SlotsOk, CapacityOk, RowsOk, RequestsOk, Holder;
    KeepsLocks(cfg, s, st);
    KeepsGenerations(cfg, s, st);
    KeepsStart(cfg, s, st);
    KeepsRows(cfg, s, st);
    match st
    case Do(t, m) =>
      MoveKeepsEngine(cfg, s, t, m);
      MoveKeepsCapacity(cfg, s, t, m);
      MoveKeepsRequests(cfg, s, t, m);
      hide LocksAfter, CrewAfter, CanDo;
    case Work(w, a) =>
      WorkKeepsEngine(s, w, a);
      WorkKeepsCapacity(s, w, a);
      WorkKeepsRequests(s, w, a);
      hide CrewWorks, CanWork;
    case _ => RestKeepsRequests(cfg, s, st);
  }

  lemma WorkKeepsRequests(s: State, w: Worker, a: Act)
    requires RequestsOk(s) && CanWork(s, w, a)
    ensures RequestsOk(AfterWork(s, w, a))
  {
    hide CrewWorks;
  }

  lemma RestKeepsRequests(cfg: Config, s: State, st: Step)
    requires RequestsOk(s) && Enabled(s, st) && !st.Do? && !st.Work?
    ensures RequestsOk(Apply(cfg, s, st))
  {
  }

  lemma {:induction false} RunKeepsInv(cfg: Config, s: State, run: seq<Step>)
    requires Inv(s) && CanRun(cfg, s, run)
    ensures Inv(Run(cfg, s, run))
    decreases |run|
  {
    if run != [] {
      StepKeepsInv(cfg, s, run[0]);
      RunKeepsInv(cfg, Apply(cfg, s, run[0]), run[1..]);
    }
  }

  lemma ReachableInv(cfg: Config, s: State)
    requires Reachable(cfg, s)
    ensures Inv(s)
  {
    var init, run :| Init(init) && CanRun(cfg, init, run) && Run(cfg, init, run) == s;
    RunKeepsInv(cfg, init, run);
  }

  // ---- what it means ----

  /** Generations never overlap: all live workers belong to one generation. */
  lemma OneGeneration(cfg: Config, s: State, w: Worker, v: Worker)
    requires Reachable(cfg, s) && w in s.crew.live && v in s.crew.live
    ensures w.gen == v.gen
  {
    ReachableInv(cfg, s);
  }

  /** All downloads in progress, of whatever generation. */
  function Downloads(c: Crew): set<Worker> {
    set w | w in c.live && w.job.Fetch?
  }

  /** No two calls of Download hold the same item, hence the same partial. */
  lemma OneDownloadPerItem(cfg: Config, s: State, w: Worker, v: Worker)
    requires Reachable(cfg, s) && w in Downloads(s.crew) && v in Downloads(s.crew) && w.job.id == v.job.id
    ensures w == v
  {
    ReachableInv(cfg, s);
  }

  /** At most the configured number of downloads run, and it is the number of the generation they belong to. */
  lemma BoundedConcurrency(cfg: Config, s: State, w: Worker)
    requires Reachable(cfg, s) && w in Downloads(s.crew)
    ensures w.gen in s.crew.slots && |Downloads(s.crew)| <= s.crew.slots[w.gen]
  {
    ReachableInv(cfg, s);
    assert Downloads(s.crew) == Fetches(s.crew, w.gen);
  }

  /**
   * No download is lost: between Start and shutdown a 'downloading' row has a live worker,
   * except while a reload is stopping the generation or about to reset the rows.
   */
  lemma NoDownloadLost(cfg: Config, s: State, id: int)
    requires Reachable(cfg, s) && id in s.rows && s.rows[id] == Active && !OrphansAllowed(s)
    ensures exists w :: w in Downloads(s.crew) && w.job.id == id
  {
    ReachableInv(cfg, s);
    var w :| w in s.crew.live && w.job.Fetch? && w.job.id == id;
    assert w in Downloads(s.crew);
  }

  /**
   * When a reload publishes its runtime the old generation is gone and no row is 'downloading';
   * every row abandoned on the way is 'queued'.
   */
  lemma CleanHandover(cfg: Config, s: State, t: Thread)
    requires Reachable(cfg, s) && CanDo(s, t, ResetAll)
    ensures s.crew.live == {}
    ensures var s' := AfterMove(cfg, s, t, ResetAll);
      && s'.rows.Keys == s.rows.Keys
      && forall id | id in s.rows :: s'.rows[id] == if s.rows[id] == Active then Waits else s.rows[id]
    ensures forall id | id in AfterMove(cfg, s, t, ResetAll).rows :: AfterMove(cfg, s, t, ResetAll).rows[id] != Active
  {
    ReachableInv(cfg, s);
    HolderAfter(s, t, ResetAll);
  }

  /** The loop's own reset at its start puts back what it finds; after the reload's there is nothing to find. */
  lemma OwnResetIsIdle(cfg: Config, s: State, w: Worker)
    requires Reachable(cfg, s) && CanWork(s, w, LoopReset)
    ensures AfterWork(s, w, LoopReset).rows == s.rows
    ensures forall r: State | r.crew == s.crew && r.down == s.down && CanWork(r, w, LoopReset) ::
      && AfterWork(r, w, LoopReset).rows.Keys == r.rows.Keys
      && forall id | id in r.rows ::
           AfterWork(r, w, LoopReset).rows[id] == if r.rows[id] == Active then Waits else r.rows[id]
  {
    ReachableInv(cfg, s);
    hide LocksOk, RequestsOk, CapacityOk;
    forall id | id in s.rows ensures s.rows[id] != Active {
      assert !Held(s.crew, id);
    }
  }

  /**
   * No request is lost: each one ever made is in the channel, held by the supervisor on its way
   * to a reconnect, or covered by a reconnect that began after it was made.
   */
  lemma NoRequestLost(cfg: Config, s: State, k: nat)
    requires Reachable(cfg, s) && 1 <= k <= s.calls.asked
    ensures Served(s, k)
  {
    ReachableInv(cfg, s);
  }
}

/**
 * Reload and reconnect cannot deadlock, both locks are always given back, and every reconnect
 * request can be served.
 */
module Deadlock {
  import opened Basics
  import opened Lifecycle
  import opened Generations

  /** Thread t cannot go on before thread u does something. */
  predicate WaitsFor(s: State, t: Thread, u: Thread) {
    var p := PcOf(s.locks, t);
    || (p == WantReconnect && s.locks.reconnectMu == Some(u))
    || ((p.WantMu? || p.WantStart?) && s.locks.mu == Some(u))
    || (p.Inside? && p.at == Waiting && u.Background?
        && s.crew.current.Some? && u.w in Counted(s.crew, s.crew.current.value))
    || (t.Background? && t.w in s.crew.live && t.w.job.Loop? && u.Background? && u.w in Fetches(s.crew, t.w.gen))
  }

  /** The lock order: reconnectMu, then mu, then the waitgroup, then RunOnce's own waitgroup. */
  function Rank(s: State, t: Thread): nat {
    var p := PcOf(s.locks, t);
    if p == WantReconnect then 4
    else if p.WantMu? || p.WantStart? || p.Probing? then 3
    else if p.Inside? then 2
    else if t.Background? && t.w.job.Loop? then 1
    else 0
  }

  /** Someone in the middle of something: a caller or supervisor past its first step, or a live worker. */
  predicate Busy(s: State, t: Thread) {
    if t.Background? then t.w in s.crew.live else PcOf(s.locks, t) != Idle
  }

  ghost predicate CanStep(s: State, t: Thread) {
    if t.Background? then exists a :: CanWork(s, t.w, a) else exists m :: CanDo(s, t, m)
  }

  /** Waiting always goes down the lock order, so the wait-for relation has no cycle. */
  lemma WaitsDown(s: State, t: Thread, u: Thread)
    requires Inv(s) && WaitsFor(s, t, u)
    ensures Rank(s, u) < Rank(s, t)
    ensures Busy(s, u)
  {
    assert forall b: Thread :: b.Background? ==> PcOf(s.locks, b) == Idle;
  }

  /** A chain of n waits from t to u. */
  ghost predicate Leads(s: State, t: Thread, u: Thread, n: nat)
    decreases n
  {
    if n == 0 then t == u else exists v :: WaitsFor(s, t, v) && Leads(s, v, u, n - 1)
  }

  lemma {:induction false} LeadsDown(s: State, t: Thread, u: Thread, n: nat)
    requires Inv(s) && Leads(s, t, u, n)
    ensures Rank(s, u) + n <= Rank(s, t)
    decreases n
  {
    if n > 0 {
      var v :| WaitsFor(s, t, v) && Leads(s, v, u, n - 1);
      WaitsDown(s, t, v);
      LeadsDown(s, v, u, n - 1);
    }
  }

  /** No cycle of waits, in any reachable state. */
  lemma NoCycle(cfg: Config, s: State, t: Thread, n: nat)
    requires Reachable(cfg, s) && n > 0
    ensures !Leads(s, t, t, n)
  {
    ReachableInv(cfg, s);
    if Leads(s, t, t, n) {
      LeadsDown(s, t, t, n);
    }
  }

  lemma WorkerStepsOrWaits(s: State, t: Thread)
    requires Inv(s) && t.Background? && Busy(s, t)
    ensures CanStep(s, t) || exists u :: WaitsFor(s, t, u)
  {
    var w := t.w;
    match w.job
    case Fetch(_, id) =>
      assert CanWork(s, w, Finish) || CanWork(s, w, Quit);
    case Loop =>
      if f :| f in Fetches(s.crew, w.gen) {
        assert WaitsFor(s, t, Background(f));
      } else {
        assert Fetches(s.crew, w.gen) == {};
        assert CanWork(s, w, Exit) || CanWork(s, w, Tick);
      }
    case _ =>
      assert CanWork(s, w, Exit) || CanWork(s, w, Tick);
  }

  lemma HolderStepsOrWaits(s: State, t: Thread)
    requires Inv(s) && !t.Background? && PcOf(s.locks, t).Inside?
    ensures CanStep(s, t) || exists u :: WaitsFor(s, t, u)
  {
    var p := PcOf(s.locks, t);
    assert HoldsMu(p) && Holder(s.locks) == Some(p.at);
    match p.at
    case Cancelling => assert CanDo(s, t, CancelGen);
    case Waiting =>
      if w :| w in Counted(s.crew, s.crew.current.value) {
        assert WaitsFor(s, t, Background(w));
      } else {
        assert Counted(s.crew, s.crew.current.value) == {};
        assert CanDo(s, t, WaitDone);
      }
    case Resetting => assert CanDo(s, t, ResetAll);
    case Publishing => assert CanDo(s, t, Publish);
    case Launching => assert CanDo(s, t, NewGen);
    case Spawning(_, _) => assert CanDo(s, t, Spawn);
    case Unlocking => assert CanDo(s, t, UnlockMu);
    case Booting => assert CanDo(s, t, Boot);
    case BootReset => assert CanDo(s, t, ResetAll);
  }

  lemma StepsOrWaits(s: State, t: Thread)
    requires Inv(s) && Busy(s, t)
    ensures CanStep(s, t) || exists u :: WaitsFor(s, t, u)
  {
    if t.Background? {
      WorkerStepsOrWaits(s, t);
    } else {
      var p := PcOf(s.locks, t);
      match p
      case Idle =>
      case Saved => assert CanDo(s, t, Read);
      case WantReconnect =>
        if s.locks.reconnectMu.Some? {
          assert WaitsFor(s, t, s.locks.reconnectMu.value);
        } else {
          assert CanDo(s, t, LockReconnect);
        }
      case Probing => assert CanDo(s, t, Read);
      case WantMu(_) =>
        if s.locks.mu.Some? {
          assert WaitsFor(s, t, s.locks.mu.value);
        } else {
          assert CanDo(s, t, LockMu);
        }
      case WantStart =>
        if s.locks.mu.Some? {
          assert WaitsFor(s, t, s.locks.mu.value);
        } else {
          assert CanDo(s, t, LockMu);
        }
      case Inside(_, _) => HolderStepsOrWaits(s, t);
      case Seeding(_) => assert CanDo(s, t, Seed);
    }
  }

  /** The acts by which a worker stops being waited for; a worker nobody cancelled only ticks. */
  predicate Leaving(a: Act) { a == Exit || a == Finish || a == Quit }

  /** u can take a step towards giving up what others wait for. */
  ghost predicate CanRelease(s: State, u: Thread) {
    if u.Background? then exists a :: Leaving(a) && CanWork(s, u.w, a) else exists m :: CanDo(s, u, m)
  }

  /** Whoever is waited for can release or waits in turn: a reload waits only for workers it has cancelled. */
  lemma ReleasesOrWaits(s: State, t: Thread, u: Thread)
    requires Inv(s) && WaitsFor(s, t, u)
    ensures CanRelease(s, u) || exists v :: WaitsFor(s, u, v)
  {
    WaitsDown(s, t, u);
    if u.Background? {
      assert forall b: Thread :: b.Background? ==> PcOf(s.locks, b) == Idle;
      var w := u.w;
      if w.job.Fetch? {
        assert CanWork(s, w, Finish) || CanWork(s, w, Quit);
      } else {
        assert Holder(s.locks) == Some(Waiting) && Stopped(s, w.gen) by { AwaitedIsCancelled(s, t, u); }
        if f :| w.job.Loop? && f in Fetches(s.crew, w.gen) {
          assert WaitsFor(s, u, Background(f));
        } else {
          assert w.job.Loop? ==> Fetches(s.crew, w.gen) == {};
          assert CanWork(s, w, Exit);
        }
      }
    } else {
      StepsOrWaits(s, u);
    }
  }

  lemma AwaitedIsCancelled(s: State, t: Thread, u: Thread)
    requires Inv(s) && WaitsFor(s, t, u) && u.Background? && !u.w.job.Fetch?
    ensures Holder(s.locks) == Some(Waiting) && Stopped(s, u.w.gen)
  {
    assert forall b: Thread :: b.Background? ==> PcOf(s.locks, b) == Idle;
    var p := PcOf(s.locks, t);
    assert p.Inside? && p.at == Waiting;
    assert HoldsMu(p);
  }

  /** Behind every wait stands a thread that can release. */
  lemma {:induction false} ChainEnds(s: State, t: Thread, u: Thread)
    requires Inv(s) && WaitsFor(s, t, u)
    ensures exists v, n: nat :: n <= Rank(s, u) && Leads(s, u, v, n) && CanRelease(s, v)
    decreases Rank(s, u)
  {
    ReleasesOrWaits(s, t, u);
    if CanRelease(s, u) {
      assert Leads(s, u, u, 0);
    } else {
      var v :| WaitsFor(s, u, v);
      WaitsDown(s, u, v);
      ChainEnds(s, u, v);
      var x, n: nat :| n <= Rank(s, v) && Leads(s, v, x, n) && CanRelease(s, x);
      assert Leads(s, u, x, n + 1);
    }
  }

  /** A thread in the middle of something can step, or waits, at most four links away, for one that can release. */
  lemma {:induction false} NoDeadlock(cfg: Config, s: State, t: Thread)
    requires Reachable(cfg, s) && Busy(s, t)
    ensures CanStep(s, t) || exists u, n: nat :: 1 <= n <= 4 && Leads(s, t, u, n) && CanRelease(s, u)
  {
    ReachableInv(cfg, s);
    StepsOrWaits(s, t);
    if !CanStep(s, t) {
      var u :| WaitsFor(s, t, u);
      WaitsDown(s, t, u);
      ChainEnds(s, t, u);
      var v, n: nat :| n <= Rank(s, u) && Leads(s, u, v, n) && CanRelease(s, v);
      assert Leads(s, t, v, n + 1);
    }
  }

  // ---- mu is given back ----

  function Remaining(at: Stage): nat {
    match at
    case Cancelling => 40
    case Waiting => 39
    case Resetting => 38
    case Publishing => 37
    case Booting => 30
    case BootReset => 29
    case Launching => 28
    case Spawning(_, k) => 20 + if k < 4 then 4 - k else 0
    case Unlocking => 10
  }

  /** The next step on the way out: the holder's own, or the exit of a worker it waits for. */
  lemma NextStep(s: State, t: Thread) returns (st: Step)
    requires Inv(s) && s.locks.mu == Some(t)
    ensures Enabled(s, st) && (st.Work? || (st.Do? && st.t == t))
    ensures st.Work? ==> (st.a == Quit || st.a == Exit) && Holder(s.locks) == Some(Waiting)
    ensures st.Do? ==> var p := PcAfter(s, t, st.m);
      p.Seeding? || (p.Inside? && Remaining(p.at) < Remaining(PcOf(s.locks, t).at))
    ensures st.Do? ==> PcOf(s.locks, t).Inside?
  {
    var p := PcOf(s.locks, t);
    assert HoldsMu(p) && Holder(s.locks) == Some(p.at) && !t.Background?;
    match p.at
    case Cancelling => st := Do(t, CancelGen);
    case Waiting => st := WaitingStep(s, t);
    case Resetting => st := Do(t, ResetAll);
    case Publishing => st := Do(t, Publish);
    case Launching => st := Do(t, NewGen);
    case Spawning(_, _) => st := Do(t, Spawn);
    case Unlocking => st := Do(t, UnlockMu);
    case Booting => st := Do(t, Boot);
    case BootReset => st := Do(t, ResetAll);
  }

  /** In workersWG.Wait: a download quits, then its loop and the others exit, then the wait is over. */
  lemma WaitingStep(s: State, t: Thread) returns (st: Step)
    requires Inv(s) && s.locks.mu == Some(t) && PcOf(s.locks, t).Inside? && PcOf(s.locks, t).at == Waiting
    requires Holder(s.locks) == Some(Waiting) && !t.Background?
    ensures Enabled(s, st) && ((st.Work? && (st.a == Quit || st.a == Exit)) || st == Do(t, WaitDone))
  {
    var g := s.crew.current.value;
    assert Stopped(s, g);
    hide LocksOk, EngineOk, SlotsOk, CapacityOk, RowsOk, RequestsOk, StartOk;
    if w :| w in Fetches(s.crew, g) {
      st := Work(w, Quit);
    } else if w :| w in Counted(s.crew, g) {
      assert Fetches(s.crew, g) == {};
      st := Work(w, Exit);
    } else {
      assert Counted(s.crew, g) == {};
      st := Do(t, WaitDone);
    }
  }

  /** Only these threads take part, and workers by leaving once cancelled. */
  predicate Helped(run: seq<Step>, who: set<Thread>) {
    forall st | st in run :: (st.Work? && (st.a == Exit || st.a == Quit)) || (st.Do? && st.t in who)
  }

  lemma Prepend(cfg: Config, s: State, st: Step, rest: seq<Step>)
    requires Enabled(s, st) && CanRun(cfg, Apply(cfg, s, st), rest)
    ensures CanRun(cfg, s, [st] + rest) && Run(cfg, s, [st] + rest) == Run(cfg, Apply(cfg, s, st), rest)
  {
    assert ([st] + rest)[1..] == rest;
  }

  lemma {:induction false} Join(cfg: Config, s: State, a: seq<Step>, b: seq<Step>)
    requires CanRun(cfg, s, a) && CanRun(cfg, Run(cfg, s, a), b)
    ensures CanRun(cfg, s, a + b) && Run(cfg, s, a + b) == Run(cfg, Run(cfg, s, a), b)
    decreases |a|
  {
    if a == [] {
      assert a + b == b;
    } else {
      assert (a + b)[1..] == a[1..] + b;
      Join(cfg, Apply(cfg, s, a[0]), a[1..], b);
    }
  }

  /** How far the holder of mu still has to go: stages left, then workers left to wait for. */
  function StagesLeft(s: State, t: Thread): nat {
    if PcOf(s.locks, t).Inside? then Remaining(PcOf(s.locks, t).at) else 0
  }

  /** mu is free, or t still holds it and is nearer to giving it back. */
  predicate Nearer(s: State, s': State, t: Thread) {
    s'.locks.mu.Some? ==>
      && s'.locks.mu == Some(t)
      && (StagesLeft(s', t) < StagesLeft(s, t)
          || (StagesLeft(s', t) == StagesLeft(s, t) && |s'.crew.live| < |s.crew.live|))
  }

  /** What the way out of mu leaves alone: reconnectMu, the requests, and every other thread. */
  ghost predicate Aside(s: State, s': State, t: Thread) {
    && s'.locks.reconnectMu == s.locks.reconnectMu && s'.calls == s.calls
    && s'.down == s.down && (s.started ==> s'.started)
    && (forall u | u != t :: PcOf(s'.locks, u) == PcOf(s.locks, u))
    && (PcOf(s.locks, t).Inside? ==>
          var p, p' := PcOf(s.locks, t), PcOf(s'.locks, t);
          if s'.locks.mu.Some? then p'.Inside? && p'.task == p.task else p' == Seeding(p.task))
  }

  lemma MoveIsNearer(cfg: Config, s: State, t: Thread, m: Move)
    requires LocksOk(s.locks) && s.locks.mu == Some(t) && CanDo(s, t, m) && PcOf(s.locks, t).Inside?
    requires var p := PcAfter(s, t, m); p.Seeding? || (p.Inside? && Remaining(p.at) < Remaining(PcOf(s.locks, t).at))
    ensures Nearer(s, AfterMove(cfg, s, t, m), t)
  {
    MoveTakesFreeLocks(s, t, m);
    hide LocksOk, Remaining, CrewAfter, PcAfter, CanDo, LocksAfter;
  }

  lemma MoveStaysAside(cfg: Config, s: State, t: Thread, m: Move)
    requires LocksOk(s.locks) && s.locks.mu == Some(t) && CanDo(s, t, m) && PcOf(s.locks, t).Inside?
    ensures Aside(s, AfterMove(cfg, s, t, m), t)
  {
    hide LocksOk, CrewAfter;
  }

  lemma WorkIsNearer(s: State, w: Worker, a: Act, t: Thread)
    requires s.locks.mu == Some(t) && CanWork(s, w, a) && (a == Quit || a == Exit)
    ensures Nearer(s, AfterWork(s, w, a), t) && Aside(s, AfterWork(s, w, a), t)
  {
    hide Remaining;
  }

  lemma Advance(cfg: Config, s: State, t: Thread) returns (st: Step)
    requires Inv(s) && s.locks.mu == Some(t)
    ensures Enabled(s, st) && ((st.Work? && (st.a == Exit || st.a == Quit)) || (st.Do? && st.t == t))
    ensures Inv(Apply(cfg, s, st)) && Nearer(s, Apply(cfg, s, st), t) && Aside(s, Apply(cfg, s, st), t)
    ensures PcOf(s.locks, t).Inside?
  {
    st := NextStep(s, t);
    StepKeepsInv(cfg, s, st);
    assert LocksOk(s.locks);
    assert HoldsMu(PcOf(s.locks, t));
    hide Inv, Holder, CanDo, CanWork, LocksOk, Remaining, AfterMove, AfterWork, PcAfter, Nearer, Aside;
    if st.Do? {
      MoveIsNearer(cfg, s, t, st.m);
      MoveStaysAside(cfg, s, t, st.m);
    } else {
      WorkIsNearer(s, st.w, st.a, t);
    }
  }

  lemma HelpedStep(cfg: Config, s: State, st: Step, rest: seq<Step>, who: set<Thread>)
    requires Enabled(s, st) && CanRun(cfg, Apply(cfg, s, st), rest) && Helped(rest, who)
    requires (st.Work? && (st.a == Exit || st.a == Quit)) || (st.Do? && st.t in who)
    ensures CanRun(cfg, s, [st] + rest) && Run(cfg, s, [st] + rest) == Run(cfg, Apply(cfg, s, st), rest)
    ensures Helped([st] + rest, who)
  {
    hide Enabled, Apply;
    Prepend(cfg, s, st, rest);
  }

  lemma NoSteps(cfg: Config, s: State, who: set<Thread>)
    ensures CanRun(cfg, s, []) && Run(cfg, s, []) == s && Helped([], who)
  {
  }

  lemma AsideThen(s: State, s1: State, s2: State, t: Thread)
    requires PcOf(s.locks, t).Inside? && Aside(s, s1, t) && Aside(s1, s2, t) && s1.locks.mu.Some?
    ensures Aside(s, s2, t)
  {
  }

  /**
   * Whoever holds mu can give it back by its own steps and the exits of the workers it has
   * cancelled, whatever else is going on: no request, channel or other lock is needed.
   */
  lemma {:induction false} MuReleasable(cfg: Config, s: State, t: Thread) returns (run: seq<Step>)
    requires Inv(s) && s.locks.mu == Some(t)
    ensures CanRun(cfg, s, run) && Helped(run, {t})
    ensures var s' := Run(cfg, s, run);
      Inv(s') && s'.locks.mu.None? && Aside(s, s', t) && PcOf(s.locks, t).Inside?
    decreases StagesLeft(s, t), |s.crew.live|
  {
    hide Inv, Apply, Enabled, StagesLeft, CanRun, Run, Helped, Aside;
    var st := Advance(cfg, s, t);
    var s' := Apply(cfg, s, st);
    run := [];
    if s'.locks.mu.Some? {
      run := MuReleasable(cfg, s', t);
      AsideThen(s, s', Run(cfg, s', run), t);
    } else {
      NoSteps(cfg, s', {t});
    }
    HelpedStep(cfg, s, st, run, {t});
    run := [st] + run;
  }

  lemma {:induction false} MuAlwaysReleasable(cfg: Config, s: State, t: Thread)
    requires Reachable(cfg, s) && s.locks.mu == Some(t)
    ensures exists run :: CanRun(cfg, s, run) && Run(cfg, s, run).locks.mu.None? && Helped(run, {t})
  {
    ReachableInv(cfg, s);
    var run := MuReleasable(cfg, s, t);
    assert CanRun(cfg, s, run) && Run(cfg, s, run).locks.mu.None? && Helped(run, {t});
  }
}

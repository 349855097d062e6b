/** Which settings are live after reloads: the newest exactly when the last one published had read them last. */
module Reloads {
  import opened Basics
  import opened Lifecycle
  import opened Deadlock

  /** The reload has read the settings and not yet published a runtime. */
  predicate InFlight(p: Pc) {
    p.WantMu? || (p.Inside? && (p.at == Cancelling || p.at == Waiting || p.at == Resetting || p.at == Publishing))
  }

  /** Thread t may store or read settings without overlapping another thread's reload. */
  ghost predicate Alone(s: State, t: Thread) {
    forall u :: u != t ==> !InFlight(PcOf(s.locks, u))
  }

  ghost predicate Serial(cfg: Config, s: State, run: seq<Step>)
    requires CanRun(cfg, s, run)
    decreases |run|
  {
    run != [] ==>
      && (run[0].Do? && (run[0].m == Save || run[0].m == Read) ==> Alone(s, run[0].t))
      && Serial(cfg, Apply(cfg, s, run[0]), run[1..])
  }

  /** Every reload in flight carries the newest settings. */
  ghost predicate FlightsFresh(s: State) {
    forall u :: InFlight(PcOf(s.locks, u)) ==> PcOf(s.locks, u).task.ver == s.storedVersion
  }

  lemma MoveKeepsFresh(cfg: Config, s: State, t: Thread, m: Move)
    requires FlightsFresh(s) && CanDo(s, t, m) && (m == Save || m == Read ==> Alone(s, t))
    ensures FlightsFresh(AfterMove(cfg, s, t, m))
  {
    var s' := AfterMove(cfg, s, t, m);
    assert InFlight(PcOf(s.locks, t)) ==> PcOf(s.locks, t).task.ver == s.storedVersion;
    forall u ensures InFlight(PcOf(s'.locks, u)) ==> PcOf(s'.locks, u).task.ver == s'.storedVersion {
      assert PcOf(s'.locks, u) == if u == t then PcAfter(s, t, m) else PcOf(s.locks, u);
    }
  }

  lemma {:induction false} SerialKeepsFresh(cfg: Config, s: State, run: seq<Step>)
    requires FlightsFresh(s) && CanRun(cfg, s, run) && Serial(cfg, s, run)
    ensures FlightsFresh(Run(cfg, s, run))
    decreases |run|
  {
    if run != [] {
      var st := run[0];
      if st.Do? {
        MoveKeepsFresh(cfg, s, st.t, st.m);
      } else {
        assert Apply(cfg, s, st).locks == s.locks && Apply(cfg, s, st).storedVersion == s.storedVersion;
      }
      SerialKeepsFresh(cfg, Apply(cfg, s, st), run[1..]);
    }
  }

  /**
   * When no thread stores or reads settings during another's reload, every runtime published
   * is built from the newest settings.
   */
  lemma SerialReloadsPublishNewest(cfg: Config, init: State, run: seq<Step>, t: Thread)
    requires Init(init) && CanRun(cfg, init, run) && Serial(cfg, init, run)
    requires CanDo(Run(cfg, init, run), t, Publish)
    ensures var s := AfterMove(cfg, Run(cfg, init, run), t, Publish); s.liveVersion == s.storedVersion
  {
    SerialKeepsFresh(cfg, init, run);
    assert InFlight(PcOf(Run(cfg, init, run).locks, t));
  }

  // ---- exactly when the newest settings are live ----

  predicate IsSave(st: Step) { st.Do? && st.m == Save }

  predicate NoSave(run: seq<Step>) { forall i | 0 <= i < |run| :: !IsSave(run[i]) }

  predicate NoReadBy(run: seq<Step>, t: Thread) { forall i | 0 <= i < |run| :: run[i] != Do(t, Read) }

  /** What a move does to the versions in play. */
  lemma FlightAfterMove(cfg: Config, s: State, t: Thread, m: Move)
    requires CanDo(s, t, m)
    ensures var s' := AfterMove(cfg, s, t, m); var p, p' := PcOf(s.locks, t), PcOf(s'.locks, t);
      && s'.storedVersion == s.storedVersion + (if m == Save then 1 else 0)
      && (if m == Publish then InFlight(p) && s'.liveVersion == p.task.ver else s'.liveVersion == s.liveVersion)
      && (InFlight(p') ==> if m == Read then p'.task.ver == s.storedVersion else InFlight(p) && p'.task == p.task)
  {
    hide CrewAfter, ResetRows;
    assert LocksAfter(s, t, m).pc == s.locks.pc[t := PcAfter(s, t, m)];
  }

  lemma OthersAfterMove(cfg: Config, s: State, t: Thread, m: Move, u: Thread)
    requires CanDo(s, t, m) && u != t
    ensures PcOf(AfterMove(cfg, s, t, m).locks, u) == PcOf(s.locks, u)
  {
    hide CrewAfter, ResetRows, PcAfter;
  }

  /** One step: only a save moves the stored version, and only t's own read puts t in flight. */
  lemma StepCarries(cfg: Config, s: State, st: Step, t: Thread)
    requires Enabled(s, st) && st != Do(t, Read)
    ensures Apply(cfg, s, st).storedVersion == s.storedVersion + if IsSave(st) then 1 else 0
    ensures var p, p' := PcOf(s.locks, t), PcOf(Apply(cfg, s, st).locks, t);
      InFlight(p') ==> InFlight(p) && p'.task == p.task
  {
    if st.Do? {
      hide AfterMove, CanDo, InFlight;
      FlightAfterMove(cfg, s, st.t, st.m);
      if st.t != t {
        OthersAfterMove(cfg, s, st.t, st.m, t);
      }
    } else {
      hide CrewWorks, ResetRows, InFlight;
      assert Apply(cfg, s, st).locks == s.locks;
    }
  }

  /** A thread in flight at the end, without a read of its own on the way, carries what it carried at the start. */
  lemma {:induction false} RunCarries(cfg: Config, s: State, run: seq<Step>, t: Thread)
    requires CanRun(cfg, s, run) && NoReadBy(run, t)
    ensures var s' := Run(cfg, s, run); var p, p' := PcOf(s.locks, t), PcOf(s'.locks, t);
      && (InFlight(p') ==> InFlight(p) && p'.task == p.task)
      && s.storedVersion <= s'.storedVersion && (s.storedVersion == s'.storedVersion <==> NoSave(run))
    decreases |run|
  {
    hide InFlight, Apply, Enabled, IsSave;
    if run != [] {
      var rest := run[1..];
      assert forall i | 0 <= i < |rest| :: rest[i] == run[i + 1];
      assert NoSave(run) <==> !IsSave(run[0]) && NoSave(rest) by {
        assert forall i | 1 <= i < |run| :: run[i] == rest[i - 1];
      }
      StepCarries(cfg, s, run[0], t);
      RunCarries(cfg, Apply(cfg, s, run[0]), rest, t);
    }
  }

  /** A reload publishes the newest settings exactly when none are saved between its read and its publish. */
  lemma {:induction false} PublishesNewestIff(cfg: Config, s: State, t: Thread, run: seq<Step>)
    requires CanDo(s, t, Read) && CanRun(cfg, AfterMove(cfg, s, t, Read), run) && NoReadBy(run, t)
    requires CanDo(Run(cfg, AfterMove(cfg, s, t, Read), run), t, Publish)
    ensures var s' := AfterMove(cfg, Run(cfg, AfterMove(cfg, s, t, Read), run), t, Publish);
      s'.liveVersion == s'.storedVersion <==> NoSave(run)
  {
    RunCarries(cfg, AfterMove(cfg, s, t, Read), run, t);
    hide Run, CanRun, CrewAfter;
  }

  /** Whether the newest settings are live after a step, when `live` says whether they were before it. */
  predicate LiveThen(st: Step, live: bool, fr: set<Thread>) {
    if st.Do? && st.m == Publish then st.t in fr else live && !IsSave(st)
  }

  /** The threads that have read since the last save. */
  function FreshThen(st: Step, fr: set<Thread>): set<Thread> {
    if IsSave(st) then {} else if st.Do? && st.m == Read then fr + {st.t} else fr
  }

  /**
   * Read off the steps alone: `live` says whether the published settings are the newest, `fr`
   * which threads have read since the last save.
   */
  predicate NewestLive(run: seq<Step>, live: bool, fr: set<Thread>)
    decreases |run|
  {
    if run == [] then live else NewestLive(run[1..], LiveThen(run[0], live, fr), FreshThen(run[0], fr))
  }

  /** live and fr tell the truth about s. */
  ghost predicate Tells(s: State, live: bool, fr: set<Thread>) {
    && s.liveVersion <= s.storedVersion && (live <==> s.liveVersion == s.storedVersion)
    && forall u :: InFlight(PcOf(s.locks, u)) ==>
         var ver := PcOf(s.locks, u).task.ver; ver <= s.storedVersion && (u in fr <==> ver == s.storedVersion)
  }

  lemma TellsAfterMove(cfg: Config, s: State, t: Thread, m: Move, live: bool, fr: set<Thread>)
    requires CanDo(s, t, m) && Tells(s, live, fr)
    ensures Tells(AfterMove(cfg, s, t, m), LiveThen(Do(t, m), live, fr), FreshThen(Do(t, m), fr))
  {
    hide AfterMove, CanDo, InFlight;
    FlightAfterMove(cfg, s, t, m);
    forall u | u != t
      ensures PcOf(AfterMove(cfg, s, t, m).locks, u) == PcOf(s.locks, u)
    {
      OthersAfterMove(cfg, s, t, m, u);
    }
  }

  /** The steps that are nobody's move touch no lock and no version. */
  lemma AsideFromMoves(cfg: Config, s: State, st: Step)
    requires Enabled(s, st) && !st.Do?
    ensures var s' := Apply(cfg, s, st);
      s'.locks == s.locks && s'.storedVersion == s.storedVersion && s'.liveVersion == s.liveVersion
  {
    hide CrewWorks, ResetRows, CanWork;
  }

  lemma TellsStep(cfg: Config, s: State, st: Step, live: bool, fr: set<Thread>)
    requires Enabled(s, st) && Tells(s, live, fr)
    ensures Tells(Apply(cfg, s, st), LiveThen(st, live, fr), FreshThen(st, fr))
  {
    hide AfterMove, AfterWork, CanDo, CanWork, InFlight;
    if st.Do? {
      hide Tells;
      TellsAfterMove(cfg, s, st.t, st.m, live, fr);
      assert st == Do(st.t, st.m);
    } else {
      AsideFromMoves(cfg, s, st);
    }
  }

  lemma {:induction false} TellsAlong(cfg: Config, s: State, run: seq<Step>, live: bool, fr: set<Thread>)
    requires CanRun(cfg, s, run) && Tells(s, live, fr)
    ensures var s' := Run(cfg, s, run); s'.liveVersion == s'.storedVersion <==> NewestLive(run, live, fr)
    decreases |run|
  {
    hide Apply, Enabled, LiveThen, FreshThen;
    if run != [] {
      hide Tells;
      TellsStep(cfg, s, run[0], live, fr);
      TellsAlong(cfg, Apply(cfg, s, run[0]), run[1..], LiveThen(run[0], live, fr), FreshThen(run[0], fr));
    }
  }

  /**
   * After any run, overlapping or not, the newest settings are live exactly when the read behind
   * the last publish came after the last save, or there was neither.
   */
  lemma {:induction false} NewestLiveIff(cfg: Config, init: State, run: seq<Step>)
    requires Init(init) && CanRun(cfg, init, run)
    ensures var s := Run(cfg, init, run); s.liveVersion == s.storedVersion <==> NewestLive(run, true, {})
  {
    TellsAlong(cfg, init, run, true, {});
  }

  // ---- an overlap that ends stale ----

  /** Nothing runs in the background and mu is free, or in the hands of t. */
  predicate Bare(s: State, t: Thread, held: bool) {
    !t.Background? && !s.started && s.crew.current.None? && s.locks.mu == if held then Some(t) else None
  }

  predicate OnlyMoves(l: Locks, l': Locks, t: Thread) {
    l'.pc == l.pc[t := PcOf(l', t)] && l'.reconnectMu == l.reconnectMu
  }

  lemma Stops(cfg: Config, s: State, t: Thread, task: Task) returns (run: seq<Step>)
    requires Bare(s, t, false) && PcOf(s.locks, t) == WantMu(task)
    ensures CanRun(cfg, s, run)
    ensures var s' := Run(cfg, s, run);
      && s'.liveVersion == s.liveVersion && s'.storedVersion == s.storedVersion && Bare(s', t, true)
      && PcOf(s'.locks, t) == Inside(Resetting, task) && OnlyMoves(s.locks, s'.locks, t)
  {
    var s1 := Apply(cfg, s, Do(t, LockMu));
    run := [Do(t, CancelGen)];
    Prepend(cfg, s1, Do(t, CancelGen), []);
    Prepend(cfg, s, Do(t, LockMu), run);
    run := [Do(t, LockMu)] + run;
  }

  lemma Republishes(cfg: Config, s: State, t: Thread, task: Task) returns (run: seq<Step>)
    requires Bare(s, t, true) && PcOf(s.locks, t) == Inside(Resetting, task)
    ensures CanRun(cfg, s, run)
    ensures var s' := Run(cfg, s, run);
      && s'.liveVersion == task.ver && s'.storedVersion == s.storedVersion && Bare(s', t, true)
      && PcOf(s'.locks, t) == Inside(Launching, task) && OnlyMoves(s.locks, s'.locks, t)
  {
    var s1 := Apply(cfg, s, Do(t, ResetAll));
    run := [Do(t, Publish)];
    Prepend(cfg, s1, Do(t, Publish), []);
    Prepend(cfg, s, Do(t, ResetAll), run);
    run := [Do(t, ResetAll)] + run;
  }

  lemma Publishes(cfg: Config, s: State, t: Thread, task: Task) returns (run: seq<Step>)
    requires Bare(s, t, false) && PcOf(s.locks, t) == WantMu(task)
    ensures CanRun(cfg, s, run)
    ensures var s' := Run(cfg, s, run);
      && s'.liveVersion == task.ver && s'.storedVersion == s.storedVersion && Bare(s', t, true)
      && PcOf(s'.locks, t) == Inside(Launching, task) && OnlyMoves(s.locks, s'.locks, t)
  {
    run := Stops(cfg, s, t, task);
    var rest := Republishes(cfg, Run(cfg, s, run), t, task);
    Join(cfg, s, run, rest);
    run := run + rest;
  }

  lemma Returns(cfg: Config, s: State, t: Thread, task: Task) returns (run: seq<Step>)
    requires Bare(s, t, true) && PcOf(s.locks, t) == Inside(Launching, task) && !task.through
    ensures CanRun(cfg, s, run)
    ensures var s' := Run(cfg, s, run);
      && s'.liveVersion == s.liveVersion && s'.storedVersion == s.storedVersion && Bare(s', t, false)
      && PcOf(s'.locks, t) == Idle && OnlyMoves(s.locks, s'.locks, t)
  {
    var s1 := Apply(cfg, s, Do(t, NewGen));
    var s2 := Apply(cfg, s1, Do(t, UnlockMu));
    run := [Do(t, Seed)];
    Prepend(cfg, s2, Do(t, Seed), []);
    Prepend(cfg, s1, Do(t, UnlockMu), run);
    run := [Do(t, UnlockMu)] + run;
    Prepend(cfg, s, Do(t, NewGen), run);
    run := [Do(t, NewGen)] + run;
  }

  /** With nothing running in the background, a reload that has read the settings can go straight through. */
  lemma GoesThrough(cfg: Config, s: State, t: Thread, ver: nat) returns (run: seq<Step>)
    requires Bare(s, t, false) && PcOf(s.locks, t) == WantMu(Task(ver, false))
    ensures CanRun(cfg, s, run)
    ensures var s' := Run(cfg, s, run);
      && s'.liveVersion == ver && s'.storedVersion == s.storedVersion && Bare(s', t, false)
      && PcOf(s'.locks, t) == Idle && OnlyMoves(s.locks, s'.locks, t)
  {
    run := Publishes(cfg, s, t, Task(ver, false));
    var rest := Returns(cfg, Run(cfg, s, run), t, Task(ver, false));
    Join(cfg, s, run, rest);
    run := run + rest;
  }

  lemma Overlap(cfg: Config, init: State, a: Thread, b: Thread) returns (run: seq<Step>)
    requires Init(init) && a.Caller? && b.Caller? && a != b
    ensures CanRun(cfg, init, run)
    ensures var s := Run(cfg, init, run);
      && s.storedVersion == init.storedVersion + 2 && Bare(s, b, false)
      && s.locks == Locks(None, None, map[a := WantMu(Task(init.storedVersion + 1, false)),
                                          b := WantMu(Task(init.storedVersion + 2, false))])
  {
    var s1 := Apply(cfg, init, Do(a, Save));
    var s2 := Apply(cfg, s1, Do(a, Read));
    var s3 := Apply(cfg, s2, Do(b, Save));
    Prepend(cfg, s3, Do(b, Read), []);
    Prepend(cfg, s2, Do(b, Save), [Do(b, Read)]);
    Prepend(cfg, s1, Do(a, Read), [Do(b, Save)] + [Do(b, Read)]);
    Prepend(cfg, init, Do(a, Save), [Do(a, Read)] + ([Do(b, Save)] + [Do(b, Read)]));
    run := [Do(a, Save)] + ([Do(a, Read)] + ([Do(b, Save)] + [Do(b, Read)]));
  }

  /**
   * Overlapping reloads can leave the older settings live: one caller saves and reads, a second
   * saves, reads and publishes, and the first publishes last. Nothing is left in flight.
   */
  lemma OverlapPublishesStale(cfg: Config, init: State)
    requires Init(init)
    ensures exists run ::
      && CanRun(cfg, init, run)
      && Run(cfg, init, run).liveVersion < Run(cfg, init, run).storedVersion
      && forall u :: PcOf(Run(cfg, init, run).locks, u) == Idle
  {
    var a, b := Caller(0), Caller(1);
    var firstFour := Overlap(cfg, init, a, b);
    hide Apply, Enabled, CanRun, Run;
    var s4 := Run(cfg, init, firstFour);
    var second := GoesThrough(cfg, s4, b, init.storedVersion + 2);
    var first := GoesThrough(cfg, Run(cfg, s4, second), a, init.storedVersion + 1);
    Join(cfg, s4, second, first);
    Join(cfg, init, firstFour, second + first);
    assert CanRun(cfg, init, firstFour + (second + first));
  }
}

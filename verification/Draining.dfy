/**
 * No queued row starves: between reloads the loop and its downloads can always get to it by themselves.
 * And none that is done with is taken up again before it is queued.
 */
module Draining {
  import opened Basics
  import opened Lifecycle
  import opened Generations
  import opened Crews
  import opened Deadlock

  /** The row waits, and generation g, which nobody has cancelled, has a loop with room for a download. */
  ghost predicate Open(s: State, g: nat, id: int) {
    && !Stopped(s, g) && Worker(g, Loop) in s.crew.live && Worker(g, Loop) !in s.crew.brief
    && g in s.crew.slots && s.crew.slots[g] > 0
    && id in s.rows && s.rows[id] == Waits
  }

  /** Steps of the generation's loop and of its downloads alone. */
  predicate ByEngine(run: seq<Step>, g: nat) {
    forall st | st in run :: st.Work? && st.w.gen == g && (st.w.job.Loop? || st.w.job.Fetch?) && st.a != Exit
  }

  /** The row is being downloaded. */
  ghost predicate UnderWay(s: State, id: int) {
    id in s.rows && s.rows[id] == Active && exists w :: w in Downloads(s.crew) && w.job.id == id
  }

  ghost predicate Taken(cfg: Config, s: State, run: seq<Step>, g: nat, id: int) {
    CanRun(cfg, s, run) && ByEngine(run, g) && UnderWay(Run(cfg, s, run), id)
  }

  lemma TakenFirst(cfg: Config, s: State, w: Worker, a: Act, rest: seq<Step>, id: int)
    requires CanWork(s, w, a) && (w.job.Loop? || w.job.Fetch?) && a != Exit
    requires Taken(cfg, AfterWork(s, w, a), rest, w.gen, id)
    ensures Taken(cfg, s, [Work(w, a)] + rest, w.gen, id)
  {
    hide AfterWork, CanWork, UnderWay;
    Prepend(cfg, s, Work(w, a), rest);
  }

  lemma Marks(cfg: Config, s: State, w: Worker, id: int) returns (run: seq<Step>)
    requires w in s.crew.live && w.job.Fetch? && w.job.id == id && !Stopped(s, w.gen) && id in s.rows
    ensures Taken(cfg, s, run, w.gen, id)
  {
    var s' := AfterWork(s, w, Mark);
    assert w in Downloads(s'.crew);
    assert CanRun(cfg, s', []) && Run(cfg, s', []) == s' && ByEngine([], w.gen);
    TakenFirst(cfg, s, w, Mark, [], id);
    run := [Work(w, Mark)] + [];
  }

  /** With no download left the loop lists the row, dispatches it, and the download marks it. */
  lemma Lists(cfg: Config, s: State, g: nat, id: int) returns (run: seq<Step>)
    requires Open(s, g, id) && Fetches(s.crew, g) == {} && g in s.crew.pending
    ensures Taken(cfg, s, run, g, id)
  {
    var loop := Worker(g, Loop);
    var s1 := AfterWork(s, loop, Scan);
    assert Fetches(s1.crew, g) == {};
    var s2 := AfterWork(s1, loop, Dispatch(id));
    var f := Worker(g, Fetch(s1.crew.nextTicket, id));
    assert f in s2.crew.live;
    run := Marks(cfg, s2, f, id);
    hide Taken, AfterWork;
    TakenFirst(cfg, s1, loop, Dispatch(id), run, id);
    run := [Work(loop, Dispatch(id))] + run;
    TakenFirst(cfg, s, loop, Scan, run, id);
    run := [Work(loop, Scan)] + run;
  }

  lemma Resets(cfg: Config, s: State, g: nat, id: int) returns (run: seq<Step>)
    requires Open(s, g, id) && Fetches(s.crew, g) == {}
    ensures Taken(cfg, s, run, g, id)
  {
    if g in s.crew.pending {
      run := Lists(cfg, s, g, id);
    } else {
      var loop := Worker(g, Loop);
      var s1 := AfterWork(s, loop, LoopReset);
      assert Fetches(s1.crew, g) == {};
      run := Lists(cfg, s1, g, id);
      hide Taken, AfterWork;
      TakenFirst(cfg, s, loop, LoopReset, run, id);
      run := [Work(loop, LoopReset)] + run;
    }
  }

  /** The downloads in progress end, unless one of them is for this row. */
  lemma {:induction false} Drains(cfg: Config, s: State, g: nat, id: int) returns (run: seq<Step>)
    requires Open(s, g, id)
    ensures Taken(cfg, s, run, g, id)
    decreases |Fetches(s.crew, g)|
  {
    if f :| f in Fetches(s.crew, g) {
      if f.job.id == id {
        run := Marks(cfg, s, f, id);
      } else {
        var a := if f.job.id in s.rows && s.rows[f.job.id] == Active then Finish else Quit;
        var s1 := AfterWork(s, f, a);
        assert Fetches(s1.crew, g) == Fetches(s.crew, g) - {f};
        run := Drains(cfg, s1, g, id);
        hide Taken, AfterWork;
        TakenFirst(cfg, s, f, a, run, id);
        run := [Work(f, a)] + run;
      }
    } else {
      run := Resets(cfg, s, g, id);
    }
  }

  /**
   * From any reachable state of a running process between reloads, a queued row can be got under way
   * by the current generation's loop and downloads alone, if the live settings have an engine that
   * polls and at least one slot.
   */
  lemma {:induction false} QueuedIsTaken(cfg: Config, s: State, id: int)
    requires Reachable(cfg, s) && s.started && !s.down && s.locks.mu.None?
    requires id in s.rows && s.rows[id] == Waits
    requires var v := s.liveVersion; cfg.engine(v) && !cfg.brief(v, Loop) && cfg.slots(v) > 0
    ensures exists run, g :: Taken(cfg, s, run, g, id)
  {
    FullCrew(cfg, s);
    ReachableCrew(cfg, s);
    var g := s.crew.current.value;
    assert Worker(g, Loop) !in s.crew.brief by {
      assert Holder(s.locks) == None;
      assert Owner(Holder(s.locks), s.crew) == Some(g);
    }
    hide Inv, CrewOk;
    var run := Drains(cfg, s, g, id);
  }

  // ---- rows that are done with, and rows that are queued ----

  /** The row is ready, failed or evicted, and no loop has it listed and no download has it in hand. */
  ghost predicate AtRest(s: State, id: int) {
    && id in s.rows && s.rows[id] == Settled
    && (forall w | w in s.crew.live && w.job.Fetch? :: w.job.id != id)
    && (forall g | g in s.crew.pending :: id !in s.crew.pending[g])
  }

  predicate NeverQueued(run: seq<Step>, id: int) { forall st | st in run :: st != Queue(id) }

  lemma MoveKeepsRest(cfg: Config, s: State, t: Thread, m: Move, id: int)
    requires AtRest(s, id) && CanDo(s, t, m)
    ensures AtRest(AfterMove(cfg, s, t, m), id)
  {
    hide LocksAfter;
  }

  lemma WorkKeepsRest(s: State, w: Worker, a: Act, id: int)
    requires AtRest(s, id) && CanWork(s, w, a)
    ensures AtRest(AfterWork(s, w, a), id)
  {
    hide Fetches;
  }

  lemma StepKeepsRest(cfg: Config, s: State, st: Step, id: int)
    requires AtRest(s, id) && Enabled(s, st) && st != Queue(id)
    ensures AtRest(Apply(cfg, s, st), id)
  {
    hide AfterMove, AfterWork, CanDo, CanWork;
    match st
    case Do(t, m) => MoveKeepsRest(cfg, s, t, m, id);
    case Work(w, a) => WorkKeepsRest(s, w, a, id);
    case _ =>
  }

  lemma {:induction false} RunKeepsRest(cfg: Config, s: State, run: seq<Step>, id: int)
    requires AtRest(s, id) && CanRun(cfg, s, run) && NeverQueued(run, id)
    ensures AtRest(Run(cfg, s, run), id)
    decreases |run|
  {
    hide AtRest, Apply, Enabled;
    if run != [] {
      assert run[0] in run && forall st | st in run[1..] :: st in run;
      StepKeepsRest(cfg, s, run[0], id);
      RunKeepsRest(cfg, Apply(cfg, s, run[0]), run[1..], id);
    }
  }

  /**
   * A download that has recorded its row, as ready or with an error, is the last of it: whatever happens
   * then, reloads and evictions included, the item is not taken up again until somebody queues it.
   */
  lemma {:induction false} FinishedIsDone(cfg: Config, s: State, w: Worker, run: seq<Step>)
    requires Reachable(cfg, s) && CanWork(s, w, Finish)
    requires CanRun(cfg, AfterWork(s, w, Finish), run) && NeverQueued(run, w.job.id)
    ensures var s' := Run(cfg, AfterWork(s, w, Finish), run);
      && w.job.id in s'.rows && s'.rows[w.job.id] == Settled
      && forall v | v in Downloads(s'.crew) :: v.job.id != w.job.id
  {
    ReachableInv(cfg, s);
    AtRestAfter(s, w);
    hide Inv, AfterWork, Run, CanRun;
    RunKeepsRest(cfg, AfterWork(s, w, Finish), run, w.job.id);
  }

  lemma AtRestAfter(s: State, w: Worker)
    requires Inv(s) && CanWork(s, w, Finish)
    ensures AtRest(AfterWork(s, w, Finish), w.job.id)
  {
    hide LocksOk, RowsOk, RequestsOk, StartOk, CapacityOk, SlotsOk, Fetches, Holder;
  }

  /** An item evicted while no loop lists it and no download holds it is not taken up again either. */
  lemma {:induction false} EvictedIsDone(cfg: Config, s: State, id: int, run: seq<Step>)
    requires id in s.rows && (forall w | w in Downloads(s.crew) :: w.job.id != id)
    requires forall g | g in s.crew.pending :: id !in s.crew.pending[g]
    requires CanRun(cfg, Apply(cfg, s, EvictRow(id)), run) && NeverQueued(run, id)
    ensures var s' := Run(cfg, Apply(cfg, s, EvictRow(id)), run);
      id in s'.rows && s'.rows[id] == Settled && forall v | v in Downloads(s'.crew) :: v.job.id != id
  {
    var s1 := Apply(cfg, s, EvictRow(id));
    assert AtRest(s1, id) by {
      forall w | w in s1.crew.live && w.job.Fetch? ensures w.job.id != id {
        assert w in Downloads(s.crew);
      }
    }
    hide Run, CanRun, Apply;
    RunKeepsRest(cfg, s1, run, id);
  }

  /** A scan lists exactly the rows that are queued. */
  lemma ScanLists(s: State, w: Worker, id: int)
    requires CanWork(s, w, Scan)
    ensures w.gen in AfterWork(s, w, Scan).crew.pending
    ensures id in AfterWork(s, w, Scan).crew.pending[w.gen] <==> id in s.rows && s.rows[id] == Waits
  {
  }

  /**
   * Queue leaves a download in progress alone, and whatever else the row was, new, failed or finished, from
   * then on the loop and its downloads can get it under way.
   */
  lemma {:induction false} QueueIsServed(cfg: Config, s: State, id: int)
    requires Reachable(cfg, s) && s.started && !s.down && s.locks.mu.None?
    requires var v := s.liveVersion; cfg.engine(v) && !cfg.brief(v, Loop) && cfg.slots(v) > 0
    ensures UnderWay(s, id) ==> UnderWay(Apply(cfg, s, Queue(id)), id)
    ensures exists run, g :: Taken(cfg, Apply(cfg, s, Queue(id)), run, g, id)
  {
    var s1 := Apply(cfg, s, Queue(id));
    ReachableThen(cfg, s, Queue(id));
    if s1.rows[id] == Active {
      NoDownloadLost(cfg, s1, id);
      var run: seq<Step> := [];
      assert CanRun(cfg, s1, run) && Run(cfg, s1, run) == s1 && ByEngine(run, 0);
      assert Taken(cfg, s1, run, 0, id);
    } else {
      QueuedIsTaken(cfg, s1, id);
    }
  }

  lemma ReachableThen(cfg: Config, s: State, st: Step)
    requires Reachable(cfg, s) && Enabled(s, st)
    ensures Reachable(cfg, Apply(cfg, s, st))
  {
    var init, run :| Init(init) && CanRun(cfg, init, run) && Run(cfg, init, run) == s;
    hide Init, Enabled, Apply;
    assert CanRun(cfg, s, [st]) && Run(cfg, s, [st]) == Apply(cfg, s, st) by {
      NoSteps(cfg, Apply(cfg, s, st), {});
      assert [st][1..] == [];
    }
    Join(cfg, init, run, [st]);
    assert Init(init) && CanRun(cfg, init, run + [st]) && Run(cfg, init, run + [st]) == Apply(cfg, s, st);
  }
}

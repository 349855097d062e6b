/** Reconnect requests: whatever else is going on, the supervisor can get to serve the ones waiting. */
module Requests {
  import opened Basics
  import opened Lifecycle
  import opened Generations
  import opened Deadlock

  /** The requests made and taken, and the process, are as they were. */
  predicate SameCalls(s: State, s': State) {
    s'.calls == s.calls && s'.down == s.down && (s.started ==> s'.started)
  }

  /** reconnectMu has been given back by t, and the supervisor, unless it is t, stands where it stood. */
  ghost predicate Freed(s: State, s': State, t: Thread) {
    && Inv(s') && s'.locks.reconnectMu.None? && SameCalls(s, s')
    && PcOf(s'.locks, Supervisor) == if t == Supervisor then Idle else PcOf(s.locks, Supervisor)
  }

  lemma HelpedJoin(a: seq<Step>, b: seq<Step>, who: set<Thread>)
    requires Helped(a, who) && Helped(b, who)
    ensures Helped(a + b, who)
  {
  }

  lemma HelpedBy(run: seq<Step>, few: set<Thread>, who: set<Thread>)
    requires Helped(run, few) && few <= who
    ensures Helped(run, who)
  {
  }

  lemma OneStep(cfg: Config, s: State, t: Thread, m: Move, who: set<Thread>)
    requires Inv(s) && CanDo(s, t, m) && t in who
    ensures CanRun(cfg, s, [Do(t, m)]) && Run(cfg, s, [Do(t, m)]) == AfterMove(cfg, s, t, m)
    ensures Inv(AfterMove(cfg, s, t, m)) && Helped([Do(t, m)], who)
  {
    hide Inv, CanDo, AfterMove;
    StepKeepsInv(cfg, s, Do(t, m));
    NoSteps(cfg, AfterMove(cfg, s, t, m), who);
    HelpedStep(cfg, s, Do(t, m), [], who);
  }

  /** A reconnect past its reload only has to seed the registry and unlock. */
  lemma FreeSeeding(cfg: Config, s: State, t: Thread, who: set<Thread>) returns (run: seq<Step>)
    requires Inv(s) && s.locks.reconnectMu == Some(t) && PcOf(s.locks, t).Seeding? && t in who
    ensures CanRun(cfg, s, run) && Helped(run, who) && Freed(s, Run(cfg, s, run), t)
  {
    run := [Do(t, Seed)];
    HoldsWhatItSays(s, t);
    OneStep(cfg, s, t, Seed, who);
    hide Inv, Run, CanRun, CrewAfter;
  }

  lemma HoldsWhatItSays(s: State, t: Thread)
    requires Inv(s)
    ensures s.locks.reconnectMu == Some(t) ==> HoldsReconnectMu(PcOf(s.locks, t)) && !t.Background?
    ensures s.locks.mu == Some(t) ==> HoldsMu(PcOf(s.locks, t)) && !t.Background?
    ensures PcOf(s.locks, t).Inside? ==> s.locks.mu == Some(t)
  {
  }

  /** One that discovers can still fail. */
  lemma FreeProbing(cfg: Config, s: State, t: Thread, who: set<Thread>) returns (run: seq<Step>)
    requires Inv(s) && s.locks.reconnectMu == Some(t) && PcOf(s.locks, t).Probing? && t in who
    ensures CanRun(cfg, s, run) && Helped(run, who) && Freed(s, Run(cfg, s, run), t)
  {
    run := [Do(t, Fail)];
    HoldsWhatItSays(s, t);
    OneStep(cfg, s, t, Fail, who);
    hide Inv, Run, CanRun, CrewAfter;
  }

  lemma AsideIsSameCalls(s: State, s': State, t: Thread)
    requires Aside(s, s', t)
    ensures SameCalls(s, s') && s'.locks.reconnectMu == s.locks.reconnectMu
    ensures t != Supervisor ==> PcOf(s'.locks, Supervisor) == PcOf(s.locks, Supervisor)
  {
  }

  lemma FreedThen(s: State, s1: State, s2: State, t: Thread)
    requires SameCalls(s, s1) && Freed(s1, s2, t)
    requires t != Supervisor ==> PcOf(s1.locks, Supervisor) == PcOf(s.locks, Supervisor)
    ensures Freed(s, s2, t)
  {
    hide Inv;
  }

  /** One inside mu finishes its reload. */
  lemma FreeInside(cfg: Config, s: State, t: Thread, who: set<Thread>) returns (run: seq<Step>)
    requires Inv(s) && s.locks.reconnectMu == Some(t) && PcOf(s.locks, t).Inside? && t in who
    ensures CanRun(cfg, s, run) && Helped(run, who) && Freed(s, Run(cfg, s, run), t)
  {
    HoldsWhatItSays(s, t);
    run := MuReleasable(cfg, s, t);
    hide Inv, Run, CanRun, Helped, Freed, SameCalls;
    var s1 := Run(cfg, s, run);
    AsideIsSameCalls(s, s1, t);
    HelpedBy(run, {t}, who);
    var rest := FreeSeeding(cfg, s1, t, who);
    FreedThen(s, s1, Run(cfg, s1, rest), t);
    Join(cfg, s, run, rest);
    HelpedJoin(run, rest, who);
    run := run + rest;
  }

  /** The holder of mu gets out of the way. */
  lemma ClearMu(cfg: Config, s: State, t: Thread, who: set<Thread>) returns (run: seq<Step>)
    requires Inv(s) && !PcOf(s.locks, t).Inside? && (s.locks.mu.Some? ==> s.locks.mu.value in who)
    requires PcOf(s.locks, Supervisor).Inside? ==> t == Supervisor
    ensures CanRun(cfg, s, run) && Helped(run, who)
    ensures var s' := Run(cfg, s, run);
      && Inv(s') && s'.locks.mu.None? && SameCalls(s, s') && s'.locks.reconnectMu == s.locks.reconnectMu
      && PcOf(s'.locks, t) == PcOf(s.locks, t) && PcOf(s'.locks, Supervisor) == PcOf(s.locks, Supervisor)
  {
    if s.locks.mu.None? {
      run := [];
      NoSteps(cfg, s, who);
    } else {
      var h := s.locks.mu.value;
      HoldsWhatItSays(s, h);
      run := MuReleasable(cfg, s, h);
      hide Inv, Run, CanRun, Helped;
      HelpedBy(run, {h}, who);
    }
  }

  /** One that waits for mu waits for whoever holds it, then reloads. */
  lemma FreeWanting(cfg: Config, s: State, t: Thread, who: set<Thread>) returns (run: seq<Step>)
    requires Inv(s) && s.locks.reconnectMu == Some(t) && PcOf(s.locks, t).WantMu?
    requires t in who && (s.locks.mu.Some? ==> s.locks.mu.value in who)
    ensures CanRun(cfg, s, run) && Helped(run, who) && Freed(s, Run(cfg, s, run), t)
  {
    HoldsWhatItSays(s, t);
    SupervisorReconnects(s, t);
    run := ClearMu(cfg, s, t, who);
    var s1 := Run(cfg, s, run);
    hide Inv, Run, CanRun, Helped, Freed;
    HoldsWhatItSays(s1, t);
    assert CanDo(s1, t, LockMu);
    OneStep(cfg, s1, t, LockMu, who);
    var s2 := AfterMove(cfg, s1, t, LockMu);
    var rest := FreeInside(cfg, s2, t, who);
    hide CrewAfter;
    FreedThen(s, s2, Run(cfg, s2, rest), t);
    Join(cfg, s1, [Do(t, LockMu)], rest);
    HelpedJoin([Do(t, LockMu)], rest, who);
    Join(cfg, s, run, [Do(t, LockMu)] + rest);
    HelpedJoin(run, [Do(t, LockMu)] + rest, who);
    run := run + ([Do(t, LockMu)] + rest);
  }

  /** The supervisor works only inside a reconnect. */
  lemma SupervisorReconnects(s: State, t: Thread)
    requires Inv(s) && s.locks.reconnectMu == Some(t)
    ensures PcOf(s.locks, Supervisor).Inside? ==> t == Supervisor
    ensures t != Supervisor ==> PcOf(s.locks, Supervisor) == Idle || PcOf(s.locks, Supervisor) == WantReconnect
  {
  }

  /** The threads a request may have to wait for: whoever holds a lock, and the supervisor. */
  function Involved(s: State): set<Thread> {
    {Supervisor} + (if s.locks.mu.Some? then {s.locks.mu.value} else {})
    + (if s.locks.reconnectMu.Some? then {s.locks.reconnectMu.value} else {})
  }

  lemma {:induction false} ReconnectMuReleasable(cfg: Config, s: State, t: Thread) returns (run: seq<Step>)
    requires Inv(s) && s.locks.reconnectMu == Some(t)
    ensures CanRun(cfg, s, run) && Helped(run, Involved(s)) && Freed(s, Run(cfg, s, run), t)
  {
    HoldsWhatItSays(s, t);
    var p := PcOf(s.locks, t);
    hide Inv, Run, CanRun, Helped, Freed;
    if p.Probing? {
      run := FreeProbing(cfg, s, t, Involved(s));
    } else if p.WantMu? {
      run := FreeWanting(cfg, s, t, Involved(s));
    } else if p.Inside? {
      run := FreeInside(cfg, s, t, Involved(s));
    } else {
      run := FreeSeeding(cfg, s, t, Involved(s));
    }
  }

  /** With reconnectMu free the supervisor takes a waiting request and begins a reconnect. */
  lemma Begins(cfg: Config, s: State, who: set<Thread>) returns (run: seq<Step>)
    requires Inv(s) && s.locks.reconnectMu.None? && s.started && s.calls.probed < s.calls.asked && Supervisor in who
    ensures CanRun(cfg, s, run) && Helped(run, who)
    ensures Run(cfg, s, run).calls.probed == s.calls.asked && PcOf(Run(cfg, s, run).locks, Supervisor).Probing?
  {
    var s1 := s;
    run := [];
    NoSteps(cfg, s, who);
    if PcOf(s.locks, Supervisor) == Idle {
      assert CanDo(s, Supervisor, CallReconnect);
      OneStep(cfg, s, Supervisor, CallReconnect, who);
      run := [Do(Supervisor, CallReconnect)];
      s1 := AfterMove(cfg, s, Supervisor, CallReconnect);
    }
    assert CanDo(s1, Supervisor, LockReconnect);
    OneStep(cfg, s1, Supervisor, LockReconnect, who);
    hide Inv, CanDo, Run, CanRun, Helped, CrewAfter;
    Join(cfg, s, run, [Do(Supervisor, LockReconnect)]);
    HelpedJoin(run, [Do(Supervisor, LockReconnect)], who);
    run := run + [Do(Supervisor, LockReconnect)];
  }

  /**
   * While the process is up every request made so far can be served: by steps of the threads
   * that hold a lock and of the supervisor, and exits of cancelled workers, the supervisor
   * comes to begin a reconnect after it.
   */
  lemma {:induction false} RequestServable(cfg: Config, s: State)
    requires Reachable(cfg, s) && s.started && !s.down && s.calls.probed < s.calls.asked
    ensures exists run ::
      && CanRun(cfg, s, run) && Helped(run, Involved(s))
      && Run(cfg, s, run).calls.probed >= s.calls.asked && PcOf(Run(cfg, s, run).locks, Supervisor).Probing?
  {
    ReachableInv(cfg, s);
    hide Inv, Run, CanRun, Helped;
    var run: seq<Step> := [];
    NoSteps(cfg, s, Involved(s));
    if s.locks.reconnectMu.Some? {
      run := ReconnectMuReleasable(cfg, s, s.locks.reconnectMu.value);
    }
    var s1 := Run(cfg, s, run);
    var rest := Begins(cfg, s1, Involved(s));
    Join(cfg, s, run, rest);
    HelpedJoin(run, rest, Involved(s));
    assert CanRun(cfg, s, run + rest);
  }
}

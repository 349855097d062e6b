/**
 * Cancel as the code runs it: a status read, a DELETE that does not look again, an os.Remove, and
 * a worker that may be anywhere by then. Exactly which payloads and declared sizes make it unsafe.
 */
module Cancels {
  import opened Basics
  import opened Items
  import opened Remote
  import opened Lane
  import opened Completion
  import opened CancelRace

  /** The row may be cancelled by its status, and a worker, if any, has not marked it yet. */
  predicate Cancellable(l: Lane) {
    && l.row.Some? && (l.row.value.status == Queued || l.row.value.status == Errored)
    && (l.phase.Idle? || l.phase.Loaded? || l.phase.Located?)
  }

  function Deleted(l: Lane): Lane { l.(row := None) }

  /**
   * The status read has passed at l. Some run puts the DELETE and the unlink anywhere after it, with
   * the worker going on before, between and after, and records a wrong file as finished.
   */
  ghost predicate CancelCorrupts(payload: Bytes, l: Lane, again: bool) {
    exists m, n ::
      && Follows(payload, l, m, again) && m.row.Some?
      && Follows(payload, Deleted(m), n, again) && Corrupts(payload, n, again)
  }

  /** One byte over and over. */
  predicate Uniform(payload: Bytes) { forall i | 0 <= i < |payload| :: payload[i] == payload[0] }

  /** A declared size under which a wrong file can pass for this payload. */
  predicate Unsafe(payload: Bytes, size: int) {
    |payload| >= 2 && (size < |payload| || (size == |payload| && !Uniform(payload)))
  }

  lemma UniformRepeats(payload: Bytes, a: nat)
    requires Uniform(payload) && a <= |payload|
    ensures Repeats(payload, a)
  {
    var s, t := payload[a..], payload[..|payload| - a];
    forall i | 0 <= i < |s| ensures s[i] == t[i] {
      assert s[i] == payload[a + i] && t[i] == payload[i];
    }
  }

  lemma {:induction false} RepeatsUniform(payload: Bytes, n: nat)
    requires |payload| > 0 && Repeats(payload, 1) && n < |payload|
    ensures payload[n] == payload[0]
  {
    if n > 0 {
      RepeatsUniform(payload, n - 1);
      assert payload[1..][n - 1] == payload[..|payload| - 1][n - 1];
    }
  }

  // ---- unsafe sizes ----

  /** Some offset strands a worker that declares this size. */
  lemma UnsafeStrands(payload: Bytes, size: int) returns (at: nat)
    requires Unsafe(payload, size)
    ensures Stranded(payload, size, at, 2, false)
  {
    at := if 0 < size < |payload| then |payload| - size else 1;
    if size == |payload| && Repeats(payload, 1) {
      forall i | 0 <= i < |payload| ensures payload[i] == payload[0] {
        RepeatsUniform(payload, i);
      }
    }
  }

  /** The run up to where a worker has computed the final path and measured the partial, for either size. */
  lemma ReachesLocated(payload: Bytes, l: Lane, afresh: bool) returns (m: Lane)
    requires Sound(payload, l) && Cancellable(l) && (l.phase.Idle? ==> afresh)
    ensures Reaches(payload, l, m) && m.phase.Located? && m.row == l.row
    ensures m.phase.size == if afresh then l.row.value.size else l.phase.size
  {
    Stays(payload, l);
    m := l;
    if afresh && !m.phase.Idle? {
      Then(payload, l, m, GiveUp);
      m := Next(m, GiveUp);
    }
    if afresh {
      Then(payload, l, m, Begin);
      m := Next(m, Begin);
    }
    if m.phase.Loaded? {
      Then(payload, l, m, Locate(m.home, None));
      m := Next(m, Locate(m.home, None));
    }
  }

  /** The server sends the whole file from the start, and the connection breaks at `at`. */
  lemma CutAt(payload: Bytes, l: Lane, located: Lane, at: nat) returns (m: Lane)
    requires Reaches(payload, l, located) && located.phase.Located? && located.row.Some? && 0 < at < |payload|
    ensures Reaches(payload, l, m) && m.row.Some? && m.phase == Failing(located.phase.size, at, 2)
  {
    hide Reaches;
    m := located;
    Then(payload, l, m, StartRow(3, true));
    m := Next(m, StartRow(3, true));
    Then(payload, l, m, Ask);
    m := Next(m, Ask);
    var answer := Reply(200, "", payload[..at], false);
    var heard := if m.phase.startAt == 0 then Hear(answer) else Sweep(answer, true);
    Then(payload, l, m, heard);
    m := Next(m, heard);
    hide Honest;
    Then(payload, l, m, Open(true));
    m := Next(m, Open(true));
    Then(payload, l, m, Chunk(at, false));
    m := Next(m, Chunk(at, false));
    assert payload[..at][at..] == [];
    Then(payload, l, m, BodyEnds(false));
    m := Next(m, BodyEnds(false));
  }

  /** Cut there, its row deleted and its partial unlinked, the worker goes on with a stale offset. */
  lemma CutCorrupts(payload: Bytes, l: Lane, located: Lane, again: bool)
    requires Sound(payload, l) && Reaches(payload, l, located) && located.phase.Located? && located.row.Some?
    requires Unsafe(payload, located.phase.size)
    ensures CancelCorrupts(payload, l, again)
  {
    var at := UnsafeStrands(payload, located.phase.size);
    var m := CutAt(payload, l, located, at);
    ReachSound(payload, l, m);
    ReachesFollows(payload, l, m, again);
    var n := Deleted(m);
    assert Sound(payload, n) && Exposed(payload, n, again);
    ExposedCorrupts(payload, n, again);
    Stays(payload, n);
    ReachesFollows(payload, n, n, again);
    hide Follows, Corrupts, Reaches;
    assert Follows(payload, l, m, again) && m.row.Some? && Follows(payload, Deleted(m), n, again);
  }

  // ---- safe sizes ----

  /** No size that the row or the worker goes by is unsafe. */
  predicate Tame(payload: Bytes, l: Lane) {
    && (l.row.Some? ==> !Unsafe(payload, l.row.value.size))
    && (!l.phase.Idle? ==> !Unsafe(payload, SizeOf(l.phase)))
  }

  function SizeOf(p: Phase): int
    requires !p.Idle?
  {
    p.size
  }

  /** What may lie on disk: no more than the payload, and its very bytes where they are all alike. */
  predicate Fits(payload: Bytes, w: Bytes) { |w| <= |payload| && (Uniform(payload) ==> w <= payload) }

  /**
   * What is left of soundness when rows and partials may go at any time: a file that passes the
   * check of a safe size has the payload's length, and then its bytes.
   */
  ghost predicate Coarse(payload: Bytes, l: Lane) {
    && Tame(payload, l)
    && (l.final.Some? ==> l.final.value == payload)
    && (IsReady(l) ==> l.phase.Idle? && l.final == Some(payload))
    && (l.row.Some? && l.row.value.localPath.Some? ==> IsReady(l))
    && (l.partial.Some? ==> Fits(payload, l.partial.value) && Holds(payload, l.phase, l.partial.value))
    && match l.phase
       case Accepted(_, at, _, body, clean) => Continues(payload, at, body, clean) && (at > 0 ==> at < |payload|)
       case Streaming(_, at, _, rest, clean) => Continues(payload, at, rest, clean)
       case Measured(size, finalSize) => size > 0 ==> size == finalSize
       case Moved(size, finalSize) =>
         l.final == Some(payload) && finalSize == |payload| && (size > 0 ==> size == finalSize)
       case _ => true
  }

  /** How a partial that is there relates to the worker's place. */
  predicate Holds(payload: Bytes, p: Phase, w: Bytes) {
    match p
    case Located(_, at) => at == |w|
    case Poised(_, at, _) => at == |w|
    case Asked(_, at, _) => at == |w|
    case Accepted(_, at, _, _, _) => at == 0 || at == |w|
    case Streaming(_, at, _, _, _) => |w| <= at && (|payload| < 2 ==> |w| == at)
    case Drained(_, _, _) => |payload| < 2 ==> |w| == |payload|
    case Fetched(_) => |payload| < 2 ==> |w| == |payload|
    case Measured(_, finalSize) => w == payload && finalSize == |payload|
    case _ => true
  }

  lemma SoundIsCoarse(payload: Bytes, l: Lane)
    requires Sound(payload, l) && Tame(payload, l)
    ensures Coarse(payload, l)
  {
    hide Uniform;
  }

  lemma CoarseIsRight(payload: Bytes, l: Lane)
    requires Coarse(payload, l)
    ensures !Wrong(payload, l)
  {
  }

  /** Where all bytes are alike any of them continue a prefix. */
  lemma FitsMore(payload: Bytes, w: Bytes, at: nat, rest: Bytes, clean: bool, n: nat)
    requires Fits(payload, w) && Continues(payload, at, rest, clean) && n <= |rest| && |w| <= at
    ensures Fits(payload, w + rest[..n])
  {
    var more := w + rest[..n];
    if Uniform(payload) {
      forall i | 0 <= i < |more| ensures more[i] == payload[i] {
        if i >= |w| {
          assert more[i] == rest[i - |w|] == payload[at..][i - |w|] == payload[at + i - |w|];
        }
      }
    }
  }

  lemma CoarseHeard(payload: Bytes, l: Lane, r: Response)
    requires l.phase.Asked? && Coarse(payload, l)
    requires r.Reply? && r.code == 200 ==> l.phase.startAt == 0 && Continues(payload, 0, r.body, r.clean)
    requires r.Reply? && r.code == 206 ==>
      l.phase.startAt < |payload| && Continues(payload, l.phase.startAt, r.body, r.clean)
    requires r.Reply? && r.code == 416 ==> |payload| <= l.phase.startAt
    ensures Coarse(payload, Heard(l, r))
  {
    hide ContentRangeTotal, Continues, Uniform, Unsafe;
  }

  lemma CoarseHears(payload: Bytes, l: Lane, ev: Event)
    requires Coarse(payload, l) && Lawful(payload, l, ev) && ev.Hear?
    ensures Coarse(payload, Next(l, ev))
  {
    hide Coarse, Heard, Honest, Continues;
    if ev.r.Reply? {
      HonestMeans(payload, l.phase.startAt, ev.r);
    }
    CoarseHeard(payload, l, ev.r);
  }

  lemma CoarseSweeps(payload: Bytes, l: Lane, ev: Event)
    requires Coarse(payload, l) && Lawful(payload, l, ev) && ev.Sweep?
    ensures Coarse(payload, Next(l, ev))
  {
    HonestMeans(payload, l.phase.startAt, ev.r);
    hide Honest, Continues, Uniform, Unsafe, Heard;
  }

  lemma CoarseReceives(payload: Bytes, l: Lane, ev: Event)
    requires Coarse(payload, l) && Lawful(payload, l, ev) && (ev.Chunk? || ev.ShortWrite?)
    ensures Coarse(payload, Next(l, ev))
  {
    var Streaming(size, at, left, rest, clean) := l.phase;
    var n := if ev.Chunk? then ev.n else ev.kept;
    RestContinues(payload, at, rest, clean, n);
    if l.partial.Some? {
      FitsMore(payload, l.partial.value, at, rest, clean, n);
    }
    hide Honest, Continues, Unsafe, Fits, Heard;
  }

  lemma CoarseEnds(payload: Bytes, l: Lane, ev: Event)
    requires Coarse(payload, l) && Lawful(payload, l, ev) && (ev.BodyEnds? || ev.Interrupt?)
    ensures Coarse(payload, Next(l, ev))
  {
    var Streaming(size, at, left, rest, clean) := l.phase;
    RestFits(payload, at, rest, clean);
    hide Honest, Continues, Unsafe, Fits, Heard;
  }

  /** The size check lets nothing but the payload through. */
  lemma CoarseMeasures(payload: Bytes, l: Lane, ev: Event)
    requires Coarse(payload, l) && Lawful(payload, l, ev) && ev.Measure?
    ensures Coarse(payload, Next(l, ev))
  {
    if l.partial.Some? && |l.partial.value| == |payload| && Uniform(payload) {
      WholePrefix(payload, l.partial.value);
    }
    assert |payload| < 2 ==> Uniform(payload);
    hide Honest, Heard, Uniform;
  }

  lemma CoarseOutside(payload: Bytes, l: Lane, ev: Event)
    requires Coarse(payload, l) && Lawful(payload, l, ev) && (Unasked(ev) || |payload| < 2) && Outside(ev)
    ensures Coarse(payload, Next(l, ev))
  {
    hide Honest, Continues, Uniform, Heard;
  }

  lemma CoarseRest(payload: Bytes, l: Lane, ev: Event)
    requires Coarse(payload, l) && Lawful(payload, l, ev) && !Outside(ev)
    requires !ev.Hear? && !ev.Sweep? && !ev.Chunk? && !ev.ShortWrite? && !ev.BodyEnds? && !ev.Interrupt? && !ev.Measure?
    ensures Coarse(payload, Next(l, ev))
  {
    hide Honest, Continues, Uniform, Heard;
  }

  lemma {:induction false} CoarseStep(payload: Bytes, l: Lane, ev: Event)
    requires Coarse(payload, l) && Lawful(payload, l, ev) && (Unasked(ev) || |payload| < 2)
    ensures Coarse(payload, Next(l, ev))
  {
    hide Coarse, Next, Enabled, Honest, Outside;
    if Outside(ev) {
      CoarseOutside(payload, l, ev);
    } else if ev.Hear? {
      CoarseHears(payload, l, ev);
    } else if ev.Sweep? {
      CoarseSweeps(payload, l, ev);
    } else if ev.Chunk? || ev.ShortWrite? {
      CoarseReceives(payload, l, ev);
    } else if ev.BodyEnds? || ev.Interrupt? {
      CoarseEnds(payload, l, ev);
    } else if ev.Measure? {
      CoarseMeasures(payload, l, ev);
    } else {
      CoarseRest(payload, l, ev);
    }
  }

  lemma CoarseWithout(payload: Bytes, l: Lane)
    requires Coarse(payload, l)
    ensures Coarse(payload, Deleted(l)) && Coarse(payload, Unlinked(l))
  {
    hide Unsafe, Fits, Continues;
  }

  // ---- any number of Cancels ----

  /** A step of the item, or what any Cancel that ever passed its status read may still do. */
  datatype Act = Step(ev: Event) | DeleteRow | UnlinkPartial

  ghost predicate LawfulAct(payload: Bytes, l: Lane, a: Act, again: bool) {
    a.Step? ==> Lawful(payload, l, a.ev) && (Unasked(a.ev) || (again && a.ev.Enqueue?))
  }

  function Acted(l: Lane, a: Act): Lane
    requires a.Step? ==> Enabled(l, a.ev)
  {
    match a
    case Step(ev) => Next(l, ev)
    case DeleteRow => Deleted(l)
    case UnlinkPartial => Unlinked(l)
  }

  ghost predicate LawfulActs(payload: Bytes, l: Lane, acts: seq<Act>, again: bool)
    decreases |acts|
  {
    acts == [] || (LawfulAct(payload, l, acts[0], again) && LawfulActs(payload, Acted(l, acts[0]), acts[1..], again))
  }

  ghost function ActAll(payload: Bytes, l: Lane, acts: seq<Act>, again: bool): Lane
    requires LawfulActs(payload, l, acts, again)
    decreases |acts|
  {
    if acts == [] then l else ActAll(payload, Acted(l, acts[0]), acts[1..], again)
  }

  lemma {:induction false} ActsKeepCoarse(payload: Bytes, l: Lane, acts: seq<Act>, again: bool)
    requires Coarse(payload, l) && LawfulActs(payload, l, acts, again) && (again ==> |payload| < 2)
    ensures Coarse(payload, ActAll(payload, l, acts, again))
    decreases |acts|
  {
    hide Coarse, Honest, Next, Enabled;
    if acts != [] {
      if acts[0].Step? {
        CoarseStep(payload, l, acts[0].ev);
      } else {
        CoarseWithout(payload, l);
      }
      ActsKeepCoarse(payload, Acted(l, acts[0]), acts[1..], again);
    }
  }

  /** With safe sizes any number of Cancels, their DELETEs and unlinks landing anywhere, do no harm. */
  lemma {:induction false} TameIsSafe(payload: Bytes, l: Lane, acts: seq<Act>)
    requires Sound(payload, l) && Tame(payload, l) && LawfulActs(payload, l, acts, false)
    ensures !Wrong(payload, ActAll(payload, l, acts, false))
  {
    SoundIsCoarse(payload, l);
    ActsKeepCoarse(payload, l, acts, false);
    hide Coarse, Sound, Tame, Wrong;
    CoarseIsRight(payload, ActAll(payload, l, acts, false));
  }

  /** With a payload of at most one byte they do none however often the item is queued again. */
  lemma {:induction false} ShortIsSafe(payload: Bytes, l: Lane, acts: seq<Act>)
    requires Sound(payload, l) && |payload| < 2 && LawfulActs(payload, l, acts, true)
    ensures !Wrong(payload, ActAll(payload, l, acts, true))
  {
    SoundIsCoarse(payload, l);
    ActsKeepCoarse(payload, l, acts, true);
    hide Coarse, Sound, Tame, Wrong;
    CoarseIsRight(payload, ActAll(payload, l, acts, true));
  }

  // ---- one Cancel among them ----

  lemma {:induction false} PlaysCoarse(payload: Bytes, l: Lane, evs: seq<Event>, again: bool)
    requires Coarse(payload, l) && LawfulEvents(payload, l, evs) && Allowed(evs, again) && (again ==> |payload| < 2)
    ensures Coarse(payload, Play(payload, l, evs))
    decreases |evs|
  {
    hide Coarse, Enabled, Honest, Next, Allowed, Unasked;
    if evs != [] {
      AllowedTail(evs, again);
      CoarseStep(payload, l, evs[0]);
      PlaysCoarse(payload, Next(l, evs[0]), evs[1..], again);
    }
  }

  lemma FollowsCoarse(payload: Bytes, l: Lane, m: Lane, again: bool)
    requires Coarse(payload, l) && Follows(payload, l, m, again) && (again ==> |payload| < 2)
    ensures Coarse(payload, m)
  {
    var evs :| LawfulEvents(payload, l, evs) && Allowed(evs, again) && Play(payload, l, evs) == m;
    PlaysCoarse(payload, l, evs, again);
  }

  lemma {:induction false} CoarseIsSafe(payload: Bytes, l: Lane, again: bool)
    requires Coarse(payload, l) && (again ==> |payload| < 2)
    ensures !CancelCorrupts(payload, l, again)
  {
    hide Coarse, Follows, Wrong;
    forall m, n, end | Follows(payload, l, m, again) && Follows(payload, Deleted(m), n, again)
                       && Follows(payload, Unlinked(n), end, again)
      ensures !Wrong(payload, end)
    {
      FollowsCoarse(payload, l, m, again);
      CoarseWithout(payload, m);
      FollowsCoarse(payload, Deleted(m), n, again);
      CoarseWithout(payload, n);
      FollowsCoarse(payload, Unlinked(n), end, again);
      CoarseIsRight(payload, end);
    }
  }

  /**
   * Cancel of a queued or failed item, from its status read on: some run records a wrong file
   * exactly when a size that the row or a worker goes by is below that of a payload of two bytes
   * or more (a missing size included), or is the true one and the payload is not one byte over
   * and over. No worker need have measured anything, or even be there, when the status is read.
   */
  lemma {:induction false} CancelCorruptsIff(payload: Bytes, l: Lane)
    requires Sound(payload, l) && Cancellable(l)
    ensures CancelCorrupts(payload, l, false)
       <==> Unsafe(payload, l.row.value.size) || (!l.phase.Idle? && Unsafe(payload, SizeOf(l.phase)))
  {
    hide Sound, CancelCorrupts, Reaches, Unsafe, Coarse;
    if Unsafe(payload, l.row.value.size) {
      var m := ReachesLocated(payload, l, true);
      CutCorrupts(payload, l, m, false);
    } else if !l.phase.Idle? && Unsafe(payload, SizeOf(l.phase)) {
      var m := ReachesLocated(payload, l, false);
      CutCorrupts(payload, l, m, false);
    } else {
      SoundIsCoarse(payload, l);
      CoarseIsSafe(payload, l, false);
    }
  }

  /** Without a declared size every payload of two bytes or more is at risk. */
  lemma {:induction false} UndeclaredCorruptsIff(payload: Bytes, l: Lane)
    requires Sound(payload, l) && Cancellable(l) && l.row.value.size <= 0 && (!l.phase.Idle? ==> SizeOf(l.phase) <= 0)
    ensures CancelCorrupts(payload, l, false) <==> |payload| >= 2
  {
    CancelCorruptsIff(payload, l);
    hide Sound, CancelCorrupts, Uniform;
  }

  // ---- with Queue allowed ----

  lemma CorruptsLater(payload: Bytes, l: Lane, later: Lane)
    requires Follows(payload, l, later, true) && CancelCorrupts(payload, later, true)
    ensures CancelCorrupts(payload, l, true)
  {
    hide Follows, Corrupts;
    var m, n :| Follows(payload, later, m, true) && m.row.Some? && Follows(payload, Deleted(m), n, true)
      && Corrupts(payload, n, true);
    FollowsJoin(payload, l, later, m, true);
  }

  /** Queue rewrites the declared size, so one more Queue makes the Cancel unsafe. */
  lemma RequeuedCorrupts(payload: Bytes, l: Lane)
    requires Sound(payload, l) && Cancellable(l) && |payload| >= 2
    ensures CancelCorrupts(payload, l, true)
  {
    hide Follows, Reaches, CancelCorrupts;
    Stays(payload, l);
    var m := l;
    if !m.phase.Idle? {
      Then(payload, l, m, GiveUp);
      m := Next(m, GiveUp);
    }
    ReachSound(payload, l, m);
    ReachesFollows(payload, l, m, true);
    var item := NewRow("", "", [], [], 0);
    var queued := Next(m, Enqueue(item));
    EnqueueFollows(payload, m, item);
    FollowsJoin(payload, l, m, queued, true);
    StepKeepsSound(payload, m, Enqueue(item));
    var located := ReachesLocated(payload, queued, true);
    CutCorrupts(payload, queued, located, true);
    CorruptsLater(payload, l, queued);
  }

  /** When the item may be queued again at any time, only a payload of less than two bytes is safe. */
  lemma {:induction false} CancelCorruptsRequeuedIff(payload: Bytes, l: Lane)
    requires Sound(payload, l) && Cancellable(l)
    ensures CancelCorrupts(payload, l, true) <==> |payload| >= 2
  {
    if |payload| >= 2 {
      RequeuedCorrupts(payload, l);
    } else {
      SoundIsCoarse(payload, l);
      CoarseIsSafe(payload, l, true);
    }
  }

  /** The unlinks that the step machine allows are among the harmless ones. */
  lemma NothingToLoseIsUnexposed(payload: Bytes, l: Lane, again: bool)
    requires NothingToLose(l.phase)
    ensures !Exposed(payload, l, again)
  {
  }
}

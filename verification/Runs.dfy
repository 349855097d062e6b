/**
 * Many items at once: any interleaving of workers, requests, crashes and restarts over one
 * table and one directory tree.
 */
module Runs {
  import opened Basics
  import opened Runes
  import opened Items
  import opened Remote
  import opened Lane

  /**
   * Where each item's files live: one partial, and as many final paths as Download may compute,
   * since it does so afresh from the metadata of the day.
   */
  datatype Names = Names(part: int -> Str, place: (int, nat) -> Str)

  /** No two items share a file, and no partial is anyone's finished file. */
  ghost predicate Apart(names: Names) {
    && (forall i, j, v :: names.part(i) != names.place(j, v))
    && (forall i, j :: i != j ==> names.part(i) != names.part(j))
    && (forall i, j, u, v :: i != j ==> names.place(i, u) != names.place(j, v))
  }

  ghost predicate Owns(names: Names, id: int, path: Str) { exists v :: names.place(id, v) == path }

  /** The table, the files, the final path each item was last given, and the workers inside Download. */
  datatype System = System(rows: map<int, Row>, files: map<Str, Bytes>, homes: map<int, Str>, phases: map<int, Phase>)

  datatype Action =
    | One(id: int, ev: Event)
    | CrashAll                 // the process dies
    | ResetAll                 // restart or reload: every 'downloading' row back to 'queued'

  function Get<K, V>(m: map<K, V>, k: K): Option<V> {
    if k in m then Some(m[k]) else None
  }

  function Set<K, V>(m: map<K, V>, k: K, v: Option<V>): map<K, V> {
    if v.Some? then m[k := v.value] else m - {k}
  }

  function LaneOf(names: Names, s: System, id: int): Lane {
    var home := if id in s.homes then s.homes[id] else names.place(id, 0);
    Lane(home, Get(s.rows, id), Get(s.files, names.part(id)), Get(s.files, home),
         if id in s.phases then s.phases[id] else Idle)
  }

  function Put(names: Names, s: System, id: int, l: Lane): System {
    System(Set(s.rows, id, l.row),
           Set(Set(s.files, names.part(id), l.partial), l.home, l.final),
           s.homes[id := l.home],
           s.phases[id := l.phase])
  }

  ghost predicate Homed(names: Names, s: System) { forall id | id in s.homes :: Owns(names, id, s.homes[id]) }

  lemma HomeIsOwned(names: Names, s: System, id: int)
    requires Homed(names, s)
    ensures Owns(names, id, LaneOf(names, s, id).home)
  {
  }

  lemma OwnersApart(names: Names, i: int, j: int, p: Str, q: Str)
    requires Apart(names) && Owns(names, i, p) && Owns(names, j, q)
    ensures i != j ==> p != q
    ensures names.part(i) != p && names.part(i) != q && names.part(j) != p
    ensures i != j ==> names.part(i) != names.part(j)
  {
    var u :| names.place(i, u) == p;
    var v :| names.place(j, v) == q;
  }

  /** Writing one item's row and files, at any final path of its own, leaves every other item as it was. */
  lemma PutThenLane(names: Names, s: System, id: int, l: Lane, other: int)
    requires Apart(names) && Homed(names, s) && Owns(names, id, l.home)
    ensures LaneOf(names, Put(names, s, id, l), other) == if other == id then l else LaneOf(names, s, other)
  {
    HomeIsOwned(names, s, other);
    OwnersApart(names, id, other, l.home, LaneOf(names, s, other).home);
    hide Owns, Homed, Apart;
  }

  /** A download computes some final path of its item, and finds there what the disk holds. */
  ghost predicate LawfulAction(names: Names, payload: int -> Bytes, s: System, a: Action) {
    match a
    case One(id, ev) =>
      && Possible(payload(id), LaneOf(names, s, id), ev)
      && (ev.Locate? ==> Owns(names, id, ev.home) && ev.there == Get(s.files, ev.home))
    case CrashAll => true
    case ResetAll => forall id | id in s.phases :: s.phases[id].Idle?
  }

  function Act(names: Names, s: System, a: Action): System
    requires a.One? ==> Enabled(LaneOf(names, s, a.id), a.ev)
  {
    match a
    case One(id, ev) => Put(names, s, id, Next(LaneOf(names, s, id), ev))
    case CrashAll => s.(phases := map[])
    case ResetAll => s.(rows := map id | id in s.rows :: ResetStale(s.rows[id]))
  }

  ghost predicate LawfulRun(names: Names, payload: int -> Bytes, s: System, run: seq<Action>)
    decreases |run|
  {
    run == [] || (LawfulAction(names, payload, s, run[0]) && LawfulRun(names, payload, Act(names, s, run[0]), run[1..]))
  }

  ghost function After(names: Names, payload: int -> Bytes, s: System, run: seq<Action>): System
    requires LawfulRun(names, payload, s, run)
    decreases |run|
  {
    if run == [] then s else After(names, payload, Act(names, s, run[0]), run[1..])
  }

  /** Every path an item was ever finished at holds its payload, or nothing any more. */
  ghost predicate AllWhole(names: Names, payload: int -> Bytes, s: System) {
    forall id, path | Owns(names, id, path) && path in s.files :: s.files[path] == payload(id)
  }

  ghost predicate AllSound(names: Names, payload: int -> Bytes, s: System) {
    && Homed(names, s)
    && AllWhole(names, payload, s)
    && forall id :: Sound(payload(id), LaneOf(names, s, id))
  }

  /** Writing a sound item back keeps every finished file whole. */
  lemma PutKeepsWhole(names: Names, payload: int -> Bytes, s: System, k: int, l: Lane)
    requires Apart(names) && AllWhole(names, payload, s) && Owns(names, k, l.home) && Sound(payload(k), l)
    ensures AllWhole(names, payload, Put(names, s, k, l))
  {
    assert l.final.Some? ==> l.final.value == payload(k);
    hide Sound;
    var s' := Put(names, s, k, l);
    forall id, path | Owns(names, id, path) && path in s'.files ensures s'.files[path] == payload(id) {
      OwnersApart(names, k, id, l.home, path);
      hide Owns, Apart;
    }
  }

  /** Only the computation of the final path moves an item's home. */
  lemma HomeAfter(l: Lane, ev: Event)
    requires Enabled(l, ev)
    ensures Next(l, ev).home == if ev.Locate? then ev.home else l.home
  {
    hide Flushed, OnRow, ContentRangeTotal;
  }

  /** What a download finds at its final path is its payload, or nothing. */
  lemma StepIsLawful(names: Names, payload: int -> Bytes, s: System, k: int, ev: Event)
    requires AllSound(names, payload, s) && LawfulAction(names, payload, s, One(k, ev))
    ensures Lawful(payload(k), LaneOf(names, s, k), ev)
    ensures Owns(names, k, Next(LaneOf(names, s, k), ev).home)
  {
    hide Owns, Sound, Honest, Enabled, Next;
    HomeIsOwned(names, s, k);
    hide LaneOf;
    HomeAfter(LaneOf(names, s, k), ev);
  }

  lemma StepKeepsAll(names: Names, payload: int -> Bytes, s: System, k: int, ev: Event)
    requires Apart(names) && AllSound(names, payload, s) && LawfulAction(names, payload, s, One(k, ev))
    ensures AllSound(names, payload, Act(names, s, One(k, ev)))
  {
    StepIsLawful(names, payload, s, k, ev);
    hide Apart, Owns, Sound, Next, Lawful, AllWhole, LawfulAction;
    var l := Next(LaneOf(names, s, k), ev);
    assert Sound(payload(k), l) by {
      assert Sound(payload(k), LaneOf(names, s, k));
      StepKeepsSound(payload(k), LaneOf(names, s, k), ev);
    }
    PutKeepsWhole(names, payload, s, k, l);
    forall id ensures Sound(payload(id), LaneOf(names, Act(names, s, One(k, ev)), id)) {
      PutThenLane(names, s, k, l, id);
      assert Sound(payload(id), LaneOf(names, s, id));
    }
  }

  lemma CrashKeepsAll(names: Names, payload: int -> Bytes, s: System)
    requires AllSound(names, payload, s)
    ensures AllSound(names, payload, Act(names, s, CrashAll))
  {
    forall id ensures Sound(payload(id), LaneOf(names, Act(names, s, CrashAll), id)) {
      var l := LaneOf(names, s, id);
      assert Sound(payload(id), l);
      OutsideKeepsSound(payload(id), l, Crash);
      assert LaneOf(names, Act(names, s, CrashAll), id) == Next(l, Crash);
    }
  }

  lemma ResetKeepsAll(names: Names, payload: int -> Bytes, s: System)
    requires AllSound(names, payload, s) && LawfulAction(names, payload, s, ResetAll)
    ensures AllSound(names, payload, Act(names, s, ResetAll))
  {
    forall id ensures Sound(payload(id), LaneOf(names, Act(names, s, ResetAll), id)) {
      var l := LaneOf(names, s, id);
      assert Sound(payload(id), l);
      OutsideKeepsSound(payload(id), l, Reset);
      assert LaneOf(names, Act(names, s, ResetAll), id) == Next(l, Reset);
    }
  }

  lemma ActionKeepsSound(names: Names, payload: int -> Bytes, s: System, a: Action)
    requires Apart(names) && AllSound(names, payload, s) && LawfulAction(names, payload, s, a)
    ensures AllSound(names, payload, Act(names, s, a))
  {
    match a
    case One(k, ev) => StepKeepsAll(names, payload, s, k, ev);
    case CrashAll => CrashKeepsAll(names, payload, s);
    case ResetAll => ResetKeepsAll(names, payload, s);
  }

  /** Soundness holds at the end of every run, hence after every prefix of one. */
  lemma {:induction false} RunKeepsSound(names: Names, payload: int -> Bytes, s: System, run: seq<Action>)
    requires Apart(names) && AllSound(names, payload, s) && LawfulRun(names, payload, s, run)
    ensures AllSound(names, payload, After(names, payload, s, run))
    decreases |run|
  {
    if run != [] {
      ActionKeepsSound(names, payload, s, run[0]);
      RunKeepsSound(names, payload, Act(names, s, run[0]), run[1..]);
    }
  }

  const FRESH := System(map[], map[], map[], map[])

  /**
   * Crash safety. After any run from an empty mirror, every path that any download of an item
   * may have chosen is absent or holds the complete payload; a 'ready' row points at such a
   * path, the file is there, and bytes_done is its length.
   */
  lemma CrashSafety(names: Names, payload: int -> Bytes, run: seq<Action>)
    requires Apart(names) && LawfulRun(names, payload, FRESH, run)
    ensures var s := After(names, payload, FRESH, run);
      && (forall id, v | names.place(id, v) in s.files :: s.files[names.place(id, v)] == payload(id))
      && (forall id | id in s.rows && s.rows[id].status == Ready ::
            && s.rows[id].localPath.Some? && Owns(names, id, s.rows[id].localPath.value)
            && s.rows[id].localPath.value in s.files
            && s.rows[id].done == |s.files[s.rows[id].localPath.value]|)
  {
    RunKeepsSound(names, payload, FRESH, run);
    var s := After(names, payload, FRESH, run);
    forall id, v | names.place(id, v) in s.files ensures s.files[names.place(id, v)] == payload(id) {
      assert Owns(names, id, names.place(id, v));
    }
    forall id | id in s.rows && s.rows[id].status == Ready
      ensures s.rows[id].localPath.Some? && Owns(names, id, s.rows[id].localPath.value)
      ensures s.rows[id].localPath.value in s.files
      ensures s.rows[id].done == |s.files[s.rows[id].localPath.value]|
    {
      assert Sound(payload(id), LaneOf(names, s, id));
      HomeIsOwned(names, s, id);
    }
  }

  /**
   * Resume correctness. Whenever a worker is about to ask for bytes, its offset is the length
   * of the partial on disk and the partial is a prefix of the payload.
   */
  lemma ResumeOffset(names: Names, payload: int -> Bytes, run: seq<Action>, id: int)
    requires Apart(names) && LawfulRun(names, payload, FRESH, run)
    requires var p := LaneOf(names, After(names, payload, FRESH, run), id).phase; p.Poised? || p.Asked?
    ensures var l := LaneOf(names, After(names, payload, FRESH, run), id);
      && l.phase.startAt == Offset(l.partial)
      && (l.partial.Some? ==> l.partial.value <= payload(id))
  {
    RunKeepsSound(names, payload, FRESH, run);
    assert Sound(payload(id), LaneOf(names, After(names, payload, FRESH, run), id));
  }
}

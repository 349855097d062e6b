/** The storage manager over a live table and directory tree. */
module Manager {
  import opened Basics
  import opened Runes
  import opened Items
  import opened Paths
  import opened Storage
  import opened Eviction

  /** One line of the sweep's query. */
  datatype Candidate = Candidate(id: nat, localPath: Option<Str>, size: int)

  ghost predicate Unique(rows: Table) {
    forall i, j | i in rows && j in rows && rows[i].source == rows[j].source && rows[i].key == rows[j].key :: i == j
  }

  function CandidateOf(rows: Table, id: nat): Candidate
    requires id in rows
  {
    Candidate(id, rows[id].localPath, rows[id].size)
  }

  // ---- the sweep loop, seen from its specification ----

  /** Usage before the k-th of these rows was evicted. */
  ghost function UsageBefore(rows: Table, chosen: seq<nat>, k: nat): int
    requires k <= |chosen| && forall id | id in chosen :: id in rows
  {
    assert forall id | id in chosen[..k] :: id in chosen;
    Used(rows) - Total(rows, chosen[..k])
  }

  /** After i candidates: chosen is what the guard let through, each taken while usage was above the target. */
  ghost predicate Swept(p: Policy, cwd: Str, rows: Table, target: int, i: nat, chosen: seq<nat>)
    requires Rooted(cwd)
  {
    && i <= |Order(rows)|
    && (forall id | id in Order(rows) :: id in rows)
    && (forall id | id in chosen :: id in rows)
    && chosen == Evictable(p, cwd, rows, Order(rows)[..i])
    && (forall k | 0 <= k < |chosen| :: UsageBefore(rows, chosen, k) > target)
  }

  lemma SweptStart(p: Policy, cwd: Str, rows: Table, target: int)
    requires Rooted(cwd)
    ensures Swept(p, cwd, rows, target, 0, [])
  {
    assert OldestFirst(rows, Order(rows));
  }

  lemma SweptSkip(p: Policy, cwd: Str, rows: Table, target: int, i: nat, chosen: seq<nat>)
    requires Rooted(cwd) && Swept(p, cwd, rows, target, i, chosen) && i < |Order(rows)|
    requires Order(rows)[i] in rows && !InRoot(p, cwd, rows[Order(rows)[i]])
    ensures Swept(p, cwd, rows, target, i + 1, chosen)
  {
    EvictableNext(p, cwd, rows, Order(rows), i);
    hide InRoot, Evictable, Order;
    assert chosen + [] == chosen;
  }

  lemma SweptTake(p: Policy, cwd: Str, rows: Table, target: int, i: nat, chosen: seq<nat>)
    requires Rooted(cwd) && Swept(p, cwd, rows, target, i, chosen) && i < |Order(rows)|
    requires Order(rows)[i] in rows && InRoot(p, cwd, rows[Order(rows)[i]])
    requires (forall id | id in chosen :: id in rows) && Used(rows) - Total(rows, chosen) > target
    ensures Swept(p, cwd, rows, target, i + 1, chosen + [Order(rows)[i]])
  {
    EvictableNext(p, cwd, rows, Order(rows), i);
    hide InRoot, Evictable, Order, UsageBefore;
    OneMore(rows, chosen, Order(rows)[i], target);
  }

  lemma OneMore(rows: Table, chosen: seq<nat>, id: nat, target: int)
    requires id in rows && forall x | x in chosen :: x in rows
    requires forall k | 0 <= k < |chosen| :: UsageBefore(rows, chosen, k) > target
    requires Used(rows) - Total(rows, chosen) > target
    ensures var more := chosen + [id];
      (forall x | x in more :: x in rows) && forall k | 0 <= k < |more| :: UsageBefore(rows, more, k) > target
  {
    hide Used, Total;
    var more := chosen + [id];
    forall k | 0 <= k < |more|
      ensures (forall x | x in more :: x in rows) && UsageBefore(rows, more, k) > target
    {
      if k < |chosen| {
        assert more[..k] == chosen[..k];
        assert UsageBefore(rows, chosen, k) > target;
      } else {
        assert more[..k] == chosen;
      }
    }
  }

  lemma ShortestFromUsage(rows: Table, all: seq<nat>, target: int, chosen: seq<nat>)
    requires (forall id | id in all :: id in rows) && (forall id | id in chosen :: id in rows)
    requires chosen <= all && (chosen == all || Used(rows) - Total(rows, chosen) <= target)
    requires forall k | 0 <= k < |chosen| :: UsageBefore(rows, chosen, k) > target
    ensures Shortest(rows, all, Used(rows), target, chosen)
  {
    hide Used, Total;
    forall k | 0 <= k < |chosen|
      ensures Used(rows) - Total(rows, all[..k]) > target
    {
      assert all[..k] == chosen[..k];
      assert UsageBefore(rows, chosen, k) > target;
    }
  }

  /** Stopping at the target, or at the end of the list, leaves exactly the rows a sweep should evict. */
  lemma SweptDone(p: Policy, cwd: Str, rows: Table, i: nat, chosen: seq<nat>)
    requires Rooted(cwd) && EvictionTarget(p, Used(rows)).Some?
    requires Swept(p, cwd, rows, EvictionTarget(p, Used(rows)).value.0, i, chosen)
    requires forall id | id in chosen :: id in rows
    requires i == |Order(rows)| || Used(rows) - Total(rows, chosen) <= EvictionTarget(p, Used(rows)).value.0
    ensures chosen == Chosen(p, cwd, rows)
  {
    hide InRoot, Evictable, Order, Used, Total, Chosen, EvictionTarget, UsageBefore, Shortest;
    var all := Evictable(p, cwd, rows, Order(rows));
    EvictablePrefix(p, cwd, rows, Order(rows), i);
    if i == |Order(rows)| {
      assert Order(rows)[..i] == Order(rows);
    }
    ShortestFromUsage(rows, all, EvictionTarget(p, Used(rows)).value.0, chosen);
    ShortestByStopping(p, cwd, rows, chosen);
  }

  lemma MarkedMore(rows: Table, ids: seq<nat>, id: nat)
    requires id in rows
    ensures id in Marked(rows, ids)
    ensures Marked(rows, ids)[id := MarkEvicted(Marked(rows, ids)[id])] == Marked(rows, ids + [id])
  {
    var a, b := Marked(rows, ids)[id := MarkEvicted(Marked(rows, ids)[id])], Marked(rows, ids + [id]);
    assert forall x :: x in ids + [id] <==> x in ids || x == id;
    assert a.Keys == b.Keys;
  }

  lemma PathsMore(rows: Table, ids: seq<nat>, id: nat)
    requires id in rows && forall x | x in ids :: x in rows
    ensures forall x | x in ids + [id] :: x in rows
    ensures PathsOf(rows, ids + [id]) == PathsOf(rows, ids) + {PathOf(rows[id])}
  {
    assert forall x :: x in ids + [id] <==> x in ids || x == id;
  }

  lemma EntriesMore(rows: Table, ids: seq<nat>, id: nat, reason: Reason)
    requires id in rows && forall x | x in ids :: x in rows
    ensures forall x | x in ids + [id] :: x in rows
    ensures Entries(rows, ids + [id], reason)
         == Entries(rows, ids, reason) + [EvictedItem(id, PathOf(rows[id]), rows[id].size, reason)]
  {
    assert forall x :: x in ids + [id] <==> x in ids || x == id;
  }

  lemma UniqueMarked(rows: Table, ids: seq<nat>)
    requires Unique(rows)
    ensures Unique(Marked(rows, ids))
  {
  }

  lemma NothingYet(rows: Table, reason: Reason)
    ensures Marked(rows, []) == rows && PathsOf(rows, []) == {}
    ensures Entries(rows, [], reason) == [] && Total(rows, []) == 0
  {
  }

  class Manager {
    const policy: Policy
    const cwd: Str
    var rows: Table
    var files: set<Str>

    ghost predicate Valid()
      reads this
    {
      Rooted(cwd) && Unique(rows)
    }

    constructor (policy: Policy, cwd: Str)
      requires Rooted(cwd)
      ensures Valid() && this.policy == policy && this.cwd == cwd && rows == map[] && files == {}
    {
      this.policy := policy;
      this.cwd := cwd;
      rows := map[];
      files := {};
    }

    /** SELECT SUM(size_bytes) over the ready rows. */
    method UsedBytes() returns (used: int)
      ensures used == Used(rows)
    {
      used := 0;
      var left := set id | id in rows && rows[id].status.Ready?;
      assert left == ReadyIds(rows);
      while left != {}
        invariant left <= rows.Keys && used + Sum(rows, left) == Used(rows)
        decreases |left|
      {
        var id :| id in left;
        SumTake(rows, left, id);
        used := used + rows[id].size;
        left := left - {id};
      }
    }

    /** The ready rows, oldest first. */
    method QueryReady() returns (candidates: seq<Candidate>)
      ensures |candidates| == |Order(rows)|
      ensures forall i | 0 <= i < |candidates| ::
        Order(rows)[i] in rows && candidates[i] == CandidateOf(rows, Order(rows)[i])
    {
      candidates := [];
      ghost var order: seq<nat> := [];
      var left := set id | id in rows && rows[id].status.Ready?;
      assert left == ReadyIds(rows);
      while left != {}
        invariant left <= ReadyIds(rows)
        invariant forall id :: id in order <==> id in ReadyIds(rows) - left
        invariant Sorted(rows, order)
        invariant forall id, x | id in order && x in left :: id in rows && x in rows && Before(rows, id, x)
        invariant |candidates| == |order|
        invariant forall i | 0 <= i < |order| :: order[i] in rows && candidates[i] == CandidateOf(rows, order[i])
        decreases |left|
      {
        var first := FirstExists(rows, left);
        var id :| id in left && forall x | x in left && x != id :: Before(rows, id, x);
        candidates := candidates + [CandidateOf(rows, id)];
        order, left := order + [id], left - {id};
      }
      assert OldestFirst(rows, order);
      ListedUnique(rows, ReadyIds(rows), order, Order(rows));
    }

    /** EvictNow. */
    method EvictNow(dryRun: bool) returns (report: Report)
      requires Valid()
      modifies this
      ensures Valid()
      ensures report == SweepReport(policy, cwd, old(rows), dryRun)
      ensures dryRun ==> rows == old(rows) && files == old(files)
      ensures !dryRun ==> rows == AfterSweep(policy, cwd, old(rows)) && report.after == Used(rows)
      ensures !dryRun ==> files == FilesAfter(policy, cwd, old(rows), old(files))
      ensures forall f | f in old(files) && f !in files :: IsBelow(cwd, policy.root, f)
    {
      hide Used, Chosen, Order, Evictable, Total, Swept, Unique, Marked, PathsOf, Entries, PathIsUnderRoot, IsBelow;
      ghost var was, wasFiles := rows, files;
      var used := UsedBytes();
      var evictTo := EvictionTarget(policy, used);
      if evictTo.None? {
        Idle(policy, cwd, rows);
        NothingYet(rows, Manual);
        return Report(0, used, used, [], dryRun);
      }
      var target, reason := evictTo.value.0, evictTo.value.1;
      var candidates := QueryReady();
      var evicted: seq<EvictedItem> := [];
      var running := used;
      ghost var chosen: seq<nat> := [];
      ghost var seen: nat := 0;
      SweptStart(policy, cwd, rows, target);
      NothingYet(rows, reason);
      for i := 0 to |candidates|
        invariant seen == i && Swept(policy, cwd, was, target, seen, chosen)
        invariant forall id | id in chosen :: id in was
        invariant evicted == Entries(was, chosen, reason) && running == used - Total(was, chosen)
        invariant rows == if dryRun then was else Marked(was, chosen)
        invariant files == if dryRun then wasFiles else wasFiles - PathsOf(was, chosen)
      {
        if running <= target {
          break;
        }
        var c := candidates[i];
        var path := if c.localPath.Some? then c.localPath.value else [];
        if PathIsUnderRoot(cwd, policy.root, path) != Ok(true) {
          SweptSkip(policy, cwd, was, target, i, chosen);
        } else {
          SweptTake(policy, cwd, was, target, i, chosen);
          MarkedMore(was, chosen, c.id);
          PathsMore(was, chosen, c.id);
          EntriesMore(was, chosen, c.id, reason);
          TotalNext(was, chosen, c.id);
          if !dryRun {
            files := files - {path};
            rows := rows[c.id := MarkEvicted(rows[c.id])];
          }
          evicted := evicted + [EvictedItem(c.id, path, c.size, reason)];
          running := running - c.size;
          chosen := chosen + [c.id];
        }
        seen := seen + 1;
      }
      SweptDone(policy, cwd, was, seen, chosen);
      SweepStaysBelow(policy, cwd, was);
      SweepConserves(policy, cwd, was);
      UniqueMarked(was, chosen);
      report := Report(|candidates|, used, running, evicted, dryRun);
    }

    /** EvictItem: it asks nothing about the row's status. */
    method EvictItem(id: nat) returns (r: Result<EvictedItem, StoreError>)
      requires Valid()
      modifies this
      ensures Valid()
      ensures r == EvictOne(policy, cwd, old(rows), id) && rows == AfterOne(policy, cwd, old(rows), id)
      ensures files == if r.Ok? && r.value.path != [] then old(files) - {r.value.path} else old(files)
      // Which rows it refuses, and what becomes of the others.
      ensures id !in old(rows) ==> r == Err(NotFound) && rows == old(rows)
      ensures id in old(rows) && old(rows)[id].localPath.Some? && old(rows)[id].localPath.value != [] ==>
        if IsBelow(cwd, policy.root, old(rows)[id].localPath.value)
        then r == Ok(EvictedItem(id, old(rows)[id].localPath.value, old(rows)[id].size, Manual))
        else r == Err(OutsideRoot)
      ensures id in old(rows) && (old(rows)[id].localPath == None || old(rows)[id].localPath == Some([])) ==>
        r == Ok(EvictedItem(id, [], old(rows)[id].size, Manual))
      ensures r.Ok? ==> id in old(rows) && rows == old(rows)[id := old(rows)[id].(status := Evicted, localPath := None)]
    {
      GuardIsBelow(policy, cwd, rows, id);
      if id !in rows {
        return Err(NotFound);
      }
      var row := rows[id];
      var path := if row.localPath.Some? then row.localPath.value else [];
      if path != [] {
        var safe := PathIsUnderRoot(cwd, policy.root, path);
        if safe.Err? || !safe.value {
          return Err(OutsideRoot);
        }
        files := files - {path};
      }
      rows := rows[id := MarkEvicted(rows[id])];
      r := Ok(EvictedItem(id, path, row.size, Manual));
    }

    /** RecordReady, for a table that would give the next inserted row the id nextId. */
    method RecordReady(source: string, key: string, title: Str, container: Str, path: Str, size: int, now: int,
                       nextId: nat)
      returns (r: Result<nat, StoreError>)
      requires Valid() && nextId !in rows
      modifies this`rows
      ensures Valid()
      ensures r.Err? <==> source == "" || key == "" || path == []
      ensures r.Err? ==> rows == old(rows)
      ensures r.Ok? ==>
        && r.value in rows && rows == old(rows)[r.value := rows[r.value]]
        && (r.value in old(rows) ==> old(rows)[r.value].source == source && old(rows)[r.value].key == key)
        && (r.value !in old(rows) ==> r.value == nextId)
        && rows[r.value] == Row(source, key, title, container, size, size, Status.Ready, Some(path), now)
    {
      if source == "" || key == "" || path == [] {
        return Err(BadArgument);
      }
      var id := nextId;
      var row := Items.NewRow(source, key, title, container, size);
      if exists i :: i in rows && rows[i].source == source && rows[i].key == key {
        id :| id in rows && rows[id].source == source && rows[id].key == key;
        row := rows[id];
      }
      rows := rows[id := Items.RecordReady(row, title, container, path, size, now)];
      r := Ok(id);
    }
  }

  // ---- one item ----

  /** The path resolves to one or more proper names below what the root resolves to. */
  predicate IsBelow(cwd: Str, root: Str, path: Str)
    requires Rooted(cwd)
  {
    root != [] && path != [] && Abs(cwd, root) < Abs(cwd, path)
  }

  /** A path is below the root exactly if it leads on from there by one or more names, none of them "." or "..". */
  lemma {:induction false} IsBelowIff(cwd: Str, root: Str, path: Str)
    requires Rooted(cwd) && root != [] && path != []
    ensures IsBelow(cwd, root, path) <==>
      exists tail: seq<Str> :: tail != [] && Names(tail) && Abs(cwd, path) == Abs(cwd, root) + tail
  {
    var a, b := Abs(cwd, root), Abs(cwd, path);
    AbsNames(cwd, path);
    if IsBelow(cwd, root, path) {
      assert b == a + b[|a|..] && b[|a|..] != [] && Names(b[|a|..]);
    }
    hide Abs, Names;
  }

  /** EvictItem lets go exactly the rows without a path, and those whose path is below the root. */
  lemma {:induction false} GuardIsBelow(p: Policy, cwd: Str, rows: Table, id: nat)
    requires Rooted(cwd)
    ensures EvictOne(p, cwd, rows, id).Ok? <==>
      id in rows && (rows[id].localPath == None || rows[id].localPath == Some([])
                     || IsBelow(cwd, p.root, rows[id].localPath.value))
    ensures id in rows && EvictOne(p, cwd, rows, id).Err? ==> EvictOne(p, cwd, rows, id).error == OutsideRoot
  {
    if id in rows {
      UnderRootIff(cwd, p.root, PathOf(rows[id]));
    }
    hide Abs, PathIsUnderRoot;
  }

  /** A sweep takes only rows whose path is below the root. */
  lemma {:induction false} SweepStaysBelow(p: Policy, cwd: Str, rows: Table)
    requires Rooted(cwd)
    ensures forall id | id in Chosen(p, cwd, rows) ::
      id in rows && rows[id].localPath.Some? && IsBelow(cwd, p.root, rows[id].localPath.value)
    ensures forall f | f in PathsOf(rows, Chosen(p, cwd, rows)) :: IsBelow(cwd, p.root, f)
  {
    forall id | id in Chosen(p, cwd, rows)
      ensures id in rows && rows[id].localPath.Some? && IsBelow(cwd, p.root, rows[id].localPath.value)
    {
      ChosenMember(p, cwd, rows, id);
      UnderRootIff(cwd, p.root, PathOf(rows[id]));
      hide Abs, PathIsUnderRoot;
    }
  }

  function EvictOne(p: Policy, cwd: Str, rows: Table, id: nat): Result<EvictedItem, StoreError>
    requires Rooted(cwd)
  {
    if id !in rows then Err(NotFound)
    else if PathOf(rows[id]) != [] && !InRoot(p, cwd, rows[id]) then Err(OutsideRoot)
    else Ok(EvictedItem(id, PathOf(rows[id]), rows[id].size, Manual))
  }

  function AfterOne(p: Policy, cwd: Str, rows: Table, id: nat): Table
    requires Rooted(cwd)
  {
    if EvictOne(p, cwd, rows, id).Ok? then rows[id := MarkEvicted(rows[id])] else rows
  }

  function ReadySize(rows: Table, id: nat): int {
    if id in rows && rows[id].status.Ready? then rows[id].size else 0
  }

  /** Writing one row moves usage by what that row counted before and after. */
  lemma {:induction false} UsedAfterWrite(rows: Table, id: nat, row: Row)
    ensures Used(rows[id := row]) == Used(rows)
      - (if id in rows && rows[id].status == Status.Ready then rows[id].size else 0)
      + (if row.status == Status.Ready then row.size else 0)
    ensures Used(map[]) == 0
  {
    var next := rows[id := row];
    var others := ReadyIds(rows) - {id};
    assert others == ReadyIds(next) - {id};
    SumSame(rows, next, others);
    if id in ReadyIds(rows) {
      SumTake(rows, ReadyIds(rows), id);
    } else {
      assert others == ReadyIds(rows);
    }
    if id in ReadyIds(next) {
      SumTake(next, ReadyIds(next), id);
    } else {
      assert others == ReadyIds(next);
    }
  }

  /** Evicting one item frees what it counted, and evicting it again changes nothing. */
  lemma {:induction false} EvictOneFrees(p: Policy, cwd: Str, rows: Table, id: nat)
    requires Rooted(cwd)
    ensures
      var after := AfterOne(p, cwd, rows, id);
      && Used(after) == Used(rows) - (if EvictOne(p, cwd, rows, id).Ok? then ReadySize(rows, id) else 0)
      && AfterOne(p, cwd, after, id) == after
  {
    if EvictOne(p, cwd, rows, id).Ok? {
      UsedAfterWrite(rows, id, MarkEvicted(rows[id]));
    }
  }

  // ---- the files of the rows a sweep spares ----

  /** Every ready row still has its file. */
  ghost predicate Backed(rows: Table, files: set<Str>) {
    forall id | id in ReadyIds(rows) :: PathOf(rows[id]) in files
  }

  /** What EvictNow leaves on disk. */
  ghost function FilesAfter(p: Policy, cwd: Str, rows: Table, files: set<Str>): set<Str>
    requires Rooted(cwd)
  {
    ChosenInTable(p, cwd, rows);
    files - PathsOf(rows, Chosen(p, cwd, rows))
  }

  lemma ChosenInTable(p: Policy, cwd: Str, rows: Table)
    requires Rooted(cwd)
    ensures forall id | id in Chosen(p, cwd, rows) :: id in rows
  {
    SweepConserves(p, cwd, rows);
  }

  /** A ready row that the sweep spares keeps its file exactly when it shares no path with a row it takes. */
  lemma {:induction false} SparedKeepsFileIff(p: Policy, cwd: Str, rows: Table, files: set<Str>, id: nat)
    requires Rooted(cwd) && id in ReadyIds(rows) && id !in Chosen(p, cwd, rows) && PathOf(rows[id]) in files
    ensures
      && (forall x | x in Chosen(p, cwd, rows) :: x in rows)
      && (PathOf(rows[id]) in FilesAfter(p, cwd, rows, files) <==>
          forall x | x in Chosen(p, cwd, rows) :: PathOf(rows[x]) != PathOf(rows[id]))
  {
    ChosenInTable(p, cwd, rows);
  }

  lemma SparedIsReady(p: Policy, cwd: Str, rows: Table, id: nat)
    requires Rooted(cwd)
    ensures id in ReadyIds(AfterSweep(p, cwd, rows)) <==> id in ReadyIds(rows) && id !in Chosen(p, cwd, rows)
    ensures id in ReadyIds(AfterSweep(p, cwd, rows)) ==> AfterSweep(p, cwd, rows)[id] == rows[id]
  {
    hide Chosen;
  }

  /**
   * A sweep leaves every ready row with its file exactly when no row it spares shares a path with
   * one it takes; rows placed apart never do.
   */
  lemma {:induction false} BackedAfterSweepIff(p: Policy, cwd: Str, rows: Table, files: set<Str>)
    requires Rooted(cwd) && Backed(rows, files)
    ensures
      && (forall x | x in Chosen(p, cwd, rows) :: x in rows)
      && (Backed(AfterSweep(p, cwd, rows), FilesAfter(p, cwd, rows, files)) <==>
          forall id, x | id in ReadyIds(rows) && id !in Chosen(p, cwd, rows) && x in Chosen(p, cwd, rows) ::
            PathOf(rows[x]) != PathOf(rows[id]))
  {
    ChosenInTable(p, cwd, rows);
    hide Chosen, AfterSweep, ReadyIds, PathsOf, FilesAfter, PathOf;
    forall id: nat
      ensures id in ReadyIds(AfterSweep(p, cwd, rows)) <==> id in ReadyIds(rows) && id !in Chosen(p, cwd, rows)
      ensures id in ReadyIds(AfterSweep(p, cwd, rows)) ==> id in rows && AfterSweep(p, cwd, rows)[id] == rows[id]
    {
      SparedIsReady(p, cwd, rows, id);
      ReadyInTable(rows);
    }
    forall id | id in ReadyIds(rows) && id !in Chosen(p, cwd, rows)
      ensures PathOf(rows[id]) in FilesAfter(p, cwd, rows, files) <==>
        forall x | x in Chosen(p, cwd, rows) :: PathOf(rows[x]) != PathOf(rows[id])
    {
      SparedKeepsFileIff(p, cwd, rows, files, id);
    }
  }

  lemma ReadyInTable(rows: Table)
    ensures ReadyIds(rows) <= rows.Keys
  {
  }

  // ---- sweeps in a row ----

  /** A rehearsal tells what the sweep will do, and the sweep after it finds nothing left to do. */
  method RehearseSweepRepeat(m: Manager) returns (dry: Report, done: Report, again: Report)
    requires m.Valid()
    modifies m
    ensures dry.dryRun && !done.dryRun && dry.(dryRun := false) == done
    ensures again.evicted == [] && again.before == again.after == done.after
    ensures done.before == Used(old(m.rows)) && done.after == Used(m.rows)
  {
    ghost var was := m.rows;
    dry := m.EvictNow(true);
    done := m.EvictNow(false);
    SweepConserves(m.policy, m.cwd, was);
    SecondSweepTakesNothing(m.policy, m.cwd, was);
    NothingYet(m.rows, OverHardCap);
    NothingYet(m.rows, OverSoftCap);
    again := m.EvictNow(false);
  }
}

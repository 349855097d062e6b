/** Evicting everything below a container, and counting beforehand what that frees. */
module Bulk {
  import opened Basics
  import opened Runes
  import opened Catalog
  import opened Items
  import opened Paths
  import opened Storage
  import opened Eviction
  import opened Manager
  import opened Hierarchy

  datatype BulkEvict = BulkEvict(evicted: nat, skipped: nat, failed: nat, freed: int)

  datatype EvictPreview = EvictPreview(toEvict: nat, freed: int, seasons: nat)

  // ---- rows by key ----

  predicate IsRow(rows: Table, source: string, key: string, id: nat) {
    id in rows && rows[id].source == source && rows[id].key == key
  }

  /** The row of a key, when there is one. */
  ghost function Find(rows: Table, source: string, key: string): (r: Option<nat>)
    ensures r.Some? ==> IsRow(rows, source, key, r.value)
    ensures r.None? ==> forall id: nat :: !IsRow(rows, source, key, id)
  {
    if exists id: nat :: IsRow(rows, source, key, id)
    then var id: nat :| IsRow(rows, source, key, id); Some(id)
    else None
  }

  lemma FindIs(rows: Table, source: string, key: string, id: nat)
    requires Unique(rows) && IsRow(rows, source, key, id)
    ensures Find(rows, source, key) == Some(id)
  {
  }

  ghost function StatusAt(rows: Table, source: string, key: string): Option<Status> {
    match Find(rows, source, key)
    case None => None
    case Some(id) => Some(rows[id].status)
  }

  /** The row of a key, when it is ready. */
  ghost function FindReady(rows: Table, source: string, key: string): (r: Option<nat>)
    ensures r.Some? ==> IsRow(rows, source, key, r.value) && r.value in ReadyIds(rows)
  {
    match Find(rows, source, key)
    case None => None
    case Some(id) => if rows[id].status.Ready? then Some(id) else None
  }

  // ---- evicting ----

  /** The row a leaf's eviction would flip: a ready one that the guard lets go. */
  ghost function Takes(p: Policy, cwd: Str, rows: Table, source: string, key: string): Option<nat>
    requires Rooted(cwd)
  {
    match FindReady(rows, source, key)
    case None => None
    case Some(id) => if EvictOne(p, cwd, rows, id).Ok? then Some(id) else None
  }

  ghost function Taken(p: Policy, cwd: Str, rows: Table, source: string, keys: seq<string>): (r: seq<nat>)
    requires Rooted(cwd)
    ensures forall id | id in r :: id in rows && id in ReadyIds(rows)
  {
    if keys == [] then []
    else
      var t := Takes(p, cwd, rows, source, keys[|keys| - 1]);
      Taken(p, cwd, rows, source, keys[..|keys| - 1]) + if t.Some? then [t.value] else []
  }

  function CountIf<T>(s: seq<T>, f: T -> bool): (n: nat)
    ensures n <= |s|
  {
    if s == [] then 0 else CountIf(s[..|s| - 1], f) + if f(s[|s| - 1]) then 1 else 0
  }

  /** Flipping these rows, repeats and all, lowers usage by each row's size once. */
  lemma {:induction false} MarkingFreesOnce(rows: Table, ids: seq<nat>)
    requires forall id | id in ids :: id in ReadyIds(rows)
    ensures IdsOf(ids) <= rows.Keys && Used(rows) == Used(Marked(rows, ids)) + Sum(rows, IdsOf(ids))
  {
    SumSplit(rows, ReadyIds(rows), IdsOf(ids));
    ReadyAfter(rows, ids);
    SumSame(rows, Marked(rows, ids), ReadyIds(rows) - IdsOf(ids));
  }

  predicate DistinctKeys(keys: seq<string>) { forall i, j | 0 <= i < j < |keys| :: keys[i] != keys[j] }

  lemma {:induction false} TakenKeys(p: Policy, cwd: Str, rows: Table, source: string, keys: seq<string>, id: nat)
    requires Rooted(cwd) && id in Taken(p, cwd, rows, source, keys)
    ensures id in rows && rows[id].key in keys && rows[id].source == source
  {
    var n := |keys| - 1;
    var t := Takes(p, cwd, rows, source, keys[n]);
    if t == Some(id) {
      assert rows[id].key == keys[n];
    } else {
      TakenKeys(p, cwd, rows, source, keys[..n], id);
      assert rows[id].key in keys[..n];
      assert forall k | k in keys[..n] :: k in keys;
    }
  }

  lemma {:induction false} TakenDistinct(p: Policy, cwd: Str, rows: Table, source: string, keys: seq<string>)
    requires Rooted(cwd) && DistinctKeys(keys)
    ensures Distinct(Taken(p, cwd, rows, source, keys))
  {
    hide Takes;
    if keys != [] {
      var n := |keys| - 1;
      TakenDistinct(p, cwd, rows, source, keys[..n]);
      var some := Taken(p, cwd, rows, source, keys[..n]);
      var t := Takes(p, cwd, rows, source, keys[n]);
      if t.Some? {
        TakesKey(p, cwd, rows, source, keys[n]);
        forall i | 0 <= i < |some|
          ensures some[i] != t.value
        {
          assert some[i] in some;
          TakenKeys(p, cwd, rows, source, keys[..n], some[i]);
          KeyNotBefore(keys, n);
        }
      }
    }
  }

  lemma TakesKey(p: Policy, cwd: Str, rows: Table, source: string, key: string)
    requires Rooted(cwd) && Takes(p, cwd, rows, source, key).Some?
    ensures var id := Takes(p, cwd, rows, source, key).value; id in rows && rows[id].key == key && id in ReadyIds(rows)
  {
  }

  lemma KeyNotBefore(keys: seq<string>, n: nat)
    requires DistinctKeys(keys) && n < |keys|
    ensures keys[n] !in keys[..n]
  {
  }

  function Keys(leaves: seq<Item>): (r: seq<string>)
    ensures |r| == |leaves| && forall i | 0 <= i < |r| :: r[i] == leaves[i].id
  {
    seq(|leaves|, i requires 0 <= i < |leaves| => leaves[i].id)
  }

  ghost predicate HasReady(rows: Table, source: string, key: string) { FindReady(rows, source, key).Some? }

  /** The tests by which a pass sorts its leaves, over the rows it started from. */
  ghost function Mirrored(rows: Table, source: string): string -> bool { key => HasReady(rows, source, key) }

  ghost function Absent(rows: Table, source: string): string -> bool { key => !HasReady(rows, source, key) }

  /** A ready leaf that the guard refuses. */
  ghost function Stuck(p: Policy, cwd: Str, rows: Table, source: string): string -> bool
    requires Rooted(cwd)
  {
    key => HasReady(rows, source, key) && Takes(p, cwd, rows, source, key).None?
  }

  /**
   * A leaf's row goes if it is the source's row of that key, is ready, and has no path or one below the
   * root; it is stuck if its path is anywhere else; and else it is not there to be evicted.
   */
  lemma {:induction false} LeafIff(p: Policy, cwd: Str, rows: Table, source: string, key: string, id: nat)
    requires Rooted(cwd) && Unique(rows)
    ensures var ready := id in rows && rows[id].source == source && rows[id].key == key
                         && rows[id].status == Status.Ready;
      var free := id in rows && (rows[id].localPath == None || rows[id].localPath == Some([])
                                 || IsBelow(cwd, p.root, rows[id].localPath.value));
      && (Takes(p, cwd, rows, source, key) == Some(id) <==> ready && free)
      && (ready ==> (Stuck(p, cwd, rows, source)(key) <==> !free) && !Absent(rows, source)(key))
      && (Absent(rows, source)(key) <==>
          forall x | x in rows && rows[x].source == source && rows[x].key == key :: rows[x].status != Status.Ready)
  {
    GuardIsBelow(p, cwd, rows, id);
    hide IsBelow, EvictOne;
    if IsRow(rows, source, key, id) {
      FindIs(rows, source, key, id);
    }
    forall x | x in rows && rows[x].source == source && rows[x].key == key ensures Find(rows, source, key) == Some(x) {
      FindIs(rows, source, key, x);
    }
  }

  /** Every row taken has no path or one below the root, and so has every file removed. */
  lemma {:induction false} TakenStayBelow(p: Policy, cwd: Str, rows: Table, source: string, keys: seq<string>)
    requires Rooted(cwd)
    ensures forall f | f in LivePaths(rows, Taken(p, cwd, rows, source, keys)) :: IsBelow(cwd, p.root, f)
  {
    forall id | id in Taken(p, cwd, rows, source, keys)
      ensures PathOf(rows[id]) == [] || IsBelow(cwd, p.root, PathOf(rows[id]))
    {
      TakenAreSafe(p, cwd, rows, source, keys, id);
      GuardIsBelow(p, cwd, rows, id);
      hide IsBelow, EvictOne;
    }
  }

  /** A stuck leaf keeps its row. */
  lemma {:induction false} StuckStays(p: Policy, cwd: Str, rows: Table, source: string, keys: seq<string>, id: nat)
    requires Rooted(cwd) && id in rows && PathOf(rows[id]) != [] && !IsBelow(cwd, p.root, PathOf(rows[id]))
    ensures id !in Taken(p, cwd, rows, source, keys)
  {
    if id in Taken(p, cwd, rows, source, keys) {
      TakenAreSafe(p, cwd, rows, source, keys, id);
      GuardIsBelow(p, cwd, rows, id);
    }
  }

  lemma TakenNext(p: Policy, cwd: Str, rows: Table, source: string, leaves: seq<Item>, i: nat)
    requires Rooted(cwd) && i < |leaves|
    ensures Taken(p, cwd, rows, source, Keys(leaves[..i + 1]))
         == Taken(p, cwd, rows, source, Keys(leaves[..i]))
            + var t := Takes(p, cwd, rows, source, leaves[i].id); if t.Some? then [t.value] else []
  {
    hide Takes;
    var keys := Keys(leaves[..i + 1]);
    assert keys[..|keys| - 1] == Keys(leaves[..i]);
  }

  lemma CountNext<T>(s: seq<T>, f: T -> bool, i: nat)
    requires i < |s|
    ensures CountIf(s[..i + 1], f) == CountIf(s[..i], f) + if f(s[i]) then 1 else 0
  {
    assert s[..i + 1][..i] == s[..i];
  }

  /** A row already flipped in this pass answers a repeated eviction as it answered the first. */
  lemma {:induction false} SameAnswer(p: Policy, cwd: Str, was: Table, source: string, keys: seq<string>, id: nat)
    requires Rooted(cwd) && id in was
    ensures
      var rows := Marked(was, Taken(p, cwd, was, source, keys));
      && id in rows && rows[id].size == was[id].size
      && (EvictOne(p, cwd, rows, id).Ok? <==> EvictOne(p, cwd, was, id).Ok?)
  {
    if id in Taken(p, cwd, was, source, keys) {
      TakenAreSafe(p, cwd, was, source, keys, id);
    }
  }

  lemma {:induction false} TakenAreSafe(p: Policy, cwd: Str, rows: Table, source: string, keys: seq<string>, id: nat)
    requires Rooted(cwd) && id in Taken(p, cwd, rows, source, keys)
    ensures id in rows && EvictOne(p, cwd, rows, id).Ok?
  {
    var n := |keys| - 1;
    var t := Takes(p, cwd, rows, source, keys[n]);
    if t != Some(id) {
      TakenAreSafe(p, cwd, rows, source, keys[..n], id);
    }
  }

  /** readyRowsForSource: every ready row of a source, by key. */
  method ReadyRows(m: Manager, source: string) returns (ready: map<string, (nat, int)>)
    requires m.Valid()
    ensures forall key :: key in ready <==> HasReady(m.rows, source, key)
    ensures forall key | key in ready && HasReady(m.rows, source, key) ::
      var id := FindReady(m.rows, source, key).value; id in m.rows && ready[key] == (id, m.rows[id].size)
  {
    ready := map[];
    var left := m.rows.Keys;
    while left != {}
      invariant left <= m.rows.Keys
      invariant forall key ::
        key in ready <==> HasReady(m.rows, source, key) && FindReady(m.rows, source, key).value !in left
      invariant forall key | key in ready ::
        var id := FindReady(m.rows, source, key).value; id in m.rows && ready[key] == (id, m.rows[id].size)
      decreases |left|
    {
      var id :| id in left;
      left := left - {id};
      var row := m.rows[id];
      if row.source == source && row.status.Ready? {
        FindIs(m.rows, source, row.key, id);
        ready := ready[row.key := (id, row.size)];
      }
    }
  }

  /** The files of these rows. */
  function LivePaths(rows: Table, ids: seq<nat>): set<Str>
    requires forall id | id in ids :: id in rows
  {
    PathsOf(rows, ids) - {[]}
  }

  /** EvictContainer, once the leaves are known. */
  method EvictLeaves(m: Manager, source: string, leaves: seq<Item>) returns (res: BulkEvict)
    requires m.Valid()
    modifies m
    ensures m.Valid()
    ensures res.evicted + res.skipped + res.failed == |leaves|
    ensures
      var taken := Taken(m.policy, m.cwd, old(m.rows), source, Keys(leaves));
      && m.rows == Marked(old(m.rows), taken) && m.files == old(m.files) - LivePaths(old(m.rows), taken)
      && res.evicted == |taken| && res.freed == Total(old(m.rows), taken)
    ensures res.skipped == CountIf(Keys(leaves), Absent(old(m.rows), source))
    // The guard, on the paths themselves.
    ensures res.failed == CountIf(Keys(leaves), Stuck(m.policy, m.cwd, old(m.rows), source))
    ensures forall f | f in old(m.files) && f !in m.files :: IsBelow(m.cwd, m.policy.root, f)
    ensures forall id | id in old(m.rows) && PathOf(old(m.rows)[id]) != []
                        && !IsBelow(m.cwd, m.policy.root, PathOf(old(m.rows)[id])) ::
      id in m.rows && m.rows[id] == old(m.rows)[id]
  {
    hide Unique, Marked, LivePaths, PathOf, AfterOne, Total, EvictOne, CountIf, Find, PathIsUnderRoot, Taken, FindReady;
    hide IsBelow;
    var ready := ReadyRows(m, source);
    res := BulkEvict(0, 0, 0, 0);
    ghost var was, wasFiles := m.rows, m.files;
    assert forall key | HasReady(was, source, key) :: key in ready && ready[key].0 == FindReady(was, source, key).value;
    ghost var gone, stuck := Absent(was, source), Stuck(m.policy, m.cwd, was, source);
    ghost var taken: seq<nat> := [];
    NothingTaken(m.policy, m.cwd, was, source, gone);
    NothingTaken(m.policy, m.cwd, was, source, stuck);
    for i := 0 to |leaves|
      invariant m.Valid() && taken == Taken(m.policy, m.cwd, was, source, Keys(leaves[..i]))
      invariant m.rows == Marked(was, taken) && m.files == wasFiles - LivePaths(was, taken)
      invariant res.evicted == |taken| && res.freed == Total(was, taken)
      invariant res.skipped == CountIf(Keys(leaves)[..i], gone) && res.failed == CountIf(Keys(leaves)[..i], stuck)
      invariant res.evicted + res.skipped + res.failed == i
    {
      var leaf := leaves[i];
      TakenNext(m.policy, m.cwd, was, source, leaves, i);
      CountNext(Keys(leaves), gone, i);
      CountNext(Keys(leaves), stuck, i);
      LeafCases(m.policy, m.cwd, was, source, leaf.id);
      hide Takes, Absent, Stuck, HasReady, InRoot;
      if leaf.id !in ready {
        res := res.(skipped := res.skipped + 1);
      } else {
        var id := ready[leaf.id].0;
        EvictStep(m.policy, m.cwd, was, source, Keys(leaves[..i]), id);
        var ev := m.EvictItem(id);
        if ev.Err? {
          res := res.(failed := res.failed + 1);
        } else {
          res := res.(evicted := res.evicted + 1, freed := res.freed + ev.value.size);
          LiveMore(was, taken, id);
          taken := taken + [id];
        }
      }
    }
    assert leaves[..|leaves|] == leaves && Keys(leaves)[..|leaves|] == Keys(leaves);
    TakenStayBelow(m.policy, m.cwd, was, source, Keys(leaves));
    StuckStay(m.policy, m.cwd, was, source, Keys(leaves));
  }

  /** What a pass makes of one key. */
  lemma LeafCases(p: Policy, cwd: Str, rows: Table, source: string, key: string)
    requires Rooted(cwd)
    ensures Absent(rows, source)(key) <==> !HasReady(rows, source, key)
    ensures HasReady(rows, source, key) <==> FindReady(rows, source, key).Some?
    ensures Takes(p, cwd, rows, source, key) ==
      if FindReady(rows, source, key).Some? && EvictOne(p, cwd, rows, FindReady(rows, source, key).value).Ok?
      then FindReady(rows, source, key) else None
    ensures Stuck(p, cwd, rows, source)(key) <==>
      HasReady(rows, source, key) && Takes(p, cwd, rows, source, key).None?
  {
  }

  lemma StuckStay(p: Policy, cwd: Str, rows: Table, source: string, keys: seq<string>)
    requires Rooted(cwd)
    ensures forall id | id in rows && PathOf(rows[id]) != [] && !IsBelow(cwd, p.root, PathOf(rows[id])) ::
      var after := Marked(rows, Taken(p, cwd, rows, source, keys)); id in after && after[id] == rows[id]
  {
    forall id | id in rows && PathOf(rows[id]) != [] && !IsBelow(cwd, p.root, PathOf(rows[id]))
      ensures id !in Taken(p, cwd, rows, source, keys)
    {
      StuckStays(p, cwd, rows, source, keys, id);
    }
    hide IsBelow, Taken, PathOf;
  }

  lemma NothingTaken(p: Policy, cwd: Str, rows: Table, source: string, f: string -> bool)
    requires Rooted(cwd)
    ensures Taken(p, cwd, rows, source, []) == [] && Keys([]) == [] && CountIf([], f) == 0
    ensures Marked(rows, []) == rows && LivePaths(rows, []) == {} && Total(rows, []) == 0
  {
  }

  /** What evicting a row of the snapshot does in the middle of the pass. */
  lemma {:induction false} EvictStep(p: Policy, cwd: Str, was: Table, source: string, keys: seq<string>, id: nat)
    requires Rooted(cwd) && id in was
    ensures
      var taken := Taken(p, cwd, was, source, keys);
      var rows := Marked(was, taken);
      var ev := EvictOne(p, cwd, rows, id);
      && (ev.Ok? <==> EvictOne(p, cwd, was, id).Ok?)
      && (ev.Err? ==> AfterOne(p, cwd, rows, id) == rows)
      && (ev.Ok? ==>
            && AfterOne(p, cwd, rows, id) == Marked(was, taken + [id])
            && Total(was, taken + [id]) == Total(was, taken) + ev.value.size
            && ev.value.path == if id in taken then [] else PathOf(was[id]))
  {
    var taken := Taken(p, cwd, was, source, keys);
    SameAnswer(p, cwd, was, source, keys, id);
    MarkedMore(was, taken, id);
    TotalNext(was, taken, id);
    hide InRoot, Taken;
  }

  lemma LiveMore(was: Table, taken: seq<nat>, id: nat)
    requires id in was && forall x | x in taken :: x in was
    ensures forall x | x in taken + [id] :: x in was
    ensures LivePaths(was, taken + [id])
         == LivePaths(was, taken) + if id in taken || PathOf(was[id]) == [] then {} else {PathOf(was[id])}
  {
    PathsMore(was, taken, id);
    assert id in taken ==> PathOf(was[id]) in PathsOf(was, taken);
  }

  /** For distinct leaves the bytes reported freed are exactly the drop in usage. */
  lemma {:induction false} DistinctLeavesFreeExactly(p: Policy, cwd: Str, rows: Table, source: string,
                                                     keys: seq<string>)
    requires Rooted(cwd) && DistinctKeys(keys)
    ensures
      var taken := Taken(p, cwd, rows, source, keys);
      Used(rows) - Used(Marked(rows, taken)) == Total(rows, taken)
  {
    var taken := Taken(p, cwd, rows, source, keys);
    TakenDistinct(p, cwd, rows, source, keys);
    MarkingFreesOnce(rows, taken);
    TotalIsSum(rows, taken);
  }

  lemma TakenLast(p: Policy, cwd: Str, rows: Table, source: string, keys: seq<string>, key: string, id: nat)
    requires Rooted(cwd) && Takes(p, cwd, rows, source, key) == Some(id)
    ensures Taken(p, cwd, rows, source, keys + [key]) == Taken(p, cwd, rows, source, keys) + [id]
  {
    hide Takes;
    assert (keys + [key])[..|keys|] == keys;
  }

  lemma OneRowTaken(p: Policy, cwd: Str, size: int)
    requires Rooted(cwd) && p.root != []
    ensures Takes(p, cwd, OneRow(p, size), "plex", "1") == Some(1)
  {
    var rows := OneRow(p, size);
    OneRowUsed(p, cwd, size);
    assert IsRow(rows, "plex", "1", 1);
    assert Unique(rows);
    FindIs(rows, "plex", "1", 1);
    hide Join, PathIsUnderRoot;
    assert InRoot(p, cwd, rows[1]);
  }

  /** No row of the list that takes space is listed again. */
  predicate NoneAgain(rows: Table, ids: seq<nat>)
    requires forall id | id in ids :: id in rows
  {
    forall i, j | 0 <= i < j < |ids| && ids[i] == ids[j] :: rows[ids[j]].size == 0
  }

  lemma NoneAgainMore(rows: Table, ids: seq<nat>, id: nat)
    requires id in rows && forall x | x in ids :: x in rows
    ensures (forall x | x in ids + [id] :: x in rows) && IdsOf(ids + [id]) == IdsOf(ids) + {id}
    ensures NoneAgain(rows, ids + [id]) <==> NoneAgain(rows, ids) && (id in ids ==> rows[id].size == 0)
  {
    var more := ids + [id];
    assert forall i | 0 <= i < |ids| :: more[i] == ids[i];
    assert more[|ids|] == id;
    if id in ids {
      var i :| 0 <= i < |ids| && ids[i] == id;
      assert more[i] == more[|ids|];
    }
    if NoneAgain(rows, more) {
      forall i, j | 0 <= i < j < |ids| && ids[i] == ids[j]
        ensures rows[ids[j]].size == 0
      {
        assert more[i] == more[j];
      }
    }
    assert forall x :: x in more <==> x in ids || x == id;
  }

  /**
   * Adding up a list counts at least what adding up its rows counts, and as much exactly when no row
   * is counted again.
   */
  lemma {:induction false} TotalAgainstSum(rows: Table, ids: seq<nat>)
    requires forall id | id in ids :: id in rows && rows[id].size >= 0
    ensures IdsOf(ids) <= rows.Keys && Sum(rows, IdsOf(ids)) <= Total(rows, ids)
    ensures Sum(rows, IdsOf(ids)) == Total(rows, ids) <==> NoneAgain(rows, ids)
  {
    if ids == [] {
      assert IdsOf(ids) == {};
    } else {
      var n := |ids| - 1;
      var rest, last := ids[..n], ids[n];
      assert ids == rest + [last] && last in ids;
      assert forall x | x in rest :: x in ids;
      TotalAgainstSum(rows, rest);
      NoneAgainMore(rows, rest, last);
      TotalNext(rows, rest, last);
      if last in rest {
        assert IdsOf(ids) == IdsOf(rest);
      } else {
        SumTake(rows, IdsOf(ids), last);
        assert IdsOf(ids) - {last} == IdsOf(rest);
      }
    }
  }

  /** No leaf whose eviction frees anything is listed again. */
  ghost predicate NoLeafAgain(p: Policy, cwd: Str, rows: Table, source: string, keys: seq<string>)
    requires Rooted(cwd)
  {
    forall i, j | 0 <= i < j < |keys| && keys[i] == keys[j] && Takes(p, cwd, rows, source, keys[j]).Some? ::
      rows[Takes(p, cwd, rows, source, keys[j]).value].size == 0
  }

  lemma {:induction false} TakenHas(p: Policy, cwd: Str, rows: Table, source: string, keys: seq<string>, i: nat)
    requires Rooted(cwd) && i < |keys| && Takes(p, cwd, rows, source, keys[i]).Some?
    ensures Takes(p, cwd, rows, source, keys[i]).value in Taken(p, cwd, rows, source, keys)
  {
    hide Takes;
    if i < |keys| - 1 {
      TakenHas(p, cwd, rows, source, keys[..|keys| - 1], i);
    }
  }

  lemma {:induction false} AgainByKeys(p: Policy, cwd: Str, rows: Table, source: string, keys: seq<string>)
    requires Rooted(cwd)
    ensures NoneAgain(rows, Taken(p, cwd, rows, source, keys)) <==> NoLeafAgain(p, cwd, rows, source, keys)
  {
    hide Takes;
    if keys != [] {
      var n := |keys| - 1;
      var rest := keys[..n];
      AgainByKeys(p, cwd, rows, source, rest);
      var taken := Taken(p, cwd, rows, source, rest);
      var t := Takes(p, cwd, rows, source, keys[n]);
      assert forall i | 0 <= i < n :: rest[i] == keys[i];
      if t.Some? {
        TakesKey(p, cwd, rows, source, keys[n]);
        NoneAgainMore(rows, taken, t.value);
        TakenIffListed(p, cwd, rows, source, rest, keys[n]);
      } else {
        assert Taken(p, cwd, rows, source, keys) == taken;
      }
      assert NoLeafAgain(p, cwd, rows, source, keys) <==>
        NoLeafAgain(p, cwd, rows, source, rest)
        && (t.Some? && keys[n] in rest ==> rows[t.value].size == 0);
    }
  }

  lemma TakenIffListed(p: Policy, cwd: Str, rows: Table, source: string, keys: seq<string>, key: string)
    requires Rooted(cwd) && Takes(p, cwd, rows, source, key).Some?
    ensures Takes(p, cwd, rows, source, key).value in Taken(p, cwd, rows, source, keys) <==> key in keys
  {
    var id := Takes(p, cwd, rows, source, key).value;
    TakesKey(p, cwd, rows, source, key);
    hide Takes, Taken;
    if id in Taken(p, cwd, rows, source, keys) {
      TakenKeys(p, cwd, rows, source, keys, id);
    }
    if key in keys {
      var i :| 0 <= i < |keys| && keys[i] == key;
      TakenHas(p, cwd, rows, source, keys, i);
    }
  }

  /** The bytes reported freed are the drop in usage exactly when no leaf that frees anything is listed again. */
  lemma {:induction false} FreedIsDropIff(p: Policy, cwd: Str, rows: Table, source: string, keys: seq<string>)
    requires Rooted(cwd) && forall id | id in ReadyIds(rows) :: rows[id].size >= 0
    ensures
      var taken := Taken(p, cwd, rows, source, keys);
      && (Total(rows, taken) == Used(rows) - Used(Marked(rows, taken)) <==> NoLeafAgain(p, cwd, rows, source, keys))
      && Total(rows, taken) >= Used(rows) - Used(Marked(rows, taken))
  {
    var taken := Taken(p, cwd, rows, source, keys);
    MarkingFreesOnce(rows, taken);
    TotalAgainstSum(rows, taken);
    AgainByKeys(p, cwd, rows, source, keys);
    hide Taken, NoneAgain, NoLeafAgain, Used, Sum, Total;
  }

  /** A leaf listed twice is counted twice, though its row is freed once. */
  lemma {:induction false} RepeatedLeafCountsTwice(p: Policy, cwd: Str, size: int)
    requires Rooted(cwd) && p.root != [] && size > 0
    ensures
      var rows := OneRow(p, size);
      var taken := Taken(p, cwd, rows, "plex", ["1", "1"]);
      Total(rows, taken) == 2 * size && Used(rows) - Used(Marked(rows, taken)) == size
  {
    hide Takes, Used, Sum, Marked, InRoot, Join, OneRow, Total, Taken;
    var rows := OneRow(p, size);
    var none: seq<string> := [];
    var key := "1";
    OneRowTaken(p, cwd, size);
    NothingTaken(p, cwd, rows, "plex", _ => true);
    TakenLast(p, cwd, rows, "plex", none, key, 1);
    TakenLast(p, cwd, rows, "plex", [key], key, 1);
    assert none + [key] == [key] && [key] + [key] == ["1", "1"];
    assert [] + [1] + [1] == [1, 1];
    TwiceOne(p, cwd, size);
  }

  lemma TwiceOne(p: Policy, cwd: Str, size: int)
    requires Rooted(cwd) && p.root != []
    ensures
      var rows := OneRow(p, size);
      Total(rows, [1, 1]) == 2 * size && Used(rows) - Used(Marked(rows, [1, 1])) == size
  {
    var rows := OneRow(p, size);
    OneRowUsed(p, cwd, size);
    hide Join, InRoot, Marked;
    TotalNext(rows, [1], 1);
    TotalNext(rows, [], 1);
    assert [1] + [1] == [1, 1] && [] + [1] == [1];
    MarkingFreesOnce(rows, [1, 1]);
    assert IdsOf([1, 1]) == {1} == ReadyIds(rows);
  }

  /** Evicting the same leaves again evicts nothing. */
  lemma {:induction false} SecondPassTakesNothing(p: Policy, cwd: Str, rows: Table, source: string, keys: seq<string>,
                                                  more: seq<string>)
    requires Rooted(cwd) && Unique(rows) && forall k | k in more :: k in keys
    ensures Taken(p, cwd, Marked(rows, Taken(p, cwd, rows, source, keys)), source, more) == []
  {
    if more != [] {
      var n := |more| - 1;
      var taken := Taken(p, cwd, rows, source, keys);
      var after := Marked(rows, taken);
      forall k | k in more[..n]
        ensures k in keys
      {
        assert k in more;
      }
      SecondPassTakesNothing(p, cwd, rows, source, keys, more[..n]);
      var key := more[n];
      assert key in more;
      if Takes(p, cwd, after, source, key).Some? {
        var id := Takes(p, cwd, after, source, key).value;
        TakesKey(p, cwd, after, source, key);
        StillReady(p, cwd, rows, source, keys, key, id);
      }
    }
  }

  /** A row that could still be evicted would have been evicted. */
  lemma {:induction false} StillReady(p: Policy, cwd: Str, rows: Table, source: string, keys: seq<string>,
                                      key: string, id: nat)
    requires Rooted(cwd) && Unique(rows) && key in keys
    ensures
      var after := Marked(rows, Taken(p, cwd, rows, source, keys));
      Takes(p, cwd, after, source, key) != Some(id)
  {
    var taken := Taken(p, cwd, rows, source, keys);
    var after := Marked(rows, taken);
    if FindReady(after, source, key) == Some(id) {
      assert after[id] == rows[id] && id !in taken;
      FindIs(rows, source, key, id);
      assert FindReady(rows, source, key) == Some(id);
      WouldTake(p, cwd, rows, source, keys, key, id);
    }
  }

  lemma {:induction false} WouldTake(p: Policy, cwd: Str, rows: Table, source: string, keys: seq<string>,
                                     key: string, id: nat)
    requires Rooted(cwd) && key in keys && FindReady(rows, source, key) == Some(id)
    ensures id in Taken(p, cwd, rows, source, keys) <==> EvictOne(p, cwd, rows, id).Ok?
  {
    hide EvictOne, FindReady;
    if id in Taken(p, cwd, rows, source, keys) {
      TakenAreSafe(p, cwd, rows, source, keys, id);
    }
    var n := |keys| - 1;
    if key != keys[n] {
      assert key in keys[..n];
      WouldTake(p, cwd, rows, source, keys[..n], key, id);
    }
  }

  // ---- previewing an eviction ----

  /** The distinct parents of the leaves that count. */
  ghost function Parents(leaves: seq<Item>, counts: string -> bool): set<string> {
    set i | 0 <= i < |leaves| && leaves[i].parentId != "" && counts(leaves[i].id) :: leaves[i].parentId
  }

  /** They are the parents that are named at all. */
  lemma ParentsIff(leaves: seq<Item>, counts: string -> bool, parent: string)
    ensures parent in Parents(leaves, counts) <==>
      parent != "" && exists i :: 0 <= i < |leaves| && leaves[i].parentId == parent && counts(leaves[i].id)
  {
  }

  lemma ParentsNext(leaves: seq<Item>, counts: string -> bool, i: nat)
    requires i < |leaves|
    ensures Parents(leaves[..i + 1], counts)
         == Parents(leaves[..i], counts)
            + if leaves[i].parentId != "" && counts(leaves[i].id) then {leaves[i].parentId} else {}
  {
    var a, b := leaves[..i + 1], leaves[..i];
    assert forall j | 0 <= j < i :: a[j] == b[j];
    assert a[i] == leaves[i];
  }

  ghost function ReadyTotal(rows: Table, source: string, keys: seq<string>): int {
    if keys == [] then 0
    else
      var f := FindReady(rows, source, keys[|keys| - 1]);
      ReadyTotal(rows, source, keys[..|keys| - 1]) + if f.Some? then rows[f.value].size else 0
  }

  lemma ReadyTotalNext(rows: Table, source: string, keys: seq<string>, i: nat)
    requires i < |keys|
    ensures ReadyTotal(rows, source, keys[..i + 1])
         == ReadyTotal(rows, source, keys[..i])
            + var f := FindReady(rows, source, keys[i]); if f.Some? then rows[f.value].size else 0
  {
    assert keys[..i + 1][..i] == keys[..i];
  }

  lemma NoneCounted(rows: Table, source: string, leaves: seq<Item>, f: string -> bool)
    ensures CountIf(Keys(leaves)[..0], f) == 0 && ReadyTotal(rows, source, Keys(leaves)[..0]) == 0
    ensures Parents(leaves[..0], f) == {}
  {
  }

  /** PreviewEvict, once the leaves are known. */
  method PreviewLeaves(m: Manager, source: string, leaves: seq<Item>) returns (prev: EvictPreview)
    requires m.Valid()
    ensures prev.toEvict == CountIf(Keys(leaves), Mirrored(m.rows, source))
    ensures prev.freed == ReadyTotal(m.rows, source, Keys(leaves))
    ensures prev.seasons == |Parents(leaves, Mirrored(m.rows, source))|
  {
    hide FindReady, CountIf, Parents, ReadyTotal;
    var ready := ReadyRows(m, source);
    ghost var has := Mirrored(m.rows, source);
    NoneCounted(m.rows, source, leaves, has);
    prev := EvictPreview(0, 0, 0);
    var seasons: set<string> := {};
    for i := 0 to |leaves|
      invariant prev.toEvict == CountIf(Keys(leaves)[..i], has)
      invariant prev.freed == ReadyTotal(m.rows, source, Keys(leaves)[..i])
      invariant seasons == Parents(leaves[..i], has)
    {
      var leaf := leaves[i];
      CountNext(Keys(leaves), has, i);
      ReadyTotalNext(m.rows, source, Keys(leaves), i);
      ParentsNext(leaves, has, i);
      if leaf.id in ready {
        prev := prev.(toEvict := prev.toEvict + 1, freed := prev.freed + ready[leaf.id].1);
        if leaf.parentId != "" {
          seasons := seasons + {leaf.parentId};
        }
      }
    }
    assert Keys(leaves)[..|leaves|] == Keys(leaves) && leaves[..|leaves|] == leaves;
    prev := prev.(seasons := |seasons|);
  }

  lemma {:induction false} CountSplit<T>(s: seq<T>, f: T -> bool, g: T -> bool)
    requires forall x | x in s :: f(x) != g(x)
    ensures CountIf(s, f) + CountIf(s, g) == |s|
  {
    if s != [] {
      var n := |s| - 1;
      assert s[n] in s;
      assert forall x | x in s[..n] :: x in s;
      CountSplit(s[..n], f, g);
    }
  }

  /** A preview counts the leaves the eviction then does not skip. */
  lemma {:induction false} PreviewCountsTheRest(rows: Table, source: string, leaves: seq<Item>)
    ensures CountIf(Keys(leaves), Mirrored(rows, source))
          + CountIf(Keys(leaves), Absent(rows, source)) == |leaves|
  {
    CountSplit(Keys(leaves), Mirrored(rows, source), Absent(rows, source));
  }

  /** The sizes of the ready leaves that are stuck. */
  ghost function StuckTotal(p: Policy, cwd: Str, rows: Table, source: string, keys: seq<string>): int
    requires Rooted(cwd)
  {
    if keys == [] then 0
    else
      var key := keys[|keys| - 1];
      StuckTotal(p, cwd, rows, source, keys[..|keys| - 1])
      + if Stuck(p, cwd, rows, source)(key) then rows[FindReady(rows, source, key).value].size else 0
  }

  /** What a preview counts is what the eviction then takes or fails on, in number and in bytes. */
  lemma {:induction false} PreviewForetellsEviction(p: Policy, cwd: Str, rows: Table, source: string,
                                                    keys: seq<string>)
    requires Rooted(cwd)
    ensures CountIf(keys, Mirrored(rows, source)) ==
      |Taken(p, cwd, rows, source, keys)| + CountIf(keys, Stuck(p, cwd, rows, source))
    ensures ReadyTotal(rows, source, keys) ==
      Total(rows, Taken(p, cwd, rows, source, keys)) + StuckTotal(p, cwd, rows, source, keys)
  {
    if keys != [] {
      var rest, key := keys[..|keys| - 1], keys[|keys| - 1];
      var t := Takes(p, cwd, rows, source, key);
      PreviewForetellsEviction(p, cwd, rows, source, rest);
      TakesReady(p, cwd, rows, source, key);
      hide Takes, FindReady, HasReady;
      assert Stuck(p, cwd, rows, source)(key) <==> HasReady(rows, source, key) && t.None?;
      assert Mirrored(rows, source)(key) <==> HasReady(rows, source, key);
      var some := Taken(p, cwd, rows, source, rest);
      assert Taken(p, cwd, rows, source, keys) == some + if t.Some? then [t.value] else [];
      hide Taken;
      if t.Some? {
        TotalNext(rows, some, t.value);
      } else {
        assert some + [] == some;
      }
    }
  }

  lemma TakesReady(p: Policy, cwd: Str, rows: Table, source: string, key: string)
    requires Rooted(cwd)
    ensures HasReady(rows, source, key) <==> FindReady(rows, source, key).Some?
    ensures Takes(p, cwd, rows, source, key).Some? ==>
      FindReady(rows, source, key) == Takes(p, cwd, rows, source, key) && Takes(p, cwd, rows, source, key).value in rows
  {
  }

  // ---- whole containers ----

  /** EvictContainer. */
  method EvictContainer(m: Manager, b: Backend, source: string, id: string) returns (r: Result<BulkEvict, SourceError>)
    requires m.Valid()
    modifies m
    ensures m.Valid()
    ensures r.Err? ==> m.rows == old(m.rows) && m.files == old(m.files)
    ensures r.Ok? ==> b.meta(id).Ok?
    ensures r.Ok? ==>
      var taken := Taken(m.policy, m.cwd, old(m.rows), source, Keys(Gathered(b, b.meta(id).value)));
      && m.rows == Marked(old(m.rows), taken) && m.files == old(m.files) - LivePaths(old(m.rows), taken)
      && r.value.evicted == |taken| && r.value.freed == Total(old(m.rows), taken)
      && r.value.evicted + r.value.skipped + r.value.failed == |Gathered(b, b.meta(id).value)|
    ensures forall f | f in old(m.files) && f !in m.files :: IsBelow(m.cwd, m.policy.root, f)
    ensures r.Ok? ==>
      r.value.failed == CountIf(Keys(Gathered(b, b.meta(id).value)), Stuck(m.policy, m.cwd, old(m.rows), source))
      && r.value.skipped == CountIf(Keys(Gathered(b, b.meta(id).value)), Absent(old(m.rows), source))
    ensures forall id | id in old(m.rows) && PathOf(old(m.rows)[id]) != []
                        && !IsBelow(m.cwd, m.policy.root, PathOf(old(m.rows)[id])) ::
      id in m.rows && m.rows[id] == old(m.rows)[id]
    ensures r.Ok? && DistinctKeys(Keys(Gathered(b, b.meta(id).value))) ==>
      r.value.freed == Used(old(m.rows)) - Used(m.rows)
    ensures r.Ok? && (forall x | x in ReadyIds(old(m.rows)) :: old(m.rows)[x].size >= 0) ==>
      (r.value.freed == Used(old(m.rows)) - Used(m.rows)
       <==> NoLeafAgain(m.policy, m.cwd, old(m.rows), source, Keys(Gathered(b, b.meta(id).value))))
  {
    hide NoLeafAgain, Taken, Total, Used, Marked, LivePaths, Unique, IsBelow, PathOf, CountIf;
    var gathered := GatherLeaves(b, id);
    if gathered.Err? {
      return Err(gathered.error);
    }
    ghost var was := m.rows;
    var res := EvictLeaves(m, source, gathered.value.0);
    if DistinctKeys(Keys(gathered.value.0)) {
      DistinctLeavesFreeExactly(m.policy, m.cwd, was, source, Keys(gathered.value.0));
    }
    if forall x | x in ReadyIds(was) :: was[x].size >= 0 {
      FreedIsDropIff(m.policy, m.cwd, was, source, Keys(gathered.value.0));
    }
    r := Ok(res);
  }
}

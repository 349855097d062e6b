/** What a sweep guarantees: exact accounting, oldest first, and a fixpoint. */
module Eviction {
  import opened Basics
  import opened Runes
  import opened Items
  import opened Paths
  import opened Storage

  ghost function IdsOf(s: seq<nat>): set<nat> { set id | id in s }

  predicate Distinct(s: seq<nat>) { forall i, j | 0 <= i < j < |s| :: s[i] != s[j] }

  // ---- sums along a list ----

  lemma {:induction false} TotalIsSum(rows: Table, ids: seq<nat>)
    requires Distinct(ids) && forall id | id in ids :: id in rows
    ensures IdsOf(ids) <= rows.Keys && Total(rows, ids) == Sum(rows, IdsOf(ids))
  {
    if ids != [] {
      var n := |ids| - 1;
      var rest, last := ids[..n], ids[n];
      TotalIsSum(rows, rest);
      assert last in ids;
      forall id
        ensures id in IdsOf(ids) - {last} <==> id in IdsOf(rest)
      {
        InInit(ids, id);
      }
      assert IdsOf(ids) - {last} == IdsOf(rest);
      SumTake(rows, IdsOf(ids), last);
    }
  }

  lemma InInit(ids: seq<nat>, id: nat)
    requires Distinct(ids) && ids != []
    ensures id in ids && id != ids[|ids| - 1] <==> id in ids[..|ids| - 1]
  {
    var n := |ids| - 1;
    if id in ids && id != ids[n] {
      var i :| 0 <= i < |ids| && ids[i] == id;
      assert ids[..n][i] == id;
    }
    if id in ids[..n] {
      var i :| 0 <= i < n && ids[..n][i] == id;
      assert ids[i] == id;
    }
  }

  ghost predicate Sorted(rows: Table, ids: seq<nat>) {
    && (forall id | id in ids :: id in rows)
    && (forall i, j | 0 <= i < j < |ids| :: ids[i] in rows && ids[j] in rows && Before(rows, ids[i], ids[j]))
  }

  lemma {:induction false} EvictableSorted(p: Policy, cwd: Str, rows: Table, order: seq<nat>)
    requires Rooted(cwd) && Sorted(rows, order)
    ensures Sorted(rows, Evictable(p, cwd, rows, order))
  {
    hide InRoot;
    if order != [] {
      var n := |order| - 1;
      var rest := Evictable(p, cwd, rows, order[..n]);
      SortedInit(rows, order);
      EvictableSorted(p, cwd, rows, order[..n]);
      forall x | x in rest ensures x in rows && order[n] in rows && Before(rows, x, order[n]) {
        assert x in order[..n];
        var k :| 0 <= k < n && order[..n][k] == x;
        assert order[k] == x && order[n] in order;
      }
      hide Before, Sorted;
      if order[n] in rows && InRoot(p, cwd, rows[order[n]]) {
        SortedMore(rows, rest, order[n]);
      } else {
        assert rest + [] == rest;
      }
    }
  }

  lemma SortedInit(rows: Table, order: seq<nat>)
    requires Sorted(rows, order) && order != []
    ensures Sorted(rows, order[..|order| - 1]) && order[|order| - 1] in rows
  {
    hide Before;
    var init := order[..|order| - 1];
    assert forall i | 0 <= i < |init| :: init[i] == order[i];
    assert forall id | id in init :: id in order;
    assert order[|order| - 1] in order;
  }

  lemma SortedMore(rows: Table, rest: seq<nat>, id: nat)
    requires Sorted(rows, rest) && id in rows && forall x | x in rest :: x in rows && Before(rows, x, id)
    ensures Sorted(rows, rest + [id])
  {
    hide Before;
    var more := rest + [id];
    forall i, j | 0 <= i < j < |more| ensures more[i] in rows && more[j] in rows && Before(rows, more[i], more[j]) {
      assert more[i] == rest[i] && rest[i] in rest;
    }
  }

  lemma OrderSorted(rows: Table)
    ensures Sorted(rows, Order(rows))
  {
    assert OldestFirst(rows, Order(rows));
    forall i, j | 0 <= i < j < |Order(rows)|
      ensures Order(rows)[i] in rows && Order(rows)[j] in rows && Before(rows, Order(rows)[i], Order(rows)[j])
    {
      assert Order(rows)[i] in Order(rows) && Order(rows)[j] in Order(rows);
    }
  }

  lemma PrefixSorted(rows: Table, all: seq<nat>, c: seq<nat>)
    requires Sorted(rows, all) && c <= all
    ensures Sorted(rows, c) && Distinct(c)
  {
    assert forall i | 0 <= i < |c| :: c[i] == all[i];
    assert forall id | id in c :: id in all;
  }

  lemma ChosenMember(p: Policy, cwd: Str, rows: Table, id: nat)
    requires Rooted(cwd) && id in Chosen(p, cwd, rows)
    ensures id in rows && id in ReadyIds(rows) && InRoot(p, cwd, rows[id])
  {
    hide InRoot, Chosen, Evictable;
    var all := Evictable(p, cwd, rows, Order(rows));
    assert id in all;
    assert OldestFirst(rows, Order(rows));
  }

  lemma ChosenSorted(p: Policy, cwd: Str, rows: Table)
    requires Rooted(cwd)
    ensures var c := Chosen(p, cwd, rows); Sorted(rows, c) && Distinct(c) && IdsOf(c) <= ReadyIds(rows)
  {
    OrderSorted(rows);
    EvictableSorted(p, cwd, rows, Order(rows));
    hide InRoot, Chosen, Evictable, Order, Sorted, Distinct;
    PrefixSorted(rows, Evictable(p, cwd, rows, Order(rows)), Chosen(p, cwd, rows));
    forall id | id in Chosen(p, cwd, rows)
      ensures id in ReadyIds(rows)
    {
      ChosenMember(p, cwd, rows, id);
    }
  }

  // ---- conservation ----

  lemma ReadyAfter(rows: Table, ids: seq<nat>)
    ensures ReadyIds(Marked(rows, ids)) == ReadyIds(rows) - IdsOf(ids)
  {
  }

  /** Whatever distinct ready rows are flipped, usage drops by exactly their sizes. */
  lemma {:induction false} MarkingFrees(rows: Table, ids: seq<nat>)
    requires Distinct(ids) && IdsOf(ids) <= ReadyIds(rows)
    ensures forall id | id in ids :: id in rows
    ensures Used(rows) == Used(Marked(rows, ids)) + Total(rows, ids)
  {
    forall id | id in ids
      ensures id in rows
    {
      assert id in IdsOf(ids);
    }
    TotalIsSum(rows, ids);
    SumSplit(rows, ReadyIds(rows), IdsOf(ids));
    ReadyAfter(rows, ids);
    SumSame(rows, Marked(rows, ids), ReadyIds(rows) - IdsOf(ids));
  }

  /** What a sweep reports as used afterwards is what a fresh count of the new table finds. */
  lemma {:induction false} SweepConserves(p: Policy, cwd: Str, rows: Table)
    requires Rooted(cwd)
    ensures
      var after := Marked(rows, Chosen(p, cwd, rows));
      var report := SweepReport(p, cwd, rows, false);
      && report.before == Used(rows) && report.after == Used(after)
      && Used(rows) == Used(after) + Total(rows, Chosen(p, cwd, rows))
  {
    ChosenSorted(p, cwd, rows);
    MarkingFrees(rows, Chosen(p, cwd, rows));
  }

  /** Oldest first: an evictable row the sweep spares is newer than every row it takes. */
  lemma {:induction false} SparedAreNewer(p: Policy, cwd: Str, rows: Table, taken: nat, spared: nat)
    requires Rooted(cwd) && taken in Chosen(p, cwd, rows)
    requires spared in ReadyIds(rows) && InRoot(p, cwd, rows[spared]) && spared !in Chosen(p, cwd, rows)
    ensures taken in rows
    ensures rows[taken].completedAt < rows[spared].completedAt
         || (rows[taken].completedAt == rows[spared].completedAt && taken < spared)
  {
    OldestTaken(p, cwd, rows, taken, spared);
  }

  lemma {:induction false} OldestTaken(p: Policy, cwd: Str, rows: Table, taken: nat, spared: nat)
    requires Rooted(cwd) && taken in Chosen(p, cwd, rows)
    requires spared in ReadyIds(rows) && InRoot(p, cwd, rows[spared]) && spared !in Chosen(p, cwd, rows)
    ensures taken in rows && Before(rows, taken, spared)
  {
    OrderSorted(rows);
    var all := Evictable(p, cwd, rows, Order(rows));
    EvictableSorted(p, cwd, rows, Order(rows));
    var c := Chosen(p, cwd, rows);
    assert OldestFirst(rows, Order(rows)) && spared in Order(rows) && spared in all;
    hide InRoot, Chosen, Evictable, Order, Before;
    var j :| 0 <= j < |all| && all[j] == spared;
    var i :| 0 <= i < |c| && c[i] == taken;
    assert all[i] == c[i];
    PastPrefix(c, all, j);
  }

  lemma PastPrefix(c: seq<nat>, all: seq<nat>, j: nat)
    requires c <= all && j < |all|
    ensures j < |c| ==> all[j] in c
  {
    if j < |c| {
      assert c[j] == all[j];
    }
  }

  // ---- the fixpoint ----

  ghost predicate AllInRoot(p: Policy, cwd: Str, rows: Table)
    requires Rooted(cwd)
  {
    forall id | id in rows && rows[id].status.Ready? :: InRoot(p, cwd, rows[id])
  }

  ghost function AfterSweep(p: Policy, cwd: Str, rows: Table): Table
    requires Rooted(cwd)
  {
    Marked(rows, Chosen(p, cwd, rows))
  }

  /** A sweep either reaches its target or takes everything the guard lets it. */
  lemma {:induction false} TargetOrAll(p: Policy, cwd: Str, rows: Table)
    requires Rooted(cwd) && EvictionTarget(p, Used(rows)).Some?
    ensures Used(AfterSweep(p, cwd, rows)) <= EvictionTarget(p, Used(rows)).value.0
         || forall id | id in ReadyIds(rows) && InRoot(p, cwd, rows[id]) :: id in Chosen(p, cwd, rows)
  {
    SweepConserves(p, cwd, rows);
    var all := Evictable(p, cwd, rows, Order(rows));
    var t := EvictionTarget(p, Used(rows)).value.0;
    var found := ShortestExists(rows, all, Used(rows), t, 0);
    ShortestByStopping(p, cwd, rows, found);
    assert OldestFirst(rows, Order(rows));
  }

  /** A sweep right after a sweep evicts nothing, whatever the caps and whatever lies outside the root. */
  lemma {:induction false} SecondSweepTakesNothing(p: Policy, cwd: Str, rows: Table)
    requires Rooted(cwd)
    ensures Chosen(p, cwd, AfterSweep(p, cwd, rows)) == []
    ensures AfterSweep(p, cwd, AfterSweep(p, cwd, rows)) == AfterSweep(p, cwd, rows)
  {
    var after := AfterSweep(p, cwd, rows);
    var chosen := Chosen(p, cwd, after);
    if chosen != [] {
      var id := chosen[0];
      ChosenMember(p, cwd, after, id);
      OverTarget(p, cwd, after);
      assert id !in Chosen(p, cwd, rows) && after[id] == rows[id];
      NotTwice(p, cwd, rows, id);
    }
  }

  /** A sweep takes a row only while usage is above its target. */
  lemma OverTarget(p: Policy, cwd: Str, rows: Table)
    requires Rooted(cwd) && Chosen(p, cwd, rows) != []
    ensures EvictionTarget(p, Used(rows)).Some? && Used(rows) > EvictionTarget(p, Used(rows)).value.0
  {
    var all := Evictable(p, cwd, rows, Order(rows));
    var t := EvictionTarget(p, Used(rows)).value.0;
    var found := ShortestExists(rows, all, Used(rows), t, 0);
    ShortestByStopping(p, cwd, rows, found);
    assert Total(rows, all[..0]) == 0;
  }

  lemma NotTwice(p: Policy, cwd: Str, rows: Table, id: nat)
    requires Rooted(cwd)
    requires id in ReadyIds(rows) && InRoot(p, cwd, rows[id]) && id !in Chosen(p, cwd, rows)
    ensures
      var t := EvictionTarget(p, Used(AfterSweep(p, cwd, rows)));
      t.None? || Used(AfterSweep(p, cwd, rows)) <= t.value.0
  {
    SweepConserves(p, cwd, rows);
    hide InRoot, Chosen;
    if EvictionTarget(p, Used(rows)).Some? {
      TargetOrAll(p, cwd, rows);
    } else {
      assert Chosen(p, cwd, rows) == [] by { Idle(p, cwd, rows); }
    }
  }

  lemma Idle(p: Policy, cwd: Str, rows: Table)
    requires Rooted(cwd) && EvictionTarget(p, Used(rows)).None?
    ensures Chosen(p, cwd, rows) == []
  {
  }

  // ---- the sweep in terms of the caps ----

  /** What a sweep has taken before its last victim, if it takes any. */
  ghost function ButLast(p: Policy, cwd: Str, rows: Table): (r: seq<nat>)
    requires Rooted(cwd)
    ensures forall id | id in r :: id in rows
  {
    var c := Chosen(p, cwd, rows);
    if c == [] then []
    else
      assert forall id | id in c[..|c| - 1] :: id in c;
      c[..|c| - 1]
  }

  /**
   * A sweep takes nothing while usage is within every cap that is set. Otherwise it takes no row too many:
   * without its last victim usage would still be above the soft cap, or, when none is set, above nine
   * tenths of the hard one. And none too few: it ends at or below that line, or has taken every row it may.
   */
  lemma {:induction false} SweepByCaps(p: Policy, cwd: Str, rows: Table)
    requires Rooted(cwd)
    ensures var used, c := Used(rows), Chosen(p, cwd, rows);
      && (!(p.hard > 0 && used > p.hard) && !(p.soft > 0 && used > p.soft) ==> c == [])
      && (c != [] && p.soft > 0 ==> used - Total(rows, ButLast(p, cwd, rows)) > p.soft)
      && (c != [] && p.soft <= 0 && p.hard <= MAX_INT64 / 9 ==>
            10 * (used - Total(rows, ButLast(p, cwd, rows))) > 9 * p.hard)
    ensures var used, after := Used(rows), Used(AfterSweep(p, cwd, rows));
      (p.hard > 0 && used > p.hard) || (p.soft > 0 && used > p.soft) ==>
        || (p.soft > 0 && after <= p.soft)
        || (p.soft <= 0 && (p.hard <= MAX_INT64 / 9 ==> 10 * after <= 9 * p.hard))
        || forall id | id in ReadyIds(rows) && InRoot(p, cwd, rows[id]) :: id in Chosen(p, cwd, rows)
  {
    var used, c := Used(rows), Chosen(p, cwd, rows);
    TargetIs(p, used);
    if EvictionTarget(p, used).None? {
      Idle(p, cwd, rows);
    } else {
      TargetOrAll(p, cwd, rows);
      NotOneMore(p, cwd, rows);
    }
    hide Used, Chosen, Total, InRoot, AfterSweep, EvictionTarget, ButLast;
  }

  /** The line a sweep aims for, and the reason it gives. */
  lemma TargetIs(p: Policy, used: int)
    ensures var t := EvictionTarget(p, used);
      && (t.Some? <==> (p.hard > 0 && used > p.hard) || (p.soft > 0 && used > p.soft))
      && (t.Some? && p.soft > 0 ==> t.value.0 == p.soft)
      && (t.Some? && p.soft <= 0 && p.hard <= MAX_INT64 / 9 ==> 10 * t.value.0 <= 9 * p.hard < 10 * t.value.0 + 10)
      && (t.Some? ==> t.value.1 == if p.hard > 0 && used > p.hard then OverHardCap else OverSoftCap)
  {
  }

  lemma NotOneMore(p: Policy, cwd: Str, rows: Table)
    requires Rooted(cwd) && EvictionTarget(p, Used(rows)).Some?
    ensures Chosen(p, cwd, rows) != [] ==>
      Used(rows) - Total(rows, ButLast(p, cwd, rows)) > EvictionTarget(p, Used(rows)).value.0
  {
    var all, t := Evictable(p, cwd, rows, Order(rows)), EvictionTarget(p, Used(rows)).value.0;
    var found := ShortestExists(rows, all, Used(rows), t, 0);
    ShortestByStopping(p, cwd, rows, found);
    if found != [] {
      assert all[..|found| - 1] == found[..|found| - 1];
    }
  }

  lemma {:induction false} OrderLength(rows: Table, ids: set<nat>, order: seq<nat>)
    requires ids <= rows.Keys && Listed(rows, ids, order)
    ensures |order| == |ids|
  {
    ListedEmpty(rows, ids, order);
    if order != [] {
      ListedTail(rows, ids, order);
      assert order[0] in order;
      OrderLength(rows, ids - {order[0]}, order[1..]);
    }
  }

  /** The report: every ready row scanned if a cap is exceeded and none otherwise, and why each victim had to go. */
  lemma {:induction false} ReportByCaps(p: Policy, cwd: Str, rows: Table, dryRun: bool)
    requires Rooted(cwd)
    ensures var used, r := Used(rows), SweepReport(p, cwd, rows, dryRun);
      && r.before == used && r.dryRun == dryRun && |r.evicted| == |Chosen(p, cwd, rows)|
      && r.scanned == (if (p.hard > 0 && used > p.hard) || (p.soft > 0 && used > p.soft) then |ReadyIds(rows)| else 0)
      && forall i | 0 <= i < |r.evicted| ::
           var id := Chosen(p, cwd, rows)[i];
           && id in rows && r.evicted[i].id == id && r.evicted[i].size == rows[id].size
           && rows[id].localPath == Some(r.evicted[i].path)
           && r.evicted[i].reason == if p.hard > 0 && used > p.hard then OverHardCap else OverSoftCap
  {
    var c := Chosen(p, cwd, rows);
    TargetIs(p, Used(rows));
    OrderLength(rows, ReadyIds(rows), Order(rows));
    forall i | 0 <= i < |c| ensures c[i] in rows && rows[c[i]].localPath == Some(PathOf(rows[c[i]])) {
      assert c[i] in c;
      ChosenMember(p, cwd, rows, c[i]);
    }
    if EvictionTarget(p, Used(rows)).None? {
      Idle(p, cwd, rows);
    }
    hide Used, Chosen, InRoot, EvictionTarget;
  }

  /** The sweep's own test: is usage over a cap? */
  predicate Over(p: Policy, used: int) { EvictionTarget(p, used).Some? }

  /** With ordered caps and nothing outside the root, one sweep always ends under the caps. */
  lemma {:induction false} SweepSettles(p: Policy, cwd: Str, rows: Table)
    requires Rooted(cwd) && CapsOrdered(p.hard, p.soft) && AllInRoot(p, cwd, rows)
    requires p.hard <= MAX_INT64
    ensures !Over(p, Used(AfterSweep(p, cwd, rows)))
  {
    var after := AfterSweep(p, cwd, rows);
    if EvictionTarget(p, Used(rows)).None? {
      Idle(p, cwd, rows);
      assert after == rows;
    } else {
      TargetOrAll(p, cwd, rows);
      TargetUnderCaps(p, Used(rows));
      if Used(after) > EvictionTarget(p, Used(rows)).value.0 {
        ReadyAfter(rows, Chosen(p, cwd, rows));
        assert ReadyIds(after) == {};
        assert Used(after) == 0;
      }
    }
  }

  /** No target lies above an ordered cap, even when nine tenths of the hard cap wraps around. */
  lemma TargetUnderCaps(p: Policy, used: int)
    requires CapsOrdered(p.hard, p.soft) && p.hard <= MAX_INT64 && EvictionTarget(p, used).Some?
    ensures var t := EvictionTarget(p, used).value.0; (p.hard > 0 ==> t <= p.hard) && (p.soft > 0 ==> t <= p.soft)
  {
  }

  /** One ready row of a given size, just below the root. */
  function OneRow(p: Policy, size: int): Table
    requires p.root != []
  {
    map[1 := Row("plex", "1", Lit("a"), Lit("mkv"), size, size, Status.Ready, Some(Join([p.root, Lit("a")])), 1)]
  }

  lemma {:induction false} OneRowUsed(p: Policy, cwd: Str, size: int)
    requires Rooted(cwd) && p.root != []
    ensures ReadyIds(OneRow(p, size)) == {1} && Used(OneRow(p, size)) == size && AllInRoot(p, cwd, OneRow(p, size))
  {
    var rows := OneRow(p, size);
    assert rows[1].status.Ready?;
    assert ReadyIds(rows) == {1};
    SumTake(rows, {1}, 1);
    var one: set<nat> := {1};
    assert one - {1} == {};
    assert Names([Lit("a")]);
    JoinedIsUnderRoot(cwd, p.root, [Lit("a")]);
    assert [p.root] + [Lit("a")] == [p.root, Lit("a")];
  }

  /** Ordering the caps is exactly what makes sweeping settle. */
  lemma {:induction false} SettlesIff(p: Policy, cwd: Str)
    requires Rooted(cwd) && p.root != [] && p.hard <= MAX_INT64
    ensures CapsOrdered(p.hard, p.soft) <==>
      (forall rows: Table :: AllInRoot(p, cwd, rows) ==> !Over(p, Used(AfterSweep(p, cwd, rows))))
  {
    if CapsOrdered(p.hard, p.soft) {
      forall rows: Table | AllInRoot(p, cwd, rows)
        ensures !Over(p, Used(AfterSweep(p, cwd, rows)))
      {
        SweepSettles(p, cwd, rows);
      }
    } else {
      var rows := OneRow(p, p.hard + 1);
      OneRowUsed(p, cwd, p.hard + 1);
      if Chosen(p, cwd, rows) != [] {
        OverTarget(p, cwd, rows);
      }
      assert AfterSweep(p, cwd, rows) == rows;
      assert Over(p, Used(AfterSweep(p, cwd, rows)));
    }
  }

  /** The nine-tenths target is the true one exactly when nine times the cap fits an int64. */
  lemma NinetyPercentIff(p: Policy, used: int)
    requires 0 < p.hard <= MAX_INT64 && p.soft <= 0 && used > p.hard
    ensures EvictionTarget(p, used).value.0 == p.hard * 9 / 10 <==> p.hard <= MAX_INT64 / 9
    ensures EvictionTarget(p, used).value.0 <= p.hard * 9 / 10
  {
  }
}

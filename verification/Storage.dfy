/** The storage manager: usage, the oldest-first sweep, eviction of one item, and recording a finished file. */
module Storage {
  import opened Basics
  import opened Runes
  import opened Items
  import opened Paths

  type Table = map<nat, Row>

  /** The caps are int64 columns of the configuration; zero or less disables one. */
  datatype Policy = Policy(root: Str, hard: int, soft: int)

  datatype Reason = OverHardCap | OverSoftCap | Manual

  datatype EvictedItem = EvictedItem(id: nat, path: Str, size: int, reason: Reason)

  datatype Report = Report(scanned: nat, before: int, after: int, evicted: seq<EvictedItem>, dryRun: bool)

  datatype StoreError = NotFound | OutsideRoot | BadArgument

  // ---- sums over the table ----

  ghost function ReadyIds(rows: Table): set<nat> {
    set id | id in rows && rows[id].status.Ready?
  }

  ghost function Sum(rows: Table, ids: set<nat>): int
    requires ids <= rows.Keys
  {
    if ids == {} then 0 else var id :| id in ids; rows[id].size + Sum(rows, ids - {id})
  }

  /** UsedBytes. */
  ghost function Used(rows: Table): int { Sum(rows, ReadyIds(rows)) }

  /** Any member may be counted first. */
  lemma {:induction false} SumTake(rows: Table, ids: set<nat>, id: nat)
    requires ids <= rows.Keys && id in ids
    ensures Sum(rows, ids) == rows[id].size + Sum(rows, ids - {id})
    decreases |ids|
  {
    var first: nat :| first in ids && Sum(rows, ids) == rows[first].size + Sum(rows, ids - {first});
    if first != id {
      SumTake(rows, ids - {first}, id);
      SumTake(rows, ids - {id}, first);
      assert ids - {first} - {id} == ids - {id} - {first};
    }
  }

  lemma {:induction false} SumSplit(rows: Table, ids: set<nat>, part: set<nat>)
    requires ids <= rows.Keys && part <= ids
    ensures Sum(rows, ids) == Sum(rows, part) + Sum(rows, ids - part)
    decreases |part|
  {
    if part == {} {
      assert ids - part == ids;
    } else {
      var id :| id in part;
      SumTake(rows, part, id);
      SumTake(rows, ids, id);
      SumSplit(rows, ids - {id}, part - {id});
      assert ids - {id} - (part - {id}) == ids - part;
    }
  }

  lemma {:induction false} SumSame(rows: Table, other: Table, ids: set<nat>)
    requires ids <= rows.Keys && ids <= other.Keys
    requires forall id | id in ids :: rows[id].size == other[id].size
    ensures Sum(rows, ids) == Sum(other, ids)
    decreases |ids|
  {
    if ids != {} {
      var id :| id in ids;
      SumTake(rows, ids, id);
      SumTake(other, ids, id);
      SumSame(rows, other, ids - {id});
    }
  }

  // ---- oldest first ----

  /** ORDER BY COALESCE(completed_at, 0) ASC, id ASC. */
  predicate Before(rows: Table, a: nat, b: nat)
    requires a in rows && b in rows
  {
    rows[a].completedAt < rows[b].completedAt || (rows[a].completedAt == rows[b].completedAt && a < b)
  }

  ghost predicate Listed(rows: Table, ids: set<nat>, order: seq<nat>)
    requires ids <= rows.Keys
  {
    && (forall id :: id in ids <==> id in order)
    && (forall i, j | 0 <= i < j < |order| :: Before(rows, order[i], order[j]))
  }

  /** The ready rows as the sweep's query returns them. */
  ghost predicate OldestFirst(rows: Table, order: seq<nat>) { Listed(rows, ReadyIds(rows), order) }

  lemma {:induction false} FirstExists(rows: Table, ids: set<nat>) returns (first: nat)
    requires ids <= rows.Keys && ids != {}
    ensures first in ids && forall id | id in ids && id != first :: Before(rows, first, id)
    decreases |ids|
  {
    first :| first in ids;
    if ids != {first} {
      var other := first;
      var best := FirstExists(rows, ids - {other});
      if Before(rows, best, other) {
        first := best;
      }
      forall id | id in ids && id != first
        ensures Before(rows, first, id)
      {
        assert id == other || id == best || Before(rows, best, id);
      }
    }
  }

  lemma ListedEmpty(rows: Table, ids: set<nat>, a: seq<nat>)
    requires ids <= rows.Keys && Listed(rows, ids, a)
    ensures a == [] <==> ids == {}
  {
    if a != [] {
      assert a[0] in a;
    }
    if ids != {} {
      var id :| id in ids;
      assert id in a;
    }
  }

  lemma HeadIsFirst(rows: Table, ids: set<nat>, a: seq<nat>, id: nat)
    requires ids <= rows.Keys && Listed(rows, ids, a) && id in ids
    ensures a != [] && a[0] in ids && (id == a[0] || Before(rows, a[0], id))
  {
    assert id in a;
    var i :| 0 <= i < |a| && a[i] == id;
    assert a[0] in a;
  }

  /** The query's answer is one definite list. */
  lemma {:induction false} ListedUnique(rows: Table, ids: set<nat>, a: seq<nat>, b: seq<nat>)
    requires ids <= rows.Keys && Listed(rows, ids, a) && Listed(rows, ids, b)
    ensures a == b
    decreases |a|
  {
    ListedEmpty(rows, ids, a);
    ListedEmpty(rows, ids, b);
    if a != [] {
      var id :| id in ids;
      HeadIsFirst(rows, ids, b, id);
      HeadIsFirst(rows, ids, a, b[0]);
      HeadIsFirst(rows, ids, b, a[0]);
      ListedTail(rows, ids, a);
      ListedTail(rows, ids, b);
      ListedUnique(rows, ids - {a[0]}, a[1..], b[1..]);
      assert a == [a[0]] + a[1..] && b == [b[0]] + b[1..];
    }
  }

  lemma ListedTail(rows: Table, ids: set<nat>, a: seq<nat>)
    requires ids <= rows.Keys && a != [] && Listed(rows, ids, a)
    ensures Listed(rows, ids - {a[0]}, a[1..])
  {
    forall id
      ensures id in ids - {a[0]} <==> id in a[1..]
    {
      if id in a[1..] {
        var i :| 0 <= i < |a[1..]| && a[1..][i] == id;
        assert Before(rows, a[0], a[i + 1]);
      }
      if id in ids - {a[0]} {
        var i :| 0 <= i < |a| && a[i] == id;
        assert a[1..][i - 1] == id;
      }
    }
  }

  lemma {:induction false} ListedExists(rows: Table, ids: set<nat>) returns (order: seq<nat>)
    requires ids <= rows.Keys
    ensures Listed(rows, ids, order)
    decreases |ids|
  {
    if ids == {} {
      order := [];
    } else {
      var first := FirstExists(rows, ids);
      var rest := ListedExists(rows, ids - {first});
      order := [first] + rest;
      forall id
        ensures id in ids <==> id in order
      {
        assert id in ids <==> id == first || id in rest;
      }
    }
  }

  ghost function Order(rows: Table): (order: seq<nat>)
    ensures OldestFirst(rows, order)
  {
    assert exists order :: OldestFirst(rows, order) by {
      var found := ListedExists(rows, ReadyIds(rows));
      assert OldestFirst(rows, found);
    }
    var order :| OldestFirst(rows, order);
    order
  }

  // ---- what a sweep should do ----

  function PathOf(r: Row): Str { if r.localPath.Some? then r.localPath.value else [] }

  predicate InRoot(p: Policy, cwd: Str, r: Row)
    requires Rooted(cwd)
  {
    PathIsUnderRoot(cwd, p.root, PathOf(r)) == Ok(true)
  }

  /** The usage a sweep aims for and the reason it stamps; None when it has nothing to do. */
  function EvictionTarget(p: Policy, used: int): Option<(int, Reason)> {
    if p.hard > 0 && used > p.hard then
      Some((if p.soft <= 0 then TruncDiv(Wrap64(p.hard * 9), 10) else p.soft, OverHardCap))
    else if p.soft > 0 && used > p.soft then Some((p.soft, OverSoftCap))
    else None
  }

  function Total(rows: Table, ids: seq<nat>): int
    requires forall id | id in ids :: id in rows
  {
    if ids == [] then 0 else Total(rows, ids[..|ids| - 1]) + rows[ids[|ids| - 1]].size
  }

  /** The rows of a list that the guard lets a sweep touch. */
  function Evictable(p: Policy, cwd: Str, rows: Table, order: seq<nat>): (r: seq<nat>)
    requires Rooted(cwd) && forall id | id in order :: id in rows
    ensures forall id :: id in r <==> id in order && InRoot(p, cwd, rows[id])
  {
    if order == [] then []
    else
      var last := order[|order| - 1];
      Evictable(p, cwd, rows, order[..|order| - 1]) + if InRoot(p, cwd, rows[last]) then [last] else []
  }

  /** chosen is the shortest prefix of all that brings usage to the target, or all when none does. */
  ghost predicate Shortest(rows: Table, all: seq<nat>, used: int, target: int, chosen: seq<nat>)
    requires forall id | id in all :: id in rows
  {
    && chosen <= all
    && (chosen != all ==> used - Total(rows, chosen) <= target)
    && (forall k | 0 <= k < |chosen| :: used - Total(rows, all[..k]) > target)
  }

  /** There is only one such prefix. */
  lemma ShortestUnique(rows: Table, all: seq<nat>, used: int, target: int, a: seq<nat>, b: seq<nat>)
    requires forall id | id in all :: id in rows
    requires Shortest(rows, all, used, target, a) && Shortest(rows, all, used, target, b)
    ensures a == b
  {
    assert a == all[..|a|] && b == all[..|b|];
    var x, y := Total(rows, all[..|a|]), Total(rows, all[..|b|]);
  }

  lemma {:induction false} ShortestExists(rows: Table, all: seq<nat>, used: int, target: int, k: nat)
      returns (chosen: seq<nat>)
    requires forall id | id in all :: id in rows
    requires k <= |all| && forall j | 0 <= j < k :: used - Total(rows, all[..j]) > target
    ensures Shortest(rows, all, used, target, chosen)
    decreases |all| - k
  {
    if k == |all| || used - Total(rows, all[..k]) <= target {
      chosen := all[..k];
    } else {
      chosen := ShortestExists(rows, all, used, target, k + 1);
    }
  }

  /** The rows a sweep of this table evicts, in order. */
  ghost function Chosen(p: Policy, cwd: Str, rows: Table): (chosen: seq<nat>)
    requires Rooted(cwd)
    ensures chosen <= Evictable(p, cwd, rows, Order(rows))
    ensures forall id | id in chosen :: id in rows
  {
    match EvictionTarget(p, Used(rows))
    case None => []
    case Some(t) =>
      var all := Evictable(p, cwd, rows, Order(rows));
      assert exists c :: Shortest(rows, all, Used(rows), t.0, c) by {
        var c := ShortestExists(rows, all, Used(rows), t.0, 0);
      }
      var chosen :| Shortest(rows, all, Used(rows), t.0, chosen);
      chosen
  }

  /** The table with these rows flipped to 'evicted'. */
  function Marked(rows: Table, ids: seq<nat>): Table {
    map id | id in rows :: if id in ids then MarkEvicted(rows[id]) else rows[id]
  }

  function PathsOf(rows: Table, ids: seq<nat>): set<Str>
    requires forall id | id in ids :: id in rows
  {
    set id | id in ids :: PathOf(rows[id])
  }

  function Entries(rows: Table, ids: seq<nat>, reason: Reason): (r: seq<EvictedItem>)
    requires forall id | id in ids :: id in rows
    ensures |r| == |ids|
    ensures forall i | 0 <= i < |ids| :: r[i] == EvictedItem(ids[i], PathOf(rows[ids[i]]), rows[ids[i]].size, reason)
  {
    seq(|ids|, i requires 0 <= i < |ids| => EvictedItem(ids[i], PathOf(rows[ids[i]]), rows[ids[i]].size, reason))
  }

  /** The report of one sweep over this table. */
  ghost function SweepReport(p: Policy, cwd: Str, rows: Table, dryRun: bool): Report
    requires Rooted(cwd)
  {
    match EvictionTarget(p, Used(rows))
    case None => Report(0, Used(rows), Used(rows), [], dryRun)
    case Some(t) =>
      var chosen := Chosen(p, cwd, rows);
      Report(|Order(rows)|, Used(rows), Used(rows) - Total(rows, chosen), Entries(rows, chosen, t.1), dryRun)
  }

  lemma {:induction false} EvictablePrefix(p: Policy, cwd: Str, rows: Table, order: seq<nat>, i: nat)
    requires Rooted(cwd) && i <= |order| && forall id | id in order :: id in rows
    ensures Evictable(p, cwd, rows, order[..i]) <= Evictable(p, cwd, rows, order)
    decreases |order|
  {
    if i == |order| {
      assert order[..i] == order;
    } else {
      EvictablePrefix(p, cwd, rows, order[..|order| - 1], i);
      assert order[..|order| - 1][..i] == order[..i];
    }
  }

  lemma EvictableNext(p: Policy, cwd: Str, rows: Table, order: seq<nat>, i: nat)
    requires Rooted(cwd) && i < |order| && forall id | id in order :: id in rows
    ensures Evictable(p, cwd, rows, order[..i + 1])
         == Evictable(p, cwd, rows, order[..i]) + if InRoot(p, cwd, rows[order[i]]) then [order[i]] else []
  {
    assert order[..i + 1][..i] == order[..i];
  }

  lemma TotalNext(rows: Table, ids: seq<nat>, id: nat)
    requires id in rows && forall x | x in ids :: x in rows
    ensures Total(rows, ids + [id]) == Total(rows, ids) + rows[id].size
  {
    assert (ids + [id])[..|ids|] == ids;
  }

  /** Listing a prefix in order and stopping at the target finds exactly the rows a sweep should evict. */
  lemma ShortestByStopping(p: Policy, cwd: Str, rows: Table, chosen: seq<nat>)
    requires Rooted(cwd) && EvictionTarget(p, Used(rows)).Some?
    requires
      var all := Evictable(p, cwd, rows, Order(rows));
      Shortest(rows, all, Used(rows), EvictionTarget(p, Used(rows)).value.0, chosen)
    ensures chosen == Chosen(p, cwd, rows)
  {
    var all := Evictable(p, cwd, rows, Order(rows));
    var target := EvictionTarget(p, Used(rows)).value.0;
    assert Shortest(rows, all, Used(rows), target, Chosen(p, cwd, rows)) by {
      var c := ShortestExists(rows, all, Used(rows), target, 0);
    }
    ShortestUnique(rows, all, Used(rows), target, chosen, Chosen(p, cwd, rows));
  }
}

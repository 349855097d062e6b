/** Queueing everything below a container, and counting beforehand what that would queue. */
module Queueing {
  import opened Basics
  import opened Catalog
  import opened Items
  import opened Layout
  import opened Storage
  import opened Manager
  import opened Hierarchy
  import opened Bulk

  datatype QueueError = NoId | Unplaceable(e: LayoutError)

  datatype BulkQueue = BulkQueue(queued: nat, skipped: nat, failed: nat, totalBytes: int)

  datatype ContainerPreview = ContainerPreview(toQueue: nat, alreadyHave: nat, seasons: nat, totalBytes: int)

  // ---- one item ----

  function Described(source: string, item: Item): Row {
    NewRow(source, item.id, item.title, item.container, item.size)
  }

  /** The status a queued item ends with: only a missing or failed one becomes 'queued'. */
  function AfterQueue(s: Option<Status>): Status {
    match s
    case None => Queued
    case Some(Errored) => Queued
    case Some(other) => other
  }

  /** One key's status moves as Queue moves it; no other key's does. */
  ghost predicate Requeued(was: Table, rows: Table, source: string, key: string) {
    forall k ::
      StatusAt(rows, source, k)
      == if k == key then Some(AfterQueue(StatusAt(was, source, k))) else StatusAt(was, source, k)
  }

  /** The engine refuses an item it could never place. */
  predicate Refused(l: Layout, item: Item) { item.id == "" || Final(l, item).Err? }

  /** Queue, on the table: nothing but this item's row changes. */
  method Queue(m: Manager, l: Layout, source: string, item: Item) returns (r: Result<nat, QueueError>)
    requires m.Valid()
    modifies m`rows
    ensures m.Valid()
    ensures r.Err? <==> Refused(l, item)
    ensures r.Err? ==> m.rows == old(m.rows)
    ensures r.Ok? ==>
      && IsRow(m.rows, source, item.id, r.value) && m.rows == old(m.rows)[r.value := m.rows[r.value]]
      && (r.value in old(m.rows) ==> m.rows[r.value] == Requeue(old(m.rows)[r.value], Described(source, item)))
      && (r.value !in old(m.rows) ==> m.rows[r.value] == Described(source, item))
      && (r.value !in old(m.rows) ==>
            m.rows[r.value] == Row(source, item.id, item.title, item.container, item.size, 0, Queued, None, 0))
      && (r.value in old(m.rows) ==>
            var row := old(m.rows)[r.value];
            m.rows[r.value] == row.(title := item.title, container := item.container, size := item.size,
                                    status := if row.status == Errored then Queued else row.status))
    ensures item.id == "" || Final(l, item).Err? <==> r.Err?
    ensures r.Ok? ==> Requeued(old(m.rows), m.rows, source, item.id)
  {
    hide Final;
    if item.id == "" {
      return Err(NoId);
    }
    var final := Final(l, item);
    if final.Err? {
      return Err(Unplaceable(final.error));
    }
    ghost var was := m.rows;
    var id: nat;
    if exists i :: i in m.rows && IsRow(m.rows, source, item.id, i) {
      id :| id in m.rows && IsRow(m.rows, source, item.id, id);
      FindIs(m.rows, source, item.id, id);
      m.rows := m.rows[id := Requeue(m.rows[id], Described(source, item))];
    } else {
      id := FreshId(m.rows);
      m.rows := m.rows[id := Described(source, item)];
    }
    StatusStep(was, m.rows, source, item.id, id);
    r := Ok(id);
  }

  /** The primary key of an inserted row. */
  method FreshId(rows: Table) returns (id: nat)
    ensures id !in rows
  {
    id := 1;
    var left := rows.Keys;
    while left != {}
      invariant left <= rows.Keys && forall x | x in rows && x !in left :: x < id
      decreases |left|
    {
      var x :| x in left;
      left := left - {x};
      id := if x < id then id else x + 1;
    }
  }

  lemma {:induction false} StatusStep(was: Table, rows: Table, source: string, key: string, id: nat)
    requires Unique(was) && Unique(rows) && IsRow(rows, source, key, id) && rows == was[id := rows[id]]
    requires id in was ==> IsRow(was, source, key, id)
    requires id !in was ==> forall x :: !IsRow(was, source, key, x)
    requires rows[id].status == AfterQueue(if id in was then Some(was[id].status) else None)
    ensures Requeued(was, rows, source, key)
  {
    FindIs(rows, source, key, id);
    if id in was {
      FindIs(was, source, key, id);
    }
    forall k | k != key
      ensures StatusAt(rows, source, k) == StatusAt(was, source, k)
    {
      OtherKey(was, rows, source, k, id);
    }
  }

  lemma OtherKey(was: Table, rows: Table, source: string, k: string, id: nat)
    requires Unique(was) && Unique(rows) && id in rows && rows == was[id := rows[id]] && rows[id].key != k
    requires id in was ==> was[id].key != k
    ensures StatusAt(rows, source, k) == StatusAt(was, source, k)
  {
    var f, g := Find(was, source, k), Find(rows, source, k);
    if f.Some? {
      assert IsRow(rows, source, k, f.value);
      FindIs(rows, source, k, f.value);
    }
    if g.Some? {
      assert IsRow(was, source, k, g.value);
      FindIs(was, source, k, g.value);
    }
  }

  /** Queueing a ready item moves the usage the sweeper acts on, though the call is described as changing nothing. */
  lemma {:induction false} RequeueMovesUsage(rows: Table, id: nat, source: string, item: Item)
    requires id in rows
    ensures
      var row := Requeue(rows[id], Described(source, item));
      && Used(rows[id := row]) == Used(rows) + (if rows[id].status.Ready? then item.size - rows[id].size else 0)
  {
    UsedAfterWrite(rows, id, Requeue(rows[id], Described(source, item)));
  }

  // ---- a list of leaves ----

  ghost predicate Held(was: Table, source: string, key: string) {
    StatusAt(was, source, key) == Some(Ready) || StatusAt(was, source, key) == Some(Downloading)
  }

  /** The leaves a pass leaves alone, by their status before it. */
  ghost predicate Skips(was: Table, source: string, key: string) {
    Held(was, source, key) || StatusAt(was, source, key) == Some(Queued)
  }

  ghost function Skipping(was: Table, source: string): Item -> bool { (leaf: Item) => Skips(was, source, leaf.id) }

  ghost function Failing(was: Table, source: string, l: Layout): Item -> bool {
    (leaf: Item) => !Skips(was, source, leaf.id) && Refused(l, leaf)
  }

  ghost function Queueable(was: Table, source: string, l: Layout): Item -> bool {
    (leaf: Item) => !Skips(was, source, leaf.id) && !Refused(l, leaf)
  }

  /** The source's row of this key stands at this status. */
  ghost predicate Stands(was: Table, source: string, key: string, st: Status) {
    exists id: nat :: id in was && was[id].source == source && was[id].key == key && was[id].status == st
  }

  /**
   * A leaf is left alone if its row is ready, downloading or queued already; otherwise it fails if it has no id
   * or no place, and is queued if it has both. A preview counts it as had only if its row is ready or downloading.
   */
  lemma {:induction false} LeafTests(was: Table, source: string, l: Layout, leaf: Item)
    requires Unique(was)
    ensures var row := (st: Status) => Stands(was, source, leaf.id, st);
      var placed := leaf.id != "" && Final(l, leaf).Ok?;
      && (Skipping(was, source)(leaf) <==> row(Ready) || row(Downloading) || row(Queued))
      && (Failing(was, source, l)(leaf) <==> !Skipping(was, source)(leaf) && !placed)
      && (Queueable(was, source, l)(leaf) <==> !Skipping(was, source)(leaf) && placed)
      && (Having(was, source)(leaf) <==> row(Ready) || row(Downloading))
      && (Wanting(was, source)(leaf) <==> !Having(was, source)(leaf))
      && (Waiting(was, source)(leaf) <==> row(Queued))
  {
    hide Final;
    forall id: nat | IsRow(was, source, leaf.id, id) ensures StatusAt(was, source, leaf.id) == Some(was[id].status) {
      FindIs(was, source, leaf.id, id);
    }
  }

  ghost function SizeIf(leaves: seq<Item>, f: Item -> bool): int {
    if leaves == [] then 0
    else SizeIf(leaves[..|leaves| - 1], f) + if f(leaves[|leaves| - 1]) then leaves[|leaves| - 1].size else 0
  }

  lemma SizeNext(leaves: seq<Item>, f: Item -> bool, i: nat)
    requires i < |leaves|
    ensures SizeIf(leaves[..i + 1], f) == SizeIf(leaves[..i], f) + if f(leaves[i]) then leaves[i].size else 0
  {
    assert leaves[..i + 1][..i] == leaves[..i];
  }

  /** statusesForSource: the status of every row of a source, by key. */
  method Statuses(m: Manager, source: string) returns (st: map<string, Status>)
    requires m.Valid()
    ensures forall key :: StatusAt(m.rows, source, key) == if key in st then Some(st[key]) else None
  {
    st := map[];
    var left := m.rows.Keys;
    while left != {}
      invariant left <= m.rows.Keys
      invariant forall key :: key in st <==>
        Find(m.rows, source, key).Some? && Find(m.rows, source, key).value !in left
      invariant forall key | key in st :: StatusAt(m.rows, source, key) == Some(st[key])
      decreases |left|
    {
      var id :| id in left;
      left := left - {id};
      var row := m.rows[id];
      if row.source == source {
        FindIs(m.rows, source, row.key, id);
        st := st[row.key := row.status];
      }
    }
  }

  /** Some leaf of this list with this key was queued by the pass. */
  ghost predicate QueuedIn(was: Table, source: string, l: Layout, leaves: seq<Item>, key: string) {
    exists i :: 0 <= i < |leaves| && leaves[i].id == key && Queueable(was, source, l)(leaves[i])
  }

  /** What the pass makes of every status of the source. */
  ghost predicate Outcome(was: Table, rows: Table, source: string, l: Layout, leaves: seq<Item>) {
    forall key ::
      StatusAt(rows, source, key)
      == if QueuedIn(was, source, l, leaves, key) then Some(AfterQueue(StatusAt(was, source, key)))
         else StatusAt(was, source, key)
  }

  /** QueueContainer, once the leaves are known. */
  method QueueLeaves(m: Manager, l: Layout, source: string, leaves: seq<Item>) returns (res: BulkQueue)
    requires m.Valid()
    modifies m`rows
    ensures m.Valid()
    ensures res.queued == CountIf(leaves, Queueable(old(m.rows), source, l))
    ensures res.skipped == CountIf(leaves, Skipping(old(m.rows), source))
    ensures res.failed == CountIf(leaves, Failing(old(m.rows), source, l))
    ensures res.queued + res.skipped + res.failed == |leaves|
    ensures res.totalBytes == SizeIf(leaves, Queueable(old(m.rows), source, l))
    ensures Outcome(old(m.rows), m.rows, source, l, leaves)
  {
    hide CountIf, SizeIf, StatusAt, Unique, Refused, Outcome;
    ghost var was := m.rows;
    var st := Statuses(m, source);
    res := BulkQueue(0, 0, 0, 0);
    ghost var q, s, f := Queueable(was, source, l), Skipping(was, source), Failing(was, source, l);
    NoLeaves(leaves, q);
    NoLeaves(leaves, s);
    NoLeaves(leaves, f);
    OutcomeStart(was, source, l, leaves);
    for i := 0 to |leaves|
      invariant m.Valid()
      invariant res.queued == CountIf(leaves[..i], q) && res.skipped == CountIf(leaves[..i], s)
      invariant res.failed == CountIf(leaves[..i], f) && res.queued + res.skipped + res.failed == i
      invariant res.totalBytes == SizeIf(leaves[..i], q)
      invariant Outcome(was, m.rows, source, l, leaves[..i])
    {
      var leaf := leaves[i];
      CountNext(leaves, q, i);
      CountNext(leaves, s, i);
      CountNext(leaves, f, i);
      SizeNext(leaves, q, i);
      if leaf.id in st && (st[leaf.id].Ready? || st[leaf.id].Downloading? || st[leaf.id].Queued?) {
        res := res.(skipped := res.skipped + 1);
        OutcomeSame(was, m.rows, source, l, leaves, i);
      } else {
        ghost var before := m.rows;
        var done := Queue(m, l, source, leaf);
        if done.Err? {
          res := res.(failed := res.failed + 1);
          OutcomeSame(was, m.rows, source, l, leaves, i);
        } else {
          res := res.(queued := res.queued + 1, totalBytes := res.totalBytes + leaf.size);
          OutcomeNext(was, before, m.rows, source, l, leaves, i);
        }
      }
    }
    assert leaves[..|leaves|] == leaves;
  }

  lemma NoLeaves(leaves: seq<Item>, f: Item -> bool)
    ensures CountIf(leaves[..0], f) == 0 && SizeIf(leaves[..0], f) == 0
  {
  }

  lemma OutcomeStart(was: Table, source: string, l: Layout, leaves: seq<Item>)
    ensures Outcome(was, was, source, l, leaves[..0])
  {
    hide StatusAt;
  }

  lemma QueuedNext(was: Table, source: string, l: Layout, leaves: seq<Item>, i: nat, key: string)
    requires i < |leaves|
    ensures QueuedIn(was, source, l, leaves[..i + 1], key) <==>
      QueuedIn(was, source, l, leaves[..i], key) || (leaves[i].id == key && Queueable(was, source, l)(leaves[i]))
  {
    hide Skips, Refused;
    var a, b := leaves[..i + 1], leaves[..i];
    assert forall j | 0 <= j < i :: a[j] == b[j];
    assert a[i] == leaves[i];
    if j :| 0 <= j < |b| && b[j].id == key && Queueable(was, source, l)(b[j]) {
      assert a[j] == b[j];
    }
  }

  lemma OutcomeSame(was: Table, rows: Table, source: string, l: Layout, leaves: seq<Item>, i: nat)
    requires i < |leaves| && Outcome(was, rows, source, l, leaves[..i]) && !Queueable(was, source, l)(leaves[i])
    ensures Outcome(was, rows, source, l, leaves[..i + 1])
  {
    hide Skips, Refused, StatusAt, QueuedIn;
    forall key
      ensures QueuedIn(was, source, l, leaves[..i + 1], key) <==> QueuedIn(was, source, l, leaves[..i], key)
    {
      QueuedNext(was, source, l, leaves, i, key);
    }
  }

  lemma OutcomeNext(was: Table, before: Table, rows: Table, source: string, l: Layout, leaves: seq<Item>, i: nat)
    requires i < |leaves| && Outcome(was, before, source, l, leaves[..i]) && Queueable(was, source, l)(leaves[i])
    requires Requeued(before, rows, source, leaves[i].id)
    ensures Outcome(was, rows, source, l, leaves[..i + 1])
  {
    hide Skips, Refused, StatusAt, QueuedIn;
    forall key
      ensures StatusAt(rows, source, key) ==
        if QueuedIn(was, source, l, leaves[..i + 1], key) then Some(AfterQueue(StatusAt(was, source, key)))
        else StatusAt(was, source, key)
    {
      QueuedNext(was, source, l, leaves, i, key);
    }
  }

  /** A leaf counted as queued ends up 'queued' exactly when its row was not 'evicted' before. */
  lemma {:induction false} QueuedEndsQueuedIff(was: Table, rows: Table, source: string, l: Layout, leaves: seq<Item>,
                                               i: nat)
    requires Outcome(was, rows, source, l, leaves)
    requires i < |leaves| && Queueable(was, source, l)(leaves[i])
    ensures StatusAt(rows, source, leaves[i].id) == Some(Queued) <==>
      StatusAt(was, source, leaves[i].id) != Some(Evicted)
  {
    hide StatusAt, Refused;
    assert QueuedIn(was, source, l, leaves, leaves[i].id);
  }

  /** A repeated pass skips what the first one queued, except the leaves stuck as 'evicted'. */
  lemma {:induction false} SecondPassSkips(was: Table, rows: Table, source: string, l: Layout, leaves: seq<Item>,
                                           i: nat)
    requires Outcome(was, rows, source, l, leaves) && i < |leaves|
    ensures Skips(rows, source, leaves[i].id) <==>
      Skips(was, source, leaves[i].id)
      || (QueuedIn(was, source, l, leaves, leaves[i].id) && StatusAt(was, source, leaves[i].id) != Some(Evicted))
  {
    hide StatusAt, Refused;
  }

  // ---- previewing ----

  ghost function Having(was: Table, source: string): Item -> bool { (leaf: Item) => Held(was, source, leaf.id) }

  ghost function Wanting(was: Table, source: string): Item -> bool { (leaf: Item) => !Held(was, source, leaf.id) }

  ghost function Waiting(was: Table, source: string): Item -> bool {
    (leaf: Item) => StatusAt(was, source, leaf.id) == Some(Queued)
  }

  /** PreviewContainer, once the leaves are known. */
  method PreviewQueue(m: Manager, source: string, leaves: seq<Item>) returns (prev: ContainerPreview)
    requires m.Valid()
    ensures prev.toQueue == CountIf(leaves, Wanting(m.rows, source))
    ensures prev.alreadyHave == CountIf(leaves, Having(m.rows, source))
    ensures prev.toQueue + prev.alreadyHave == |leaves|
    ensures prev.totalBytes == SizeIf(leaves, Wanting(m.rows, source))
    ensures prev.seasons == |Parents(leaves, key => true)|
  {
    hide CountIf, SizeIf, StatusAt, Parents;
    var st := Statuses(m, source);
    prev := ContainerPreview(0, 0, 0, 0);
    var seasons: set<string> := {};
    ghost var w, h := Wanting(m.rows, source), Having(m.rows, source);
    ghost var any := (key: string) => true;
    NoLeaves(leaves, w);
    NoLeaves(leaves, h);
    NoneCounted(m.rows, source, leaves, any);
    for i := 0 to |leaves|
      invariant prev.toQueue == CountIf(leaves[..i], w) && prev.alreadyHave == CountIf(leaves[..i], h)
      invariant prev.toQueue + prev.alreadyHave == i && prev.totalBytes == SizeIf(leaves[..i], w)
      invariant seasons == Parents(leaves[..i], any)
    {
      var leaf := leaves[i];
      CountNext(leaves, w, i);
      CountNext(leaves, h, i);
      SizeNext(leaves, w, i);
      ParentsNext(leaves, any, i);
      if leaf.id in st && (st[leaf.id].Ready? || st[leaf.id].Downloading?) {
        prev := prev.(alreadyHave := prev.alreadyHave + 1);
      } else {
        prev := prev.(toQueue := prev.toQueue + 1, totalBytes := prev.totalBytes + leaf.size);
      }
      if leaf.parentId != "" {
        seasons := seasons + {leaf.parentId};
      }
    }
    assert leaves[..|leaves|] == leaves;
    prev := prev.(seasons := |seasons|);
  }

  /** The preview's count is what the pass queues or fails on, plus the leaves already waiting. */
  lemma {:induction false} PreviewForetells(was: Table, source: string, l: Layout, leaves: seq<Item>)
    ensures CountIf(leaves, Wanting(was, source)) ==
      CountIf(leaves, Queueable(was, source, l)) + CountIf(leaves, Failing(was, source, l))
      + CountIf(leaves, Waiting(was, source))
    ensures SizeIf(leaves, Wanting(was, source)) ==
      SizeIf(leaves, Queueable(was, source, l)) + SizeIf(leaves, Failing(was, source, l))
      + SizeIf(leaves, Waiting(was, source))
  {
    hide StatusAt, Refused;
    if leaves != [] {
      PreviewForetells(was, source, l, leaves[..|leaves| - 1]);
    }
  }

  // ---- whole containers ----

  /** QueueContainer. */
  method QueueContainer(m: Manager, l: Layout, b: Backend, source: string, id: string)
    returns (r: Result<BulkQueue, SourceError>)
    requires m.Valid()
    modifies m`rows
    ensures m.Valid()
    ensures r.Err? ==> m.rows == old(m.rows)
    ensures r.Ok? ==> b.meta(id).Ok?
    ensures r.Ok? ==>
      var leaves := Gathered(b, b.meta(id).value);
      && r.value.queued == CountIf(leaves, Queueable(old(m.rows), source, l))
      && r.value.skipped == CountIf(leaves, Skipping(old(m.rows), source))
      && r.value.failed == CountIf(leaves, Failing(old(m.rows), source, l))
      && r.value.queued + r.value.skipped + r.value.failed == |leaves|
      && r.value.totalBytes == SizeIf(leaves, Queueable(old(m.rows), source, l))
      && Outcome(old(m.rows), m.rows, source, l, leaves)
  {
    var gathered := GatherLeaves(b, id);
    if gathered.Err? {
      return Err(gathered.error);
    }
    var res := QueueLeaves(m, l, source, gathered.value.0);
    r := Ok(res);
  }
}

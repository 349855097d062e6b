/** Walking a source's hierarchy: every page of children, three levels deep. */
module Hierarchy {
  import opened Basics
  import opened Catalog

  const PAGE := 200
  const MAX_PAGES := 1000
  const MAX_DEPTH := 3

  datatype SourceError = Unreachable | Missing | NoChildren

  /** A source that honours offset and limit, and may fail on any page. */
  datatype Backend = Backend(
    meta: string -> Result<Item, SourceError>,
    children: string -> seq<Item>,
    fails: (string, nat) -> bool,
    listsChildren: bool)

  function Min(a: int, b: int): int { if a < b then a else b }

  /** ListChildren. */
  function Page(b: Backend, id: string, offset: nat): Result<seq<Item>, SourceError> {
    var all := b.children(id);
    if b.fails(id, offset) then Err(Unreachable)
    else Ok(all[Min(offset, |all|)..Min(offset + PAGE, |all|)])
  }

  /** What the walk sees of an item's children. */
  function Listed(b: Backend, id: string): (r: seq<Item>)
    ensures r <= b.children(id)
  {
    b.children(id)[..Min(|b.children(id)|, PAGE * MAX_PAGES)]
  }

  /** The pages that are asked for: one after each full page, up to the cap. */
  predicate Asked(b: Backend, id: string, offset: nat) {
    offset % PAGE == 0 && offset < PAGE * MAX_PAGES && offset <= |b.children(id)|
  }

  /** Some page asked for comes back as an error. */
  ghost predicate PageFails(b: Backend, id: string) {
    exists offset: nat :: Asked(b, id, offset) && b.fails(id, offset)
  }

  lemma AskedIs(b: Backend, id: string)
    ensures PageFails(b, id) <==>
      exists n: nat :: 200 * n < 200000 && 200 * n <= |b.children(id)| && b.fails(id, 200 * n)
  {
    if offset: nat :| Asked(b, id, offset) && b.fails(id, offset) {
      assert 200 * (offset / 200) == offset;
    }
    if n: nat :| 200 * n < 200000 && 200 * n <= |b.children(id)| && b.fails(id, 200 * n) {
      assert Asked(b, id, 200 * n);
    }
  }

  /** listAllChildren: the first children up to the cap, in order, unless a page fails. */
  method ListAllChildren(b: Backend, id: string) returns (r: Result<seq<Item>, SourceError>)
    ensures r.Ok? ==> r.value == Listed(b, id)
    ensures r.Err? <==> PageFails(b, id)
    ensures r.Ok? ==> r.value == b.children(id)[..if |b.children(id)| < 200000 then |b.children(id)| else 200000]
    ensures r.Err? <==> exists n: nat :: 200 * n < 200000 && 200 * n <= |b.children(id)| && b.fails(id, 200 * n)
  {
    AskedIs(b, id);
    var all: seq<Item> := [];
    var offset: nat := 0;
    while offset < PAGE * MAX_PAGES
      invariant offset <= |b.children(id)| && offset % PAGE == 0 && offset <= PAGE * MAX_PAGES
      invariant all == b.children(id)[..offset]
      invariant forall o: nat | Asked(b, id, o) && o < offset :: !b.fails(id, o)
      decreases PAGE * MAX_PAGES - offset
    {
      var batch := Page(b, id, offset);
      if batch.Err? {
        assert Asked(b, id, offset) && b.fails(id, offset);
        return Err(batch.error);
      }
      ghost var end := Min(offset + PAGE, |b.children(id)|);
      assert b.children(id)[..offset] + b.children(id)[offset..end] == b.children(id)[..end];
      all := all + batch.value;
      if |batch.value| < PAGE {
        return Ok(all);
      }
      offset := offset + PAGE;
    }
    r := Ok(all);
  }

  // ---- the walk ----

  predicate IsFile(c: Item) { c.container != [] }

  predicate Descends(c: Item) { c.container == [] && (c.kind.Show? || c.kind.Season?) }

  /** The files below an item, in the order they are met, going n levels down. */
  function Leaves(b: Backend, id: string, n: nat): seq<Item>
    decreases n, 0, 0
  {
    if n == 0 then [] else LeavesIn(b, Listed(b, id), n)
  }

  function LeavesIn(b: Backend, children: seq<Item>, n: nat): seq<Item>
    requires n > 0
    decreases n - 1, 1, |children|
  {
    if children == [] then []
    else LeavesIn(b, children[..|children| - 1], n) + LeavesOf(b, children[|children| - 1], n)
  }

  function LeavesOf(b: Backend, c: Item, n: nat): seq<Item>
    requires n > 0
    decreases n - 1, 1, 0
  {
    if IsFile(c) then [c] else if Descends(c) then Leaves(b, c.id, n - 1) else []
  }

  /** Some page that a walk n levels down asks for comes back as an error. */
  ghost predicate WalkFails(b: Backend, id: string, n: nat)
    decreases n
  {
    && n > 0
    && (PageFails(b, id)
        || exists i :: 0 <= i < |Listed(b, id)| && Descends(Listed(b, id)[i])
                       && WalkFails(b, Listed(b, id)[i].id, n - 1))
  }

  /** collectLeaves. It ends on any hierarchy, cyclic ones included. */
  method CollectLeaves(b: Backend, id: string, depth: nat) returns (r: Result<seq<Item>, SourceError>)
    requires depth <= MAX_DEPTH
    ensures r.Ok? ==> r.value == Leaves(b, id, MAX_DEPTH - depth)
    ensures r.Err? <==> WalkFails(b, id, MAX_DEPTH - depth)
    decreases MAX_DEPTH - depth
  {
    if depth >= MAX_DEPTH {
      return Ok([]);
    }
    var children := ListAllChildren(b, id);
    if children.Err? {
      return Err(children.error);
    }
    var n := MAX_DEPTH - depth;
    var leaves: seq<Item> := [];
    for i := 0 to |children.value|
      invariant leaves == LeavesIn(b, children.value[..i], n)
      invariant forall j | 0 <= j < i && Descends(children.value[j]) :: !WalkFails(b, children.value[j].id, n - 1)
    {
      var c := children.value[i];
      assert children.value[..i + 1][..i] == children.value[..i];
      if c.container != [] {
        leaves := leaves + [c];
      } else if c.kind.Show? || c.kind.Season? {
        var sub := CollectLeaves(b, c.id, depth + 1);
        if sub.Err? {
          return Err(sub.error);
        }
        leaves := leaves + sub.value;
      }
    }
    assert children.value[..|children.value|] == children.value;
    r := Ok(leaves);
  }

  /** gatherLeaves: the root itself when it is a file, else everything below it. */
  method GatherLeaves(b: Backend, id: string) returns (r: Result<(seq<Item>, Item), SourceError>)
    ensures r.Ok? ==> b.meta(id) == Ok(r.value.1)
    ensures r.Ok? ==> r.value.0 == Gathered(b, r.value.1)
    ensures b.meta(id).Err? ==> r == Err(b.meta(id).error)
    ensures b.meta(id).Ok? && !IsFile(b.meta(id).value) && !b.listsChildren ==> r == Err(NoChildren)
    ensures b.meta(id).Ok? && IsFile(b.meta(id).value) ==> r.Ok?
    ensures b.meta(id).Ok? && !IsFile(b.meta(id).value) && b.listsChildren ==>
      (r.Err? <==> WalkFails(b, b.meta(id).value.id, MAX_DEPTH))
  {
    var root := b.meta(id);
    if root.Err? {
      return Err(root.error);
    }
    if root.value.container != [] {
      return Ok(([root.value], root.value));
    }
    if !b.listsChildren {
      return Err(NoChildren);
    }
    var leaves := CollectLeaves(b, root.value.id, 0);
    if leaves.Err? {
      return Err(leaves.error);
    }
    r := Ok((leaves.value, root.value));
  }

  function Gathered(b: Backend, root: Item): seq<Item> {
    if IsFile(root) then [root] else Leaves(b, root.id, MAX_DEPTH)
  }

  // ---- the walk is the preorder of the hierarchy ----

  /** A position in the hierarchy: which child at each level. */
  type Path = seq<nat>

  /** The position holds a file, and everything above it is a show or a season, at most n levels in all. */
  predicate FileAt(b: Backend, id: string, n: nat, p: Path): (r: bool)
    ensures r ==> n > 0 && p != []
    decreases n
  {
    && n > 0 && p != [] && p[0] < |Listed(b, id)|
    && var c := Listed(b, id)[p[0]];
       if |p| == 1 then IsFile(c) else Descends(c) && FileAt(b, c.id, n - 1, p[1..])
  }

  function ItemAt(b: Backend, id: string, n: nat, p: Path): Item
    requires FileAt(b, id, n, p)
    decreases n
  {
    var c := Listed(b, id)[p[0]];
    if |p| == 1 then c else ItemAt(b, c.id, n - 1, p[1..])
  }

  /** Preorder: the positions differ first where p takes the earlier child. */
  predicate Before(p: Path, q: Path) {
    p != [] && q != [] && (p[0] < q[0] || (p[0] == q[0] && Before(p[1..], q[1..])))
  }

  /** The positions of the files met, in the same order. */
  function Positions(b: Backend, id: string, n: nat): seq<Path>
    decreases n, 0, 0
  {
    if n == 0 then [] else PositionsIn(b, Listed(b, id), n)
  }

  function PositionsIn(b: Backend, children: seq<Item>, n: nat): seq<Path>
    requires n > 0
    decreases n - 1, 1, |children|
  {
    if children == [] then []
    else
      var last := |children| - 1;
      PositionsIn(b, children[..last], n) + PositionsOf(b, children[last], last, n)
  }

  function PositionsOf(b: Backend, c: Item, at: nat, n: nat): seq<Path>
    requires n > 0
    decreases n - 1, 1, 0
  {
    if IsFile(c) then [[at]] else if Descends(c) then Prefixed(at, Positions(b, c.id, n - 1)) else []
  }

  function Prefixed(at: nat, paths: seq<Path>): (r: seq<Path>)
    ensures |r| == |paths| && forall i | 0 <= i < |r| :: r[i] == [at] + paths[i]
  {
    seq(|paths|, i requires 0 <= i < |paths| => [at] + paths[i])
  }

  /** The list names exactly the positions of files, each once, in preorder, and the walk returns the items there. */
  ghost predicate Faithful(b: Backend, id: string, n: nat, paths: seq<Path>, leaves: seq<Item>) {
    && |paths| == |leaves|
    && (forall i | 0 <= i < |paths| :: FileAt(b, id, n, paths[i]) && leaves[i] == ItemAt(b, id, n, paths[i]))
    && (forall i, j | 0 <= i < j < |paths| :: Before(paths[i], paths[j]))
    && (forall p: Path | FileAt(b, id, n, p) :: p in paths)
  }

  /** The same, for the children before position k only. */
  ghost predicate FaithfulTo(b: Backend, id: string, n: nat, k: nat, paths: seq<Path>, leaves: seq<Item>) {
    && |paths| == |leaves|
    && (forall i | 0 <= i < |paths| ::
          FileAt(b, id, n, paths[i]) && paths[i][0] < k && leaves[i] == ItemAt(b, id, n, paths[i]))
    && (forall i, j | 0 <= i < j < |paths| :: Before(paths[i], paths[j]))
    && (forall p: Path | FileAt(b, id, n, p) && p[0] < k :: p in paths)
  }

  lemma {:induction false} WalkIsPreorder(b: Backend, id: string, n: nat)
    ensures Faithful(b, id, n, Positions(b, id, n), Leaves(b, id, n))
    decreases n, 0, 0
  {
    if n > 0 {
      var all := Listed(b, id);
      WalkTo(b, id, n, |all|);
      assert all[..|all|] == all;
      hide Listed, Before;
    }
  }

  /** A show or season without a file of its own. */
  predicate Folder(c: Item) { c.container == [] && (c.kind == Show || c.kind == Season) }

  /**
   * What is gathered: the root if it is a file; else every file among its children, the children of its shows
   * and seasons, and the children of theirs, and nothing deeper, in preorder.
   */
  lemma {:induction false} ThreeLevels(b: Backend, root: Item)
    ensures root.container != [] ==> Gathered(b, root) == [root]
    ensures root.container == [] ==> Faithful(b, root.id, 3, Positions(b, root.id, 3), Gathered(b, root))
    ensures forall p: Path :: FileAt(b, root.id, 3, p) <==>
      && 1 <= |p| <= 3 && p[0] < |Listed(b, root.id)|
      && var c := Listed(b, root.id)[p[0]];
         if |p| == 1 then c.container != []
         else
           && Folder(c) && p[1] < |Listed(b, c.id)|
           && var d := Listed(b, c.id)[p[1]];
              if |p| == 2 then d.container != []
              else Folder(d) && p[2] < |Listed(b, d.id)| && Listed(b, d.id)[p[2]].container != []
    ensures forall c: Item :: Folder(c) <==> c.container == [] && (c.kind == Show || c.kind == Season)
  {
    WalkIsPreorder(b, root.id, 3);
    forall p: Path
      ensures FileAt(b, root.id, 3, p) <==>
        && 1 <= |p| <= 3 && p[0] < |Listed(b, root.id)|
        && var c := Listed(b, root.id)[p[0]];
           if |p| == 1 then c.container != []
           else
             && Folder(c) && p[1] < |Listed(b, c.id)|
             && var d := Listed(b, c.id)[p[1]];
                if |p| == 2 then d.container != []
                else Folder(d) && p[2] < |Listed(b, d.id)| && Listed(b, d.id)[p[2]].container != []
    {
      Unfolded(b, root.id, p);
    }
    hide Faithful, Positions, FileAt, Listed;
  }

  lemma Unfolded(b: Backend, id: string, p: Path)
    ensures FileAt(b, id, 3, p) <==>
      && 1 <= |p| <= 3 && p[0] < |Listed(b, id)|
      && var c := Listed(b, id)[p[0]];
         if |p| == 1 then c.container != []
         else
           && Folder(c) && p[1] < |Listed(b, c.id)|
           && var d := Listed(b, c.id)[p[1]];
              if |p| == 2 then d.container != []
              else Folder(d) && p[2] < |Listed(b, d.id)| && Listed(b, d.id)[p[2]].container != []
  {
    hide Listed;
    if |p| >= 2 && p[0] < |Listed(b, id)| {
      var c := Listed(b, id)[p[0]];
      assert FileAt(b, id, 3, p) <==> Descends(c) && FileAt(b, c.id, 2, p[1..]);
      if p[1] < |Listed(b, c.id)| && |p| >= 3 {
        var d := Listed(b, c.id)[p[1]];
        assert p[1..][1..] == p[2..];
        assert FileAt(b, c.id, 2, p[1..]) <==> Descends(d) && FileAt(b, d.id, 1, p[2..]);
        assert FileAt(b, d.id, 1, p[2..]) <==> |p| == 3 && p[2] < |Listed(b, d.id)| && IsFile(Listed(b, d.id)[p[2]]);
      }
    }
  }

  lemma {:induction false} WalkTo(b: Backend, id: string, n: nat, k: nat)
    requires n > 0 && k <= |Listed(b, id)|
    ensures FaithfulTo(b, id, n, k, PositionsIn(b, Listed(b, id)[..k], n), LeavesIn(b, Listed(b, id)[..k], n))
    decreases n - 1, 1, k
  {
    if k > 0 {
      var c := Listed(b, id)[k - 1];
      var some := Listed(b, id)[..k];
      WalkTo(b, id, n, k - 1);
      assert some[..k - 1] == Listed(b, id)[..k - 1];
      var paths, leaves := PositionsIn(b, some[..k - 1], n), LeavesIn(b, some[..k - 1], n);
      WalkChild(b, id, n, k - 1);
      var own, files := PositionsOf(b, c, k - 1, n), LeavesOf(b, c, n);
      hide Listed, PositionsOf, LeavesOf, FileAt, ItemAt;
      Extend(b, id, n, k - 1, paths, leaves, own, files);
    }
  }

  /** What one child adds: exactly the file positions that start there. */
  ghost predicate OwnFiles(b: Backend, id: string, n: nat, at: nat, own: seq<Path>, files: seq<Item>) {
    && |own| == |files|
    && (forall i | 0 <= i < |own| ::
          FileAt(b, id, n, own[i]) && own[i][0] == at && files[i] == ItemAt(b, id, n, own[i]))
    && (forall i, j | 0 <= i < j < |own| :: Before(own[i], own[j]))
    && (forall p: Path | FileAt(b, id, n, p) && p[0] == at :: p in own)
  }

  lemma Extend(b: Backend, id: string, n: nat, k: nat, paths: seq<Path>, leaves: seq<Item>, own: seq<Path>,
               files: seq<Item>)
    requires FaithfulTo(b, id, n, k, paths, leaves) && OwnFiles(b, id, n, k, own, files)
    ensures FaithfulTo(b, id, n, k + 1, paths + own, leaves + files)
  {
    hide ItemAt;
    var all := paths + own;
    forall i, j | 0 <= i < j < |all|
      ensures Before(all[i], all[j])
    {
      if i < |paths| <= j {
        assert all[i] == paths[i] && all[j] == own[j - |paths|];
        assert FileAt(b, id, n, paths[i]) && FileAt(b, id, n, own[j - |paths|]);
      }
    }
  }

  lemma {:induction false} WalkChild(b: Backend, id: string, n: nat, at: nat)
    requires n > 0 && at < |Listed(b, id)|
    ensures var c := Listed(b, id)[at]; OwnFiles(b, id, n, at, PositionsOf(b, c, at, n), LeavesOf(b, c, n))
    decreases n - 1, 1, 0
  {
    hide Listed, FileAt, Before, ItemAt, OwnFiles, Faithful, Leaves, Positions;
    var c := Listed(b, id)[at];
    if IsFile(c) {
      OneFile(b, id, n, at);
    } else if Descends(c) {
      WalkIsPreorder(b, c.id, n - 1);
      Deeper(b, id, n, at, Positions(b, c.id, n - 1), Leaves(b, c.id, n - 1));
    } else {
      NoFile(b, id, n, at);
    }
  }

  lemma NoFile(b: Backend, id: string, n: nat, at: nat)
    requires n > 0 && at < |Listed(b, id)| && !IsFile(Listed(b, id)[at]) && !Descends(Listed(b, id)[at])
    ensures OwnFiles(b, id, n, at, [], [])
  {
    hide Listed;
  }

  lemma OneFile(b: Backend, id: string, n: nat, at: nat)
    requires n > 0 && at < |Listed(b, id)| && IsFile(Listed(b, id)[at])
    ensures OwnFiles(b, id, n, at, [[at]], [Listed(b, id)[at]])
  {
    hide Listed;
    forall p: Path | FileAt(b, id, n, p) && p[0] == at
      ensures p in [[at]]
    {
      assert p == [at];
    }
  }

  lemma DeeperAt(b: Backend, id: string, n: nat, at: nat, q: Path)
    requires n > 0 && at < |Listed(b, id)| && Descends(Listed(b, id)[at])
    ensures FileAt(b, id, n, [at] + q) <==> FileAt(b, Listed(b, id)[at].id, n - 1, q)
    ensures FileAt(b, id, n, [at] + q) ==> ItemAt(b, id, n, [at] + q) == ItemAt(b, Listed(b, id)[at].id, n - 1, q)
  {
    hide Listed;
    assert ([at] + q)[1..] == q;
  }

  lemma DeeperBefore(at: nat, p: Path, q: Path)
    ensures Before([at] + p, [at] + q) <==> Before(p, q)
  {
    assert ([at] + p)[1..] == p && ([at] + q)[1..] == q;
  }

  lemma {:induction false} Deeper(b: Backend, id: string, n: nat, at: nat, paths: seq<Path>, leaves: seq<Item>)
    requires n > 0 && at < |Listed(b, id)| && Descends(Listed(b, id)[at])
    requires Faithful(b, Listed(b, id)[at].id, n - 1, paths, leaves)
    ensures OwnFiles(b, id, n, at, Prefixed(at, paths), leaves)
  {
    hide Listed, FileAt, ItemAt, Before, Descends;
    var c := Listed(b, id)[at];
    var own := Prefixed(at, paths);
    forall i | 0 <= i < |own|
      ensures FileAt(b, id, n, own[i]) && own[i][0] == at && leaves[i] == ItemAt(b, id, n, own[i])
    {
      DeeperAt(b, id, n, at, paths[i]);
    }
    forall i, j | 0 <= i < j < |own|
      ensures Before(own[i], own[j])
    {
      DeeperBefore(at, paths[i], paths[j]);
    }
    forall p: Path | FileAt(b, id, n, p) && p[0] == at
      ensures p in own
    {
      assert p == [at] + p[1..];
      DeeperAt(b, id, n, at, p[1..]);
      var i :| 0 <= i < |paths| && paths[i] == p[1..];
      assert own[i] == p;
    }
  }
}

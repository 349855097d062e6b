/** path/filepath, lexically: Clean, Join, Abs, Rel, and the storage manager's guard built on them. */
module Paths {
  import opened Basics
  import opened Runes

  const SLASH := Rune('/')
  const DOT: Str := [Rune('.')]
  const DOTDOT: Str := [Rune('.'), Rune('.')]

  predicate NoSlash(s: Str) { SLASH !in s }

  /** A component that Clean keeps as it is. */
  predicate Name(s: Str) { s != [] && s != DOT && s != DOTDOT && NoSlash(s) }

  predicate Names(parts: seq<Str>) { forall i | 0 <= i < |parts| :: Name(parts[i]) }

  /** strings.Split(s, "/"). */
  function Split(s: Str): (parts: seq<Str>)
    ensures |parts| >= 1
    ensures forall i | 0 <= i < |parts| :: NoSlash(parts[i])
  {
    if s == [] then [[]]
    else if s[0] == SLASH then [[]] + Split(s[1..])
    else var rest := Split(s[1..]); [[s[0]] + rest[0]] + rest[1..]
  }

  predicate Rooted(s: Str) { s != [] && s[0] == SLASH }

  /** One component processed against the stack of those kept so far. */
  function Push(stack: seq<Str>, part: Str, rooted: bool): seq<Str> {
    if part == [] || part == DOT then stack
    else if part == DOTDOT then
      if stack != [] && stack[|stack| - 1] != DOTDOT then stack[..|stack| - 1]
      else if rooted then stack
      else stack + [DOTDOT]
    else stack + [part]
  }

  function Fold(parts: seq<Str>, stack: seq<Str>, rooted: bool): seq<Str> {
    if parts == [] then stack else Fold(parts[1..], Push(stack, parts[0], rooted), rooted)
  }

  /** A cleaned path: absolute or not, and its components. */
  datatype Cleaned = Cleaned(rooted: bool, parts: seq<Str>)

  function Clean(s: Str): Cleaned {
    Cleaned(Rooted(s), Fold(Split(s), [], Rooted(s)))
  }

  function JoinParts(parts: seq<Str>): Str {
    if parts == [] then [] else if |parts| == 1 then parts[0] else parts[0] + [SLASH] + JoinParts(parts[1..])
  }

  /** The string filepath.Clean returns. */
  function Render(c: Cleaned): Str {
    if c.rooted then [SLASH] + JoinParts(c.parts) else if c.parts == [] then DOT else JoinParts(c.parts)
  }

  /** filepath.Join for a first element that is not empty. */
  function Join(elements: seq<Str>): Str
    requires elements != [] && elements[0] != []
  {
    Render(Clean(JoinParts(elements)))
  }

  /** The components of filepath.Abs, for a process working in the absolute directory cwd. */
  function Abs(cwd: Str, s: Str): seq<Str>
    requires Rooted(cwd)
  {
    if Rooted(s) then Clean(s).parts else Clean(cwd + [SLASH] + s).parts
  }

  function CommonPrefix(a: seq<Str>, b: seq<Str>): (n: nat)
    ensures n <= |a| && n <= |b| && a[..n] == b[..n]
    ensures n < |a| && n < |b| ==> a[n] != b[n]
  {
    if a == [] || b == [] || a[0] != b[0] then 0 else 1 + CommonPrefix(a[1..], b[1..])
  }

  /** filepath.Rel between two absolute cleaned paths, by components: climb out, then descend. */
  function Rel(base: seq<Str>, target: seq<Str>): seq<Str> {
    var n := CommonPrefix(base, target);
    seq(|base| - n, _ => DOTDOT) + target[n..]
  }

  datatype RootError = EmptyPath

  /** pathIsUnderRoot. */
  function PathIsUnderRoot(cwd: Str, root: Str, candidate: Str): Result<bool, RootError>
    requires Rooted(cwd)
  {
    if root == [] || candidate == [] then Err(EmptyPath)
    else
      var rel := Rel(Abs(cwd, root), Abs(cwd, candidate));
      Ok(rel != [] && rel[0] != DOTDOT)
  }

  // ---- the guard is exact ----

  lemma {:induction false} FoldNames(parts: seq<Str>, stack: seq<Str>)
    requires Names(stack) && forall i | 0 <= i < |parts| :: NoSlash(parts[i])
    ensures Names(Fold(parts, stack, true))
  {
    if parts != [] {
      FoldNames(parts[1..], Push(stack, parts[0], true));
    }
  }

  lemma AbsNames(cwd: Str, s: Str)
    requires Rooted(cwd)
    ensures Names(Abs(cwd, s))
  {
    var p := if Rooted(s) then s else cwd + [SLASH] + s;
    FoldNames(Split(p), []);
  }

  /** The guard accepts exactly the paths strictly below the root, component by component. */
  lemma UnderRootIff(cwd: Str, root: Str, candidate: Str)
    requires Rooted(cwd)
    ensures PathIsUnderRoot(cwd, root, candidate) == Ok(true) <==>
      root != [] && candidate != [] && Abs(cwd, root) < Abs(cwd, candidate)
    ensures PathIsUnderRoot(cwd, root, candidate) == Ok(false) <==>
      root != [] && candidate != [] && !(Abs(cwd, root) < Abs(cwd, candidate))
  {
    if root != [] && candidate != [] {
      var base, target := Abs(cwd, root), Abs(cwd, candidate);
      AbsNames(cwd, root);
      AbsNames(cwd, candidate);
      hide Abs, Clean;
      var n := CommonPrefix(base, target);
      assert n < |base| && n < |target| ==> base[n] != target[n];
      if n == |base| {
        assert n < |target| ==> Rel(base, target)[0] == target[n];
      } else {
        assert Rel(base, target)[0] == DOTDOT;
      }
    }
  }

  // ---- Clean and Join ----

  lemma {:induction false} FoldSplit(a: seq<Str>, b: seq<Str>, stack: seq<Str>, rooted: bool)
    ensures Fold(a + b, stack, rooted) == Fold(b, Fold(a, stack, rooted), rooted)
  {
    if a == [] {
      assert a + b == b;
    } else {
      assert (a + b)[1..] == a[1..] + b;
      FoldSplit(a[1..], b, Push(stack, a[0], rooted), rooted);
    }
  }

  lemma {:induction false} FoldKeepsNames(parts: seq<Str>, stack: seq<Str>, rooted: bool)
    requires Names(parts)
    ensures Fold(parts, stack, rooted) == stack + parts
  {
    if parts == [] {
      assert stack + parts == stack;
    } else {
      assert Name(parts[0]);
      assert stack + [parts[0]] + parts[1..] == stack + parts;
      FoldKeepsNames(parts[1..], stack + [parts[0]], rooted);
    }
  }

  lemma {:induction false} SplitJoin(a: Str, b: Str)
    ensures Split(a + [SLASH] + b) == Split(a) + Split(b)
  {
    if a == [] {
      assert a + [SLASH] + b == [SLASH] + b;
      assert ([SLASH] + b)[1..] == b;
    } else {
      assert (a + [SLASH] + b)[1..] == a[1..] + [SLASH] + b;
      SplitJoin(a[1..], b);
    }
  }

  lemma {:induction false} SplitOne(s: Str)
    requires NoSlash(s)
    ensures Split(s) == [s]
  {
    if s != [] {
      assert s[0] in s && NoSlash(s[1..]);
      SplitOne(s[1..]);
      assert [s[0]] + s[1..] == s;
    }
  }

  lemma {:induction false} SplitJoinParts(parts: seq<Str>)
    requires parts != [] && forall i | 0 <= i < |parts| :: NoSlash(parts[i])
    ensures Split(JoinParts(parts)) == parts
  {
    if |parts| == 1 {
      SplitOne(parts[0]);
    } else {
      SplitJoinParts(parts[1..]);
      SplitOne(parts[0]);
      SplitJoin(parts[0], JoinParts(parts[1..]));
    }
  }

  /** What a stack of kept components never holds. */
  predicate Kept(parts: seq<Str>) {
    forall i | 0 <= i < |parts| :: parts[i] != [] && parts[i] != DOT && NoSlash(parts[i])
  }

  lemma {:induction false} FoldKept(parts: seq<Str>, stack: seq<Str>, rooted: bool)
    requires Kept(stack) && forall i | 0 <= i < |parts| :: NoSlash(parts[i])
    ensures Kept(Fold(parts, stack, rooted))
  {
    if parts != [] {
      FoldKept(parts[1..], Push(stack, parts[0], rooted), rooted);
    }
  }

  lemma PushLast(r: seq<Str>, s: seq<Str>, x: Str, rooted: bool)
    ensures Fold(r + [x], s, rooted) == Push(Fold(r, s, rooted), x, rooted)
  {
    FoldSplit(r, [x], s, rooted);
  }

  /** One component at a time: cleaning a relative path first, or walking it from s directly. */
  lemma PushAhead(r: seq<Str>, s: seq<Str>, x: Str)
    requires Kept(r)
    ensures Fold(Push(r, x, false), s, true) == Push(Fold(r, s, true), x, true)
  {
    PushLast(r, s, x, true);
    if x == DOTDOT && r != [] && r[|r| - 1] != DOTDOT {
      var shorter := r[..|r| - 1];
      assert r == shorter + [r[|r| - 1]];
      PushLast(shorter, s, r[|r| - 1], true);
    }
  }

  /** Cleaning a relative path before resolving it does not change where it leads. */
  lemma {:induction false} CleanBeforeResolving(parts: seq<Str>, r: seq<Str>, s: seq<Str>)
    requires Kept(r) && forall i | 0 <= i < |parts| :: NoSlash(parts[i])
    ensures Fold(Fold(parts, r, false), s, true) == Fold(parts, Fold(r, s, true), true)
  {
    if parts != [] {
      PushAhead(r, s, parts[0]);
      CleanBeforeResolving(parts[1..], Push(r, parts[0], false), s);
    }
  }

  lemma JoinPartsHead(parts: seq<Str>)
    requires Kept(parts) && parts != []
    ensures JoinParts(parts) != [] && !Rooted(JoinParts(parts))
  {
    assert parts[0][0] in parts[0];
    assert JoinParts(parts)[0] == parts[0][0];
  }

  lemma AbsFold(cwd: Str, s: Str)
    requires Rooted(cwd)
    ensures Abs(cwd, s) == Fold(Split(s), if Rooted(s) then [] else Fold(Split(cwd), [], true), true)
  {
    if !Rooted(s) {
      SplitJoin(cwd, s);
      FoldSplit(Split(cwd), Split(s), [], true);
    }
  }

  lemma AbsRendered(cwd: Str, c: Cleaned)
    requires Rooted(cwd) && Kept(c.parts)
    requires c.rooted ==> Names(c.parts)
    ensures Render(c) != []
    ensures Abs(cwd, Render(c)) == if c.rooted then c.parts else Fold(c.parts, Fold(Split(cwd), [], true), true)
  {
    AbsFold(cwd, Render(c));
    if c.parts == [] {
      SplitOne(DOT);
    } else {
      JoinPartsHead(c.parts);
      SplitJoinParts(c.parts);
    }
    if c.rooted {
      FoldKeepsNames(c.parts, [], true);
      assert [] + c.parts == c.parts;
      assert Render(c)[1..] == JoinParts(c.parts);
      assert ([[]] + c.parts)[1..] == c.parts;
    }
  }

  lemma JoinIsClean(root: Str, tail: Str)
    requires root != []
    ensures Join([root, tail]) == Render(Clean(root + [SLASH] + tail)) && Rooted(root + [SLASH] + tail) == Rooted(root)
    ensures Split(root + [SLASH] + tail) == Split(root) + Split(tail)
  {
    SplitJoin(root, tail);
    hide Clean, Split, Render;
    assert [root, tail][1..] == [tail];
    assert JoinParts([tail]) == tail;
    assert JoinParts([root, tail]) == root + [SLASH] + tail;
  }

  /** filepath.Join leads where walking its tail from the resolved root leads. */
  lemma JoinResolves(cwd: Str, root: Str, tail: Str)
    requires Rooted(cwd) && root != []
    ensures Join([root, tail]) != []
    ensures Abs(cwd, Join([root, tail])) == Fold(Split(tail), Abs(cwd, root), true)
  {
    var joined := root + [SLASH] + tail;
    JoinIsClean(root, tail);
    var parts := Split(joined);
    var c := Clean(joined);
    var base := if Rooted(root) then [] else Fold(Split(cwd), [], true);
    assert c == Cleaned(Rooted(root), Fold(parts, [], Rooted(root)));
    hide Clean, Join, Render, Abs, Split;
    FoldKept(parts, [], Rooted(root));
    if Rooted(root) {
      FoldNames(parts, []);
    } else {
      CleanBeforeResolving(parts, [], base);
    }
    AbsRendered(cwd, c);
    AbsFold(cwd, root);
    FoldSplit(Split(root), Split(tail), base, true);
    assert Fold([], base, true) == base;
  }

  lemma JoinTwo(root: Str, names: seq<Str>)
    requires names != []
    ensures JoinParts([root] + names) == JoinParts([root, JoinParts(names)])
  {
    assert ([root] + names)[1..] == names && [root, JoinParts(names)][1..] == [JoinParts(names)];
  }

  /** Proper components end up straight below the directory the root resolves to. */
  lemma AbsJoin(cwd: Str, root: Str, names: seq<Str>)
    requires Rooted(cwd) && root != [] && Names(names) && names != []
    ensures Join([root] + names) != []
    ensures Abs(cwd, Join([root] + names)) == Abs(cwd, root) + names
  {
    JoinTwo(root, names);
    JoinResolves(cwd, root, JoinParts(names));
    SplitJoinParts(names);
    FoldKeepsNames(names, Abs(cwd, root), true);
  }

  /** So the guard accepts whatever was joined below the root. */
  lemma JoinedIsUnderRoot(cwd: Str, root: Str, names: seq<Str>)
    requires Rooted(cwd) && root != [] && Names(names) && names != []
    ensures PathIsUnderRoot(cwd, root, Join([root] + names)) == Ok(true)
  {
    AbsJoin(cwd, root, names);
    UnderRootIff(cwd, root, Join([root] + names));
  }

  lemma {:induction false} SplitPrefix(a: Str, s: Str)
    requires NoSlash(a)
    ensures Split(a + s) == [a + Split(s)[0]] + Split(s)[1..]
  {
    if a == [] {
      assert a + s == s && [] + Split(s)[0] == Split(s)[0];
    } else {
      assert a[0] in a && NoSlash(a[1..]);
      assert (a + s)[1..] == a[1..] + s && [a[0]] + (a[1..] + Split(s)[0]) == a + Split(s)[0];
      SplitPrefix(a[1..], s);
    }
  }

  lemma {:induction false} SplitJoinLast(dirs: seq<Str>, last: Str)
    requires forall i | 0 <= i < |dirs| :: NoSlash(dirs[i])
    ensures Split(JoinParts(dirs + [last])) == dirs + Split(last)
  {
    if dirs == [] {
      assert dirs + [last] == [last] && dirs + Split(last) == Split(last);
    } else {
      assert (dirs + [last])[1..] == dirs[1..] + [last] && dirs + Split(last) == [dirs[0]] + (dirs[1..] + Split(last));
      SplitJoinLast(dirs[1..], last);
      SplitOne(dirs[0]);
      SplitJoin(dirs[0], JoinParts(dirs[1..] + [last]));
    }
  }

  /** With separators in the last element, the walk goes on from where its first part would be. */
  lemma JoinWalks(cwd: Str, root: Str, dirs: seq<Str>, stem: Str, ext: Str)
    requires Rooted(cwd) && root != [] && Names(dirs) && NoSlash(stem) && Name(stem + Split(ext)[0])
    ensures var p := Join([root] + (dirs + [stem + ext]));
      p != [] && Abs(cwd, p) == Fold(Split(ext)[1..], Abs(cwd, root) + (dirs + [stem + Split(ext)[0]]), true)
  {
    var names, start, rest := dirs + [stem + ext], dirs + [stem + Split(ext)[0]], Split(ext)[1..];
    assert Names(start) && forall i | 0 <= i < |dirs| :: NoSlash(dirs[i]) by {
      assert forall i | 0 <= i < |dirs| :: Name(dirs[i]);
    }
    hide *;
    JoinTwo(root, names);
    JoinResolves(cwd, root, JoinParts(names));
    SplitJoinLast(dirs, stem + ext);
    SplitPrefix(stem, ext);
    Regrouped(dirs, stem + Split(ext)[0], rest);
    FoldSplit(start, rest, Abs(cwd, root), true);
    FoldKeepsNames(start, Abs(cwd, root), true);
  }

  lemma Regrouped(dirs: seq<Str>, x: Str, rest: seq<Str>)
    ensures dirs + ([x] + rest) == dirs + [x] + rest
  {
  }

  function Ups(k: nat): (r: seq<Str>)
    ensures |r| == k
  {
    if k == 0 then [] else [DOTDOT] + Ups(k - 1)
  }

  /** As many ".." as there are components climb back to the top. */
  lemma {:induction false} FoldUps(stack: seq<Str>, k: nat)
    requires Names(stack) && k <= |stack|
    ensures Fold(Ups(k), stack, true) == stack[..|stack| - k]
  {
    if k == 0 {
      assert stack[..|stack|] == stack;
    } else {
      var shorter := stack[..|stack| - 1];
      assert Name(stack[|stack| - 1]);
      assert Ups(k)[1..] == Ups(k - 1);
      FoldUps(shorter, k - 1);
    }
  }
}

/** An extension with separators goes on walking where the file would have been: exactly where it ends up. */
module Extensions {
  import opened Basics
  import opened Runes
  import opened Catalog
  import opened Paths
  import opened Layout
  import Text
  import Titles

  /** The directories below the root that an item's file belongs in. */
  function Dirs(l: Layout, item: Item): seq<Str> {
    if item.kind.Episode? && item.season >= 0 then
      [Lit(DirOr(l.showsDir, "shows")), Titles.Sanitized(item.showTitle), Lit("Season " + Padded(item.season))]
    else [Lit(Shelf(l, item))]
  }

  /** The file's name up to the dot before its extension. */
  function FullStem(item: Item): Str {
    if item.kind.Episode? && item.season >= 0 && item.episode >= 0 then
      Titles.Sanitized(item.showTitle) + Lit(EpisodeNumber(item.season, item.episode)) + EpisodeTitle(item)
    else Stem(item)
  }

  /** Where the plain file would be, with the extension's first component as its extension. */
  function Start(l: Layout, item: Item): seq<Str> {
    Dirs(l, item) + [FullStem(item) + DOT + Split(Extension(item.container))[0]]
  }

  /** The rest of the extension. */
  function Steps(item: Item): seq<Str> { Split(Extension(item.container))[1..] }

  lemma BelowIs(l: Layout, item: Item)
    requires Below(l, item).Ok?
    ensures Below(l, item).value == Dirs(l, item) + [FullStem(item) + DOT + Extension(item.container)]
  {
    hide Titles.Sanitized, Lit, Extension, EpisodeTitle, EpisodeNumber, Padded;
  }

  /** The same item with an extension that has no separator. */
  function Plain(item: Item): Item { item.(container := Lit("x")) }

  lemma PlainBelow(l: Layout, item: Item)
    requires Below(l, item).Ok?
    ensures Below(l, Plain(item)).Ok? && Extension(Plain(item).container) == Lit("x")
    ensures Dirs(l, Plain(item)) == Dirs(l, item) && FullStem(Plain(item)) == FullStem(item)
  {
    hide Titles.Sanitized, EpisodeNumber, Padded;
    assert ToLower(Lit("x")) == Lit("x");
  }

  lemma VisibleTitle(s: Str)
    requires Titles.Sanitized(s) != []
    ensures Titles.Sanitized(s)[0] != Rune('.')
  {
    Titles.SanitizedNormal(s);
    hide Titles.Sanitized;
  }

  lemma VisibleStem(l: Layout, item: Item)
    requires Below(l, item).Ok?
    ensures FullStem(item) != [] && FullStem(item)[0] != Rune('.')
  {
    hide Titles.Sanitized, Lit, Extension, EpisodeTitle, EpisodeNumber, Padded;
    VisibleTitle(if item.kind.Episode? then item.showTitle else item.title);
  }

  lemma StartProper(l: Layout, item: Item)
    requires DirsOk(l) && Below(l, item).Ok?
    ensures Names(Start(l, item)) && Names(Dirs(l, item)) && NoSlash(FullStem(item) + DOT)
  {
    PlainBelow(l, item);
    VisibleStem(l, item);
    var dirs, stem, x := Dirs(l, item), FullStem(item), Split(Extension(item.container))[0];
    assert NoSlash(Lit("x"));
    BelowProper(l, Plain(item));
    BelowIs(l, Plain(item));
    hide Dirs, FullStem, DirsOk, Below, Extension, Split, Lit;
    Front(dirs, stem + DOT + Lit("x"));
    Stems(stem, Lit("x"), x);
  }

  lemma Front(dirs: seq<Str>, last: Str)
    requires Names(dirs + [last])
    ensures Names(dirs) && Name(last)
  {
    assert forall i | 0 <= i < |dirs| :: (dirs + [last])[i] == dirs[i];
    assert (dirs + [last])[|dirs|] == last;
  }

  lemma Stems(stem: Str, x: Str, y: Str)
    requires NoSlash(stem + DOT + x) && stem != [] && stem[0] != Rune('.') && NoSlash(y)
    ensures NoSlash(stem + DOT) && Name(stem + DOT + y)
  {
    assert forall c | c in stem + DOT :: c in stem + DOT + x;
    assert (stem + DOT + y)[0] == stem[0];
  }

  /** Whatever the extension, the file is where walking its further components from the plain file's place leads. */
  lemma {:induction false} ExtensionWalks(cwd: Str, l: Layout, item: Item)
    requires Rooted(cwd) && DirsOk(l) && Final(l, item).Ok?
    ensures Final(l, item).value != []
    ensures Abs(cwd, Final(l, item).value) == Fold(Steps(item), Abs(cwd, l.root) + Start(l, item), true)
  {
    BelowIs(l, item);
    StartProper(l, item);
    var dirs, stem, ext := Dirs(l, item), FullStem(item) + DOT, Extension(item.container);
    hide Dirs, FullStem, DirsOk, Below, Extension, Abs, Join, Fold, Split;
    Front(dirs, stem + Split(ext)[0]);
    JoinWalks(cwd, l.root, dirs, stem, ext);
  }

  /** The guard accepts exactly the walks that end strictly below the root. */
  lemma {:induction false} GuardAcceptsIff(cwd: Str, l: Layout, item: Item)
    requires Rooted(cwd) && DirsOk(l) && Final(l, item).Ok?
    ensures PathIsUnderRoot(cwd, l.root, Final(l, item).value) == Ok(true) <==>
      Abs(cwd, l.root) < Fold(Steps(item), Abs(cwd, l.root) + Start(l, item), true)
  {
    ExtensionWalks(cwd, l, item);
    UnderRootIff(cwd, l.root, Final(l, item).value);
    hide Abs, Fold, Start, Steps, DirsOk;
  }

  /** How deep below the root a walk ends that starts d deep; None once it has climbed above the root. */
  function Depth(parts: seq<Str>, d: nat): Option<nat> {
    if parts == [] then Some(d)
    else if parts[0] == [] || parts[0] == DOT then Depth(parts[1..], d)
    else if parts[0] == DOTDOT then if d == 0 then None else Depth(parts[1..], d - 1)
    else Depth(parts[1..], d + 1)
  }

  lemma {:induction false} FoldAbove(parts: seq<Str>, base: seq<Str>, stack: seq<Str>)
    requires Names(base) && Names(stack) && Depth(parts, |stack|).Some?
    requires forall i | 0 <= i < |parts| :: NoSlash(parts[i])
    ensures var t := Fold(parts, base + stack, true); base <= t && |t| == |base| + Depth(parts, |stack|).value
  {
    if parts != [] {
      var next := Push(stack, parts[0], true);
      assert parts[0] == DOTDOT ==> (base + stack)[..|base + stack| - 1] == base + stack[..|stack| - 1];
      assert base + stack + [parts[0]] == base + (stack + [parts[0]]);
      assert parts[0] == DOTDOT ==>
          (base + stack)[|base + stack| - 1] == stack[|stack| - 1] && Name(stack[|stack| - 1]);
      assert Push(base + stack, parts[0], true) == base + next;
      FoldAbove(parts[1..], base, next);
    }
  }

  /** A walk that never climbs above the root is accepted exactly when it does not end at the root itself. */
  lemma {:induction false} StayingAcceptedIff(cwd: Str, l: Layout, item: Item)
    requires Rooted(cwd) && DirsOk(l) && Final(l, item).Ok? && Depth(Steps(item), |Start(l, item)|).Some?
    ensures PathIsUnderRoot(cwd, l.root, Final(l, item).value) == Ok(true) <==>
      Depth(Steps(item), |Start(l, item)|) != Some(0)
  {
    hide Abs, Fold, Start, Steps, Depth, DirsOk, Below, PathIsUnderRoot, NoSlash, Names, Dirs, FullStem;
    GuardAcceptsIff(cwd, l, item);
    StartProper(l, item);
    hide Final;
    AbsNames(cwd, l.root);
    StepsPlain(item);
    var base, start, steps := Abs(cwd, l.root), Start(l, item), Steps(item);
    FoldAbove(steps, base, start);
    Longer(base, Fold(steps, base + start, true));
  }

  lemma StepsPlain(item: Item)
    ensures forall i | 0 <= i < |Steps(item)| :: NoSlash(Steps(item)[i])
  {
    var all := Split(Extension(item.container));
    hide Split, Extension, NoSlash;
    assert forall i | 0 <= i < |Steps(item)| :: Steps(item)[i] == all[i + 1];
  }

  lemma Longer(a: seq<Str>, b: seq<Str>)
    requires a <= b
    ensures a < b <==> |b| > |a|
  {
  }

  /** The file is an item's partial exactly when the walk ends at its name in the staging directory. */
  lemma {:induction false} IsPartialIff(cwd: Str, l: Layout, item: Item, digest: string)
    requires Rooted(cwd) && DirsOk(l) && Final(l, item).Ok? && !Contains(digest, '/')
    ensures Abs(cwd, Final(l, item).value) == Abs(cwd, Partial(l, digest)) <==>
      Fold(Steps(item), Abs(cwd, l.root) + Start(l, item), true) == Abs(cwd, l.root) + [STAGING, Lit(digest + ".tmp")]
  {
    ExtensionWalks(cwd, l, item);
    PartialIsUnderRoot(cwd, l, digest);
    hide Abs, Fold, Start, Steps, DirsOk, Partial;
  }

  // ---- extensions that do either ----

  /** An extension of one plain component, k times "..", and then some names. */
  lemma Climbs(cwd: Str, l: Layout, item: Item, a: Str, k: nat, to: seq<Str>)
    requires Rooted(cwd) && DirsOk(l) && Final(l, item).Ok? && NoSlash(a) && Names(to)
    requires Extension(item.container) == JoinParts([a] + (Ups(k) + to)) && k <= |Abs(cwd, l.root)| + |Start(l, item)|
    ensures Final(l, item).value != []
    ensures var from := Abs(cwd, l.root) + Start(l, item);
      Abs(cwd, Final(l, item).value) == from[..|from| - k] + to
  {
    ClimbSteps(a, k, to);
    hide Abs, Start, DirsOk, Final, Extension, Split, JoinParts, Names, NoSlash, Ups;
    ExtensionWalks(cwd, l, item);
    StartProper(l, item);
    AbsNames(cwd, l.root);
    hide Steps, Fold;
    var base, start := Abs(cwd, l.root), Start(l, item);
    NamesJoin(base, start);
    FoldClimbs(base + start, k, to);
  }

  lemma NamesJoin(a: seq<Str>, b: seq<Str>)
    requires Names(a) && Names(b)
    ensures Names(a + b)
  {
    hide Name;
  }

  lemma FoldClimbs(from: seq<Str>, k: nat, to: seq<Str>)
    requires Names(from) && Names(to) && k <= |from|
    ensures Fold(Ups(k) + to, from, true) == from[..|from| - k] + to
  {
    hide *;
    FoldSplit(Ups(k), to, from, true);
    FoldUps(from, k);
    FoldKeepsNames(to, from[..|from| - k], true);
  }

  lemma ClimbSteps(a: Str, k: nat, to: seq<Str>)
    requires NoSlash(a) && Names(to)
    ensures Split(JoinParts([a] + (Ups(k) + to)))[1..] == Ups(k) + to
  {
    var rest := Ups(k) + to;
    UpsAre(k);
    assert forall i | 0 <= i < |[a] + rest| :: NoSlash(([a] + rest)[i]);
    hide Split, JoinParts;
    SplitJoinParts([a] + rest);
    assert ([a] + rest)[1..] == rest;
  }

  lemma UpsAre(k: nat)
    ensures forall i | 0 <= i < k :: Ups(k)[i] == DOTDOT
  {
  }

  lemma RootGiven(l: Layout, item: Item)
    requires Final(l, item).Ok?
    ensures l.root != []
  {
  }

  /** One that climbs past the root ends anywhere it likes, and the guard refuses what it left there. */
  lemma {:induction false} ExtensionEscapes(cwd: Str, l: Layout, item: Item, a: Str, e: Str)
    requires Rooted(cwd) && Abs(cwd, l.root) != [] && DirsOk(l) && Final(l, item).Ok? && NoSlash(a) && Name(e)
    requires Extension(item.container) == JoinParts([a] + (Ups(|Abs(cwd, l.root)| + |Start(l, item)|) + [e]))
    ensures Abs(cwd, Final(l, item).value) == [e]
    ensures PathIsUnderRoot(cwd, l.root, Final(l, item).value) == Ok(false)
  {
    hide Abs, Start, DirsOk, Extension, Final, JoinParts, PathIsUnderRoot, NoSlash;
    var k := |Abs(cwd, l.root)| + |Start(l, item)|;
    assert Names([e]);
    hide Name, Names;
    Climbs(cwd, l, item, a, k, [e]);
    RootGiven(l, item);
    UnderRootIff(cwd, l.root, Final(l, item).value);
    assert |Abs(cwd, l.root)| >= 1;
  }

  /**
   * One that climbs to the root and down into the staging directory is another item's partial, and
   * the guard accepts it.
   */
  lemma {:induction false} ExtensionMeetsPartial(cwd: Str, l: Layout, item: Item, a: Str, digest: string)
    requires Rooted(cwd) && DirsOk(l) && Final(l, item).Ok? && NoSlash(a) && !Contains(digest, '/')
    requires Extension(item.container) == JoinParts([a] + (Ups(|Start(l, item)|) + [STAGING, Lit(digest + ".tmp")]))
    ensures Abs(cwd, Final(l, item).value) == Abs(cwd, Partial(l, digest))
    ensures PathIsUnderRoot(cwd, l.root, Final(l, item).value) == Ok(true)
  {
    StagingNames(digest);
    PartialIsUnderRoot(cwd, l, digest);
    var base, start := Abs(cwd, l.root), Start(l, item);
    Climbs(cwd, l, item, a, |start|, [STAGING, Lit(digest + ".tmp")]);
    assert (base + start)[..|base|] == base;
    UnderRootIff(cwd, l.root, Final(l, item).value);
    hide Abs, Start, DirsOk, Extension, Lit;
  }
}

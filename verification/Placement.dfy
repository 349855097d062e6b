/** The layout's files, as the download runs need them: no two items ever share one. */
module Placement {
  import opened Basics
  import opened Catalog
  import opened Layout
  import Paths
  import opened Runs

  /** Every version of a row's item can be laid out, with an extension that is part of one file name. */
  ghost predicate LaidOut(l: Layout, item: (int, nat) -> Item, digest: int -> string) {
    && l.root != [] && DirsOk(l)
    && (forall i, v :: Final(l, item(i, v)).Ok? && Paths.NoSlash(Extension(item(i, v).container)))
    && (forall i :: !Contains(digest(i), '/'))
  }

  ghost function FilesOf(l: Layout, item: (int, nat) -> Item, digest: int -> string): Names
    requires LaidOut(l, item, digest)
  {
    Names(i => Partial(l, digest(i)), (i: int, v: nat) => Final(l, item(i, v)).value)
  }

  /**
   * The layout keeps every item's files apart, whatever its metadata becomes, exactly when no
   * digests coincide and no fields of two items, at whatever times, lead to the same place.
   */
  lemma {:induction false} ApartIff(l: Layout, item: (int, nat) -> Item, digest: int -> string)
    requires LaidOut(l, item, digest)
    ensures Apart(FilesOf(l, item, digest)) <==>
      && (forall i, j :: i != j ==> digest(i) != digest(j))
      && (forall i, j, u, v :: i != j ==> !SamePlace(l, item(i, u), item(j, v)))
  {
    hide Final, Partial, SamePlace, Contains, DirsOk, LaidOut, FilesOf, Apart;
    var names := FilesOf(l, item, digest);
    forall i: int, j: int, v: nat ensures names.part(i) != names.place(j, v) {
      Pair(l, item, digest, i, j, 0, v);
    }
    forall i: int, j: int ensures names.part(i) == names.part(j) <==> digest(i) == digest(j) {
      Pair(l, item, digest, i, j, 0, 0);
    }
    forall i: int, j: int, u: nat, v: nat
      ensures names.place(i, u) == names.place(j, v) <==> SamePlace(l, item(i, u), item(j, v))
    {
      Pair(l, item, digest, i, j, u, v);
    }
    ByNames(names, digest, (i: int, u: nat, j: int, v: nat) => SamePlace(l, item(i, u), item(j, v)));
  }

  lemma Pair(l: Layout, item: (int, nat) -> Item, digest: int -> string, i: int, j: int, u: nat, v: nat)
    requires LaidOut(l, item, digest)
    ensures
      var names := FilesOf(l, item, digest);
      && names.part(i) != names.place(j, v)
      && (names.part(i) == names.part(j) <==> digest(i) == digest(j))
      && (names.place(i, u) == names.place(j, v) <==> SamePlace(l, item(i, u), item(j, v)))
  {
    hide Final, Partial, SamePlace, Contains, DirsOk;
    assert Final(l, item(i, u)).Ok? && Final(l, item(j, v)).Ok?;
    assert !Contains(digest(i), '/') && !Contains(digest(j), '/');
    Apartness(l, item(i, u), item(j, v), digest(i), digest(j));
  }

  lemma ByNames(names: Names, digest: int -> string, same: (int, nat, int, nat) -> bool)
    requires forall i, j, v :: names.part(i) != names.place(j, v)
    requires forall i, j :: names.part(i) == names.part(j) <==> digest(i) == digest(j)
    requires forall i, j, u, v :: names.place(i, u) == names.place(j, v) <==> same(i, u, j, v)
    ensures Apart(names) <==>
      && (forall i, j :: i != j ==> digest(i) != digest(j))
      && (forall i, j, u, v :: i != j ==> !same(i, u, j, v))
  {
    if Apart(names) {
      forall i, j | i != j ensures digest(i) != digest(j) {
        assert names.part(i) != names.part(j);
      }
      forall i, j, u, v | i != j ensures !same(i, u, j, v) {
        assert names.place(i, u) != names.place(j, v);
      }
    }
  }

  lemma Apartness(l: Layout, a: Item, b: Item, p: string, q: string)
    requires l.root != [] && DirsOk(l) && Final(l, a).Ok? && Final(l, b).Ok?
    requires Paths.NoSlash(Extension(a.container)) && Paths.NoSlash(Extension(b.container))
    requires !Contains(p, '/') && !Contains(q, '/')
    ensures Partial(l, p) != Final(l, b).value
    ensures Partial(l, p) == Partial(l, q) <==> p == q
    ensures Final(l, a).value == Final(l, b).value <==> SamePlace(l, a, b)
  {
    FinalIsNoPartial(l, b, p);
    PartialSameIff(l, p, q);
    FinalSameIff(l, a, b);
  }
}

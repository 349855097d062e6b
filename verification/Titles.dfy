/** sanitize: from any title to a file-name component. */
module Titles {
  import opened Runes
  import Text

  const MAX_NAME := 200

  predicate Space(x: Sym) { x.Rune? && Text.IsSpace(x.c) }

  predicate Control(x: Sym) { x.Rune? && (x.c < ' ' || x.c == '\U{7F}') }

  predicate Forbidden(x: Sym) {
    x.Rune? && (x.c == '/' || x.c == '\\' || x.c == ':' || x.c == '*' || x.c == '?' || x.c == '"' || x.c == '<'
                || x.c == '>' || x.c == '|')
  }

  /** What the two TrimFunc and TrimRight calls take off. */
  predicate Trimmable(x: Sym) { x == Rune('.') || Space(x) }

  const BLANK := Rune(' ')
  const DASH := Rune('-')
  const REPLACEMENT := Rune('\U{FFFD}')

  /** strings.ReplaceAll(s, ": ", " - "). */
  function ReplaceColons(s: Str): Str {
    if s == [] then []
    else if |s| >= 2 && s[0] == Rune(':') && s[1] == BLANK then [BLANK, DASH, BLANK] + ReplaceColons(s[2..])
    else [s[0]] + ReplaceColons(s[1..])
  }

  /** What the loop appends for one symbol; a byte that is no rune reads as U+FFFD. */
  function Out(prevSpace: bool, x: Sym): Str {
    if Space(x) then (if prevSpace then [] else [BLANK])
    else if Control(x) then []
    else if Forbidden(x) then [DASH]
    else if x.Stray? then [REPLACEMENT]
    else [x]
  }

  function SpaceAfter(prevSpace: bool, x: Sym): bool {
    if Space(x) then true else if Control(x) then prevSpace else false
  }

  function Squeeze(s: Str, prevSpace: bool): Str {
    if s == [] then [] else Out(prevSpace, s[0]) + Squeeze(s[1..], SpaceAfter(prevSpace, s[0]))
  }

  function TrimLeft(s: Str): (r: Str)
    ensures r != [] ==> !Trimmable(r[0])
    ensures |r| <= |s| && r == s[|s| - |r|..]
  {
    if s != [] && Trimmable(s[0]) then TrimLeft(s[1..]) else s
  }

  function TrimRight(s: Str): (r: Str)
    ensures r != [] ==> !Trimmable(r[|r| - 1])
    ensures r <= s
    ensures s != [] && !Trimmable(s[0]) ==> r != []
  {
    if s != [] && Trimmable(s[|s| - 1]) then TrimRight(s[..|s| - 1]) else s
  }

  /** out[:n] on bytes: whole symbols while they fit, then the first bytes of the rune cut in two. */
  function Cut(s: Str, n: nat): Str {
    if s == [] || n == 0 then []
    else if Width(s[0]) <= n then [s[0]] + Cut(s[1..], n - Width(s[0]))
    else Strays(Encode(s[0].c)[..n])
  }

  function Strays(bytes: seq<int>): (r: Str)
    ensures |r| == |bytes| && forall i | 0 <= i < |r| :: r[i] == Stray(bytes[i])
  {
    seq(|bytes|, i requires 0 <= i < |bytes| => Stray(bytes[i]))
  }

  /** The text before it is cut to length. */
  function Untruncated(s: Str): Str {
    TrimRight(TrimLeft(Squeeze(ReplaceColons(s), false)))
  }

  /** The result of sanitize. */
  function Sanitized(s: Str): Str {
    var out := Untruncated(s);
    if Len(out) > MAX_NAME then TrimRight(Cut(out, MAX_NAME)) else out
  }

  lemma SqueezeStep(s: Str, i: nat, prevSpace: bool)
    requires i < |s|
    ensures Squeeze(s[i..], prevSpace) == Out(prevSpace, s[i]) + Squeeze(s[i + 1..], SpaceAfter(prevSpace, s[i]))
  {
    assert s[i..][1..] == s[i + 1..];
  }

  /** sanitize: one pass with prevSpace and a growing result. */
  method Sanitize(title: Str) returns (out: Str)
    ensures out == Sanitized(title)
  {
    hide Space, Control, Forbidden, Squeeze, TrimLeft, TrimRight, Cut, Len, ReplaceColons, Strays;
    var s := ReplaceColons(title);
    var b: Str := [];
    var prevSpace := false;
    for i := 0 to |s|
      invariant b + Squeeze(s[i..], prevSpace) == Squeeze(s, false)
    {
      var r := s[i];
      ghost var b0, prev0 := b, prevSpace;
      if Space(r) {
        if !prevSpace {
          b := b + [BLANK];
          prevSpace := true;
        }
      } else if Control(r) {
        // dropped
      } else if Forbidden(r) {
        b := b + [DASH];
        prevSpace := false;
      } else {
        b := b + [if r.Stray? then REPLACEMENT else r];
        prevSpace := false;
      }
      assert b == b0 + Out(prev0, r) && prevSpace == SpaceAfter(prev0, r);
      SqueezeStep(s, i, prev0);
      Regroup(b0, Out(prev0, r), Squeeze(s[i + 1..], prevSpace));
    }
    SqueezeEnd(s, prevSpace);
    assert b + [] == b;
    out := TrimRight(TrimLeft(b));
    if Len(out) > MAX_NAME {
      out := TrimRight(Cut(out, MAX_NAME));
    }
  }

  lemma Regroup(a: Str, b: Str, c: Str)
    ensures a + (b + c) == (a + b) + c
  {
  }

  lemma SqueezeEnd(s: Str, prevSpace: bool)
    ensures Squeeze(s[|s|..], prevSpace) == []
  {
  }

  // ---- the normal form ----

  /** A symbol that may stand in a name. */
  predicate Plain(x: Sym) {
    x.Rune? ==> !Control(x) && !Forbidden(x) && (Space(x) ==> x == BLANK)
  }

  /** Symbols that may stand in a name, with no two spaces in a row. */
  predicate Tidy(s: Str) {
    && (forall i | 0 <= i < |s| :: Plain(s[i]))
    && (forall i | 0 <= i < |s| - 1 :: s[i] == BLANK ==> s[i + 1] != BLANK)
  }

  /** A name sanitize would have produced. */
  predicate Normal(s: Str) {
    && Tidy(s)
    && CleanEnds(s)
    && Len(s) <= MAX_NAME
  }

  lemma {:induction false} SqueezeTidy(s: Str, prevSpace: bool)
    ensures var r := Squeeze(s, prevSpace); Tidy(r) && (prevSpace && r != [] ==> r[0] != BLANK)
    ensures AllRunes(Squeeze(s, prevSpace))
  {
    if s != [] {
      hide Plain, Tidy;
      SqueezeTidy(s[1..], SpaceAfter(prevSpace, s[0]));
      OutTidy(prevSpace, s[0]);
      hide Out, SpaceAfter;
      TidyJoin(Out(prevSpace, s[0]), Squeeze(s[1..], SpaceAfter(prevSpace, s[0])));
    } else {
      TidyEmpty();
    }
  }

  lemma TidyEmpty()
    ensures Tidy([])
  {
  }

  lemma OutTidy(prevSpace: bool, x: Sym)
    ensures var out := Out(prevSpace, x);
      && |out| <= 1 && Tidy(out) && AllRunes(out) && (prevSpace && out != [] ==> out[0] != BLANK)
      && (if out != [] then SpaceAfter(prevSpace, x) == (out[0] == BLANK) else SpaceAfter(prevSpace, x) == prevSpace)
  {
  }

  lemma TidyJoin(a: Str, b: Str)
    requires |a| <= 1 && Tidy(a) && Tidy(b) && (a != [] && a[0] == BLANK && b != [] ==> b[0] != BLANK)
    ensures Tidy(a + b)
  {
    hide Plain;
  }

  lemma {:induction false} CutFits(s: Str, n: nat)
    ensures Len(Cut(s, n)) <= n
    ensures n > 0 && s != [] ==> Cut(s, n) != []
    ensures s != [] && Width(s[0]) <= n ==> Cut(s, n) != [] && Cut(s, n)[0] == s[0]
    ensures Tidy(s) ==> Tidy(Cut(s, n))
  {
    if s != [] && n > 0 {
      if Width(s[0]) <= n {
        CutFits(s[1..], n - Width(s[0]));
        assert Cut(s, n)[1..] == Cut(s[1..], n - Width(s[0]));
        if |s| > 1 && Cut(s[1..], n - Width(s[0])) != [] {
          assert s[1..][0] == s[1];
        }
      } else {
        StraysLen(Encode(s[0].c)[..n]);
      }
    }
  }

  lemma {:induction false} StraysLen(bytes: seq<int>)
    ensures Len(Strays(bytes)) == |bytes|
  {
    if bytes != [] {
      assert Strays(bytes)[1..] == Strays(bytes[1..]);
      StraysLen(bytes[1..]);
    }
  }

  lemma {:induction false} PrefixLen(a: Str, b: Str)
    requires a <= b
    ensures Len(a) <= Len(b)
  {
    if a != [] {
      PrefixLen(a[1..], b[1..]);
    }
  }

  lemma SliceTidy(s: Str, i: nat, j: nat)
    requires Tidy(s) && i <= j <= |s|
    ensures Tidy(s[i..j])
  {
  }

  /** Both ends of s stay under TrimFunc. */
  predicate CleanEnds(s: Str) {
    s != [] ==> !Trimmable(s[0]) && !Trimmable(s[|s| - 1])
  }

  lemma TrimTidy(s: Str)
    requires Tidy(s)
    ensures var r := TrimRight(TrimLeft(s)); Tidy(r) && CleanEnds(r)
  {
    hide Tidy, Trimmable, TrimLeft, TrimRight;
    var l := TrimLeft(s);
    var r := TrimRight(l);
    assert s[|s| - |l|..|s|] == l;
    SliceTidy(s, |s| - |l|, |s|);
    assert l[0..|r|] == r;
    SliceTidy(l, 0, |r|);
  }

  /** Cutting a clean tidy text and trimming its new end leaves it clean, tidy, short and not empty. */
  lemma CutTidy(s: Str)
    requires Tidy(s) && CleanEnds(s) && s != []
    ensures var r := TrimRight(Cut(s, MAX_NAME)); Tidy(r) && CleanEnds(r) && r != [] && Len(r) <= MAX_NAME
  {
    CutFits(s, MAX_NAME);
    var cut := Cut(s, MAX_NAME);
    var r := TrimRight(cut);
    PrefixLen(r, cut);
    SliceTidy(cut, 0, |r|);
    assert r == cut[0..|r|] && cut[0] == s[0];
  }

  lemma UntruncatedTidy(s: Str)
    ensures Tidy(Untruncated(s)) && CleanEnds(Untruncated(s))
  {
    SqueezeTidy(ReplaceColons(s), false);
    TrimTidy(Squeeze(ReplaceColons(s), false));
  }

  /** What sanitize returns is a usable name: nothing a file system minds, no ragged ends, at most 200 bytes. */
  lemma {:induction false} SanitizedNormal(s: Str)
    ensures Normal(Sanitized(s))
    ensures var r := Sanitized(s);
      && Len(r) <= 200
      && (forall i | 0 <= i < |r| && r[i].Rune? :: r[i].c !in "/\\:*?\"<>|" && ' ' <= r[i].c != '\U{7F}')
      && (forall i | 0 <= i < |r| - 1 :: r[i] == Rune(' ') ==> r[i + 1] != Rune(' '))
      && (r != [] ==> r[0] != Rune('.') && r[0] != Rune(' ') && r[|r| - 1] != Rune('.') && r[|r| - 1] != Rune(' '))
  {
    SanitizedIsNormal(s);
    var r := Sanitized(s);
    hide Sanitized, Len;
    assert forall i | 0 <= i < |r| :: Plain(r[i]);
  }

  lemma {:induction false} SanitizedIsNormal(s: Str)
    ensures Normal(Sanitized(s))
  {
    UntruncatedTidy(s);
    var out := Untruncated(s);
    hide Untruncated, Tidy, CleanEnds, Cut, TrimRight;
    if Len(out) > MAX_NAME {
      CutTidy(out);
    }
  }

  /** Cutting never empties a name. */
  lemma {:induction false} EmptyOnlyIfUntruncatedIs(s: Str)
    ensures Sanitized(s) == [] <==> Untruncated(s) == []
  {
    UntruncatedTidy(s);
    var out := Untruncated(s);
    hide Untruncated, Tidy, Cut, TrimRight;
    if Len(out) > MAX_NAME {
      CutTidy(out);
    }
  }

  // ---- what becomes of what may not stand in a name ----

  /** Runes that sanitize leaves as they are. */
  predicate Clean(s: Str) { Normal(s) && AllRunes(s) && s != [] }

  lemma {:induction false} ColonsPrefix(a: Str, rest: Str)
    requires Tidy(a)
    ensures ReplaceColons(a + rest) == a + ReplaceColons(rest)
  {
    if a == [] {
      assert a + rest == rest;
    } else {
      assert Plain(a[0]) && (a + rest)[1..] == a[1..] + rest;
      SliceTidy(a, 1, |a|);
      ColonsPrefix(a[1..], rest);
    }
  }

  lemma {:induction false} SqueezePrefix(a: Str, rest: Str, prevSpace: bool)
    requires Tidy(a) && AllRunes(a) && a != [] && !Space(a[|a| - 1]) && (prevSpace ==> a[0] != BLANK)
    ensures Squeeze(a + rest, prevSpace) == a + Squeeze(rest, false)
  {
    FirstKept(a, prevSpace);
    hide Space, Out, SpaceAfter, Plain;
    SqueezeStep(a + rest, 0, prevSpace);
    hide Squeeze;
    assert (a + rest)[1..] == a[1..] + rest && (a + rest)[0..] == a + rest;
    if |a| > 1 {
      SliceTidy(a, 1, |a|);
      SqueezePrefix(a[1..], rest, SpaceAfter(prevSpace, a[0]));
      assert [a[0]] + (a[1..] + Squeeze(rest, false)) == a + Squeeze(rest, false);
    } else {
      assert a[1..] + rest == rest && [a[0]] == a;
    }
  }

  lemma FirstKept(a: Str, prevSpace: bool)
    requires Tidy(a) && AllRunes(a) && a != [] && !Space(a[|a| - 1]) && (prevSpace ==> a[0] != BLANK)
    ensures Out(prevSpace, a[0]) == [a[0]]
    ensures if |a| == 1 then !SpaceAfter(prevSpace, a[0]) else SpaceAfter(prevSpace, a[0]) ==> a[1] != BLANK
  {
    hide Forbidden, Text.IsSpace;
    assert Plain(a[0]);
  }

  lemma AroundEnds(a: Str, mid: Str, b: Str)
    requires Clean(a) && Clean(b)
    ensures CleanEnds(a + mid + b) && Tidy(a) && AllRunes(a) && a != [] && !Space(a[|a| - 1])
  {
    var r := a + mid + b;
    assert r[0] == a[0] && r[|r| - 1] == b[|b| - 1];
    hide Tidy, Len;
  }

  lemma SanitizedFrom(s: Str, r: Str)
    requires Squeeze(ReplaceColons(s), false) == r && CleanEnds(r) && Len(r) <= MAX_NAME
    ensures Sanitized(s) == r
  {
    TrimNothing(r);
  }

  /** A clean beginning, something in the middle that comes out as `mid`, and a clean end. */
  lemma SanitizedAround(a: Str, m: Str, b: Str, mid: Str)
    requires Clean(a) && Clean(b) && Len(a + mid + b) <= 200
    requires ReplaceColons(m + b) == m + b || ReplaceColons(m + b) == Lit(" - ") + b
    requires Squeeze(ReplaceColons(m + b), false) == mid + b
    ensures Sanitized(a + m + b) == a + mid + b
  {
    AroundEnds(a, mid, b);
    hide *;
    Regroup(a, m, b);
    Regroup(a, mid, b);
    ColonsPrefix(a, m + b);
    SqueezePrefix(a, ReplaceColons(m + b), false);
    SanitizedFrom(a + m + b, a + mid + b);
  }

  lemma {:induction false} BlanksBecomeOne(ws: string, b: Str, prevSpace: bool)
    requires Text.Blank(ws) && Clean(b)
    ensures Squeeze(Lit(ws) + b, prevSpace) == if ws == "" || prevSpace then b else Lit(" ") + b
    ensures ReplaceColons(Lit(ws) + b) == Lit(ws) + b
  {
    if ws == "" {
      assert Lit(ws) + b == b && b + [] == b;
      NoColonToReplace(b);
      SqueezePrefix(b, [], prevSpace);
    } else {
      var s := Lit(ws) + b;
      assert s[1..] == Lit(ws[1..]) + b && s[0] == Rune(ws[0]) && Text.IsSpace(ws[0]);
      assert Text.Blank(ws[1..]);
      BlanksBecomeOne(ws[1..], b, true);
      assert Lit(" ") == [BLANK];
      hide Text.IsSpace;
    }
  }

  lemma OneOddSymbol(c: char, b: Str)
    requires Clean(b)
    ensures ReplaceColons([Rune(c)] + b) == [Rune(c)] + b
    ensures c in "/\\:*?\"<>|" ==> Squeeze([Rune(c)] + b, false) == Lit("-") + b
    ensures (c < ' ' && !Text.IsSpace(c)) || c == '\U{7F}' ==> Squeeze([Rune(c)] + b, false) == b
  {
    var s := [Rune(c)] + b;
    CleanAlone(b);
    OutOf(c);
    hide Clean, ReplaceColons, Squeeze, Out, SpaceAfter, Text.IsSpace;
    assert s[1..] == b && s[0..] == s && [] + b == b;
    OneOnly(Rune(c), b);
    SqueezeStep(s, 0, false);
  }

  lemma CleanAlone(b: Str)
    requires Clean(b)
    ensures ReplaceColons(b) == b && Squeeze(b, false) == b && b != [] && b[0] != BLANK
  {
    NoColonToReplace(b);
    SqueezePrefix(b, [], false);
    hide Squeeze, ReplaceColons;
    assert b + [] == b;
  }

  lemma OneOnly(x: Sym, b: Str)
    requires b != [] && b[0] != BLANK
    ensures ReplaceColons([x] + b) == [x] + ReplaceColons(b)
  {
    assert ([x] + b)[1..] == b;
  }

  lemma OutOf(c: char)
    ensures c in "/\\:*?\"<>|" ==> Out(false, Rune(c)) == Lit("-") && !SpaceAfter(false, Rune(c))
    ensures (c < ' ' && !Text.IsSpace(c)) || c == '\U{7F}' ==> Out(false, Rune(c)) == [] && !SpaceAfter(false, Rune(c))
  {
    assert Lit("-") == [DASH];
  }

  lemma StrayMended(x: int, b: Str)
    requires Clean(b)
    ensures ReplaceColons([Stray(x)] + b) == [Stray(x)] + b
    ensures Squeeze([Stray(x)] + b, false) == [Rune('\U{FFFD}')] + b
  {
    var s := [Stray(x)] + b;
    CleanAlone(b);
    assert Out(false, Stray(x)) == [Rune('\U{FFFD}')] && !SpaceAfter(false, Stray(x));
    hide Clean, ReplaceColons, Squeeze, Out, SpaceAfter;
    assert s[1..] == b && s[0..] == s;
    OneOnly(Stray(x), b);
    SqueezeStep(s, 0, false);
  }

  lemma ColonBlank(b: Str)
    requires Clean(b)
    ensures ReplaceColons(Lit(": ") + b) == Lit(" - ") + b
    ensures Squeeze(Lit(" - ") + b, false) == Lit(" - ") + b
  {
    var s, r := Lit(": ") + b, Lit(" - ") + b;
    assert s[2..] == b && s[0] == Rune(':') && s[1] == BLANK && Lit(" - ") == [BLANK, DASH, BLANK];
    NoColonToReplace(b);
    SqueezePrefix(b, [], true);
    hide Squeeze, ReplaceColons, Tidy, Normal, Len, Lit;
    assert b + [] == b;
    assert ReplaceColons(s) == [BLANK, DASH, BLANK] + b by { OneColon(s); }
    DashedSqueeze(b);
  }

  lemma OneColon(s: Str)
    requires |s| >= 2 && s[0] == Rune(':') && s[1] == BLANK
    ensures ReplaceColons(s) == [BLANK, DASH, BLANK] + ReplaceColons(s[2..])
  {
  }

  lemma DashedSqueeze(b: Str)
    ensures Squeeze([BLANK, DASH, BLANK] + b, false) == [BLANK, DASH, BLANK] + Squeeze(b, true)
  {
    var r := [BLANK, DASH, BLANK] + b;
    SqueezeStep(r, 0, false);
    SqueezeStep(r, 1, true);
    SqueezeStep(r, 2, false);
    hide Squeeze;
    assert r[0..] == r && r[3..] == b;
  }

  /**
   * Between two clean parts of a name: ": " becomes " - ", each character that a file system minds a dash,
   * a run of white space one blank, and a control character nothing.
   */
  lemma {:induction false} SanitizedBetween(a: Str, b: Str)
    requires Clean(a) && Clean(b) && Len(a) + 3 + Len(b) <= 200
    ensures Sanitized(a + Lit(": ") + b) == a + Lit(" - ") + b
    ensures forall c | c in "/\\:*?\"<>|" :: Sanitized(a + [Rune(c)] + b) == a + Lit("-") + b
    ensures forall ws: string | ws != "" && Text.Blank(ws) :: Sanitized(a + Lit(ws) + b) == a + Lit(" ") + b
    ensures forall c: char | (c < ' ' && !Text.IsSpace(c)) || c == '\U{7F}' :: Sanitized(a + [Rune(c)] + b) == a + b
    ensures forall x: int :: Sanitized(a + [Stray(x)] + b) == a + [Rune('\U{FFFD}')] + b
  {
    hide Sanitized, Clean, Squeeze, ReplaceColons, Text.Blank;
    ColonBlank(b);
    ShortMiddles(a, b);
    SanitizedAround(a, Lit(": "), b, Lit(" - "));
    forall c | c in "/\\:*?\"<>|" ensures Sanitized(a + [Rune(c)] + b) == a + Lit("-") + b {
      OneOddSymbol(c, b);
      SanitizedAround(a, [Rune(c)], b, Lit("-"));
    }
    forall ws: string | ws != "" && Text.Blank(ws) ensures Sanitized(a + Lit(ws) + b) == a + Lit(" ") + b {
      BlanksBecomeOne(ws, b, false);
      SanitizedAround(a, Lit(ws), b, Lit(" "));
    }
    forall c: char | (c < ' ' && !Text.IsSpace(c)) || c == '\U{7F}' ensures Sanitized(a + [Rune(c)] + b) == a + b {
      OneOddSymbol(c, b);
      assert [] + b == b && a + [] + b == a + b;
      SanitizedAround(a, [Rune(c)], b, []);
    }
    forall x: int ensures Sanitized(a + [Stray(x)] + b) == a + [Rune('\U{FFFD}')] + b {
      StrayMended(x, b);
      SanitizedAround(a, [Stray(x)], b, [Rune('\U{FFFD}')]);
    }
  }

  lemma ShortMiddles(a: Str, b: Str)
    ensures Len(a + Lit(" - ") + b) == Len(a) + 3 + Len(b)
    ensures Len(a + Lit("-") + b) == Len(a) + 1 + Len(b) && Len(a + Lit(" ") + b) == Len(a) + 1 + Len(b)
    ensures Len(a + b) == Len(a) + Len(b) && Len(a + [Rune('\U{FFFD}')] + b) == Len(a) + 3 + Len(b)
  {
    LenSplit(a, [Rune('\U{FFFD}')]);
    LenSplit(a + [Rune('\U{FFFD}')], b);
    assert Len([Rune('\U{FFFD}')]) == 3 by { assert [Rune('\U{FFFD}')][1..] == []; }
    assert Lit(" - ") == [BLANK, DASH, BLANK] && Lit("-") == [DASH] && Lit(" ") == [BLANK];
    LenSplit(a, Lit(" - "));
    LenSplit(a + Lit(" - "), b);
    LenSplit(a, Lit("-"));
    LenSplit(a + Lit("-"), b);
    LenSplit(a, Lit(" "));
    LenSplit(a + Lit(" "), b);
    LenSplit(a, b);
    assert [BLANK, DASH, BLANK][1..] == [DASH, BLANK] && [DASH, BLANK][1..] == [BLANK] && [BLANK][1..] == [];
  }

  // ---- what is taken off ----

  /** Dots and blanks. */
  predicate Ragged(s: Str) { forall i | 0 <= i < |s| :: s[i] == Rune('.') || s[i] == Rune(' ') }

  lemma {:induction false} RaggedSqueeze(l: Str, rest: Str, prevSpace: bool) returns (m: Str, after: bool)
    requires Ragged(l)
    ensures Squeeze(l + rest, prevSpace) == m + Squeeze(rest, after) && Ragged(m)
  {
    if l == [] {
      m, after := [], prevSpace;
      assert l + rest == rest && [] + Squeeze(rest, after) == Squeeze(rest, after);
    } else {
      var tail;
      OutRagged(prevSpace, l[0]);
      hide Out, SpaceAfter;
      assert (l + rest)[1..] == l[1..] + rest && Ragged(l[1..]);
      SqueezeStep(l + rest, 0, prevSpace);
      hide Squeeze;
      assert (l + rest)[0..] == l + rest;
      tail, after := RaggedSqueeze(l[1..], rest, SpaceAfter(prevSpace, l[0]));
      m := Out(prevSpace, l[0]) + tail;
      Regroup(Out(prevSpace, l[0]), tail, Squeeze(rest, after));
      RaggedJoin(Out(prevSpace, l[0]), tail);
    }
  }

  lemma OutRagged(prevSpace: bool, x: Sym)
    requires x == Rune('.') || x == Rune(' ')
    ensures Ragged(Out(prevSpace, x))
  {
  }

  lemma RaggedJoin(a: Str, b: Str)
    requires Ragged(a) && Ragged(b)
    ensures Ragged(a + b)
  {
  }

  lemma {:induction false} RaggedColons(l: Str, rest: Str)
    requires Ragged(l)
    ensures ReplaceColons(l + rest) == l + ReplaceColons(rest)
  {
    if l == [] {
      assert l + rest == rest;
    } else {
      assert (l + rest)[1..] == l[1..] + rest && Ragged(l[1..]) && (l[0] == Rune('.') || l[0] == BLANK);
      RaggedColons(l[1..], rest);
    }
  }

  lemma {:induction false} TrimLeftRagged(l: Str, s: Str)
    requires Ragged(l) && s != [] && !Trimmable(s[0])
    ensures TrimLeft(l + s) == s
  {
    if l == [] {
      assert l + s == s;
    } else {
      assert (l + s)[1..] == l[1..] + s && Ragged(l[1..]) && (l[0] == Rune('.') || l[0] == BLANK);
      TrimLeftRagged(l[1..], s);
    }
  }

  lemma {:induction false} TrimRightRagged(s: Str, r: Str)
    requires Ragged(r) && s != [] && !Trimmable(s[|s| - 1])
    ensures TrimRight(s + r) == s
  {
    if r == [] {
      assert s + r == s;
    } else {
      var n := |r| - 1;
      assert (s + r)[..|s| + n] == s + r[..n] && Ragged(r[..n]) && (r[n] == Rune('.') || r[n] == BLANK);
      TrimRightRagged(s, r[..n]);
    }
  }

  /** Dots and blanks around a clean name are taken off, whatever their number. */
  lemma {:induction false} SanitizedTrims(l: Str, a: Str, r: Str)
    requires Ragged(l) && Clean(a) && Ragged(r)
    ensures Sanitized(l + a + r) == a
  {
    assert l + a + r == l + (a + r) && r + [] == r;
    RaggedColons(l, a + r);
    ColonsPrefix(a, r);
    RaggedColons(r, []);
    var m, after := RaggedSqueeze(l, a + r, false);
    var k := EndRagged(a, r, after);
    hide ReplaceColons, Squeeze, Tidy, Len, TrimLeft, TrimRight, Cut, Space;
    TrimLeftRagged(m, a + k);
    TrimRightRagged(a, k);
    assert m + (a + k) == m + (a + k);
  }

  lemma EndRagged(a: Str, r: Str, prevSpace: bool) returns (k: Str)
    requires Clean(a) && Ragged(r)
    ensures Squeeze(a + r, prevSpace) == a + k && Ragged(k)
  {
    SqueezePrefix(a, r, prevSpace);
    var after;
    assert r + [] == r;
    k, after := RaggedSqueeze(r, [], false);
    assert Squeeze([], after) == [] && k + [] == k;
  }

  /** A clean but long text is cut to exactly 200 bytes, the last of them perhaps part of a rune, and then trimmed. */
  lemma {:induction false} LongIsCut(s: Str) returns (k: nat, rest: seq<int>)
    requires Tidy(s) && AllRunes(s) && CleanEnds(s) && Len(s) > 200
    ensures k <= |s| && |rest| <= 3 && Len(s[..k]) + |rest| == 200
    ensures Sanitized(s) == TrimRight(s[..k] + Strays(rest))
  {
    NoColonToReplace(s);
    SqueezePrefix(s, [], false);
    assert s + [] == s;
    TrimNothing(s);
    k, rest := CutShape(s, 200);
    hide Cut, Squeeze, ReplaceColons, TrimLeft, TrimRight;
  }

  // ---- idempotence ----

  predicate AllRunes(s: Str) {
    forall i | 0 <= i < |s| :: s[i].Rune?
  }

  lemma {:induction false} NoColonToReplace(s: Str)
    requires Tidy(s)
    ensures ReplaceColons(s) == s
  {
    if s != [] {
      assert Plain(s[0]);
      SliceTidy(s, 1, |s|);
      NoColonToReplace(s[1..]);
    }
  }

  function Mended(s: Str): (r: Str)
    ensures |r| == |s|
    ensures forall i | 0 <= i < |s| :: r[i] == if s[i].Stray? then REPLACEMENT else s[i]
  {
    seq(|s|, i requires 0 <= i < |s| => if s[i].Stray? then REPLACEMENT else s[i])
  }

  /** On a tidy text the loop only mends stray bytes. */
  lemma {:induction false} SqueezeMends(s: Str, prevSpace: bool)
    requires Tidy(s) && (prevSpace && s != [] ==> s[0] != BLANK)
    ensures Squeeze(s, prevSpace) == Mended(s)
  {
    if s != [] {
      assert Plain(s[0]);
      SliceTidy(s, 1, |s|);
      SqueezeMends(s[1..], SpaceAfter(prevSpace, s[0]));
      assert Mended(s) == [Mended(s)[0]] + Mended(s[1..]);
    }
  }

  /** Sanitizing a normal name mends its stray bytes and cuts again. */
  lemma {:induction false} NormalAgain(s: Str)
    requires Normal(s)
    ensures Untruncated(s) == Mended(s)
  {
    NoColonToReplace(s);
    SqueezeMends(s, false);
    var m := Mended(s);
    assert CleanEnds(m);
    hide Mended, Squeeze, ReplaceColons, Normal;
    TrimNothing(m);
  }

  lemma TrimNothing(s: Str)
    requires CleanEnds(s)
    ensures TrimRight(TrimLeft(s)) == s
  {
  }

  /** A text cut to n bytes: runes, then what is left of one rune that did not fit. */
  lemma {:induction false} CutShape(s: Str, n: nat) returns (k: nat, rest: seq<int>)
    requires AllRunes(s) && Len(s) > n
    ensures k <= |s| && Cut(s, n) == s[..k] + Strays(rest)
    ensures |rest| <= 3 && Len(s[..k]) + |rest| == n
  {
    hide Encode, Strays;
    if n > 0 && Width(s[0]) <= n {
      k, rest := CutShape(s[1..], n - Width(s[0]));
      FirstBack(s, k, Strays(rest));
      k := k + 1;
    } else {
      k, rest := 0, if n == 0 then [] else Encode(s[0].c)[..n];
      StraysNone();
    }
  }

  lemma StraysNone()
    ensures Strays([]) == []
  {
  }

  lemma FirstBack(s: Str, k: nat, tail: Str)
    requires s != [] && k < |s|
    ensures [s[0]] + (s[1..][..k] + tail) == s[..k + 1] + tail
    ensures Len(s[..k + 1]) == Width(s[0]) + Len(s[1..][..k])
  {
    hide Width;
    assert s[..k + 1] == [s[0]] + s[1..][..k];
    assert s[..k + 1][1..] == s[1..][..k];
  }

  /** The bytes at the end of s that belong to no rune. */
  function Tail(s: Str): Str {
    if s != [] && s[|s| - 1].Stray? then Tail(s[..|s| - 1]) + [s[|s| - 1]] else []
  }

  lemma {:induction false} TailOf(u: Str, bytes: seq<int>)
    requires AllRunes(u)
    ensures Tail(u + Strays(bytes)) == Strays(bytes)
  {
    var t := u + Strays(bytes);
    if bytes == [] {
      assert t == u && (u != [] ==> u[|u| - 1].Rune?);
    } else {
      var most := bytes[..|bytes| - 1];
      assert t[..|t| - 1] == u + Strays(most);
      TailOf(u, most);
      assert Strays(bytes) == Strays(most) + [Stray(bytes[|most|])];
    }
  }

  /** A sanitized title: runes, then at most three bytes of a rune cut at byte 200. */
  lemma {:induction false} SanitizedShape(s: Str) returns (u: Str, rest: seq<int>)
    ensures Sanitized(s) == u + Strays(rest) && AllRunes(u)
    ensures rest != [] ==> |rest| <= 3 && Len(u) + |rest| == MAX_NAME
  {
    var out := Untruncated(s);
    UntruncatedRunes(s);
    hide Untruncated, TrimRight;
    if Len(out) <= MAX_NAME {
      u, rest := out, [];
      NoStrays(u);
    } else {
      u, rest := CappedShape(out);
    }
  }

  lemma NoStrays(u: Str)
    ensures u + Strays([]) == u
  {
  }

  lemma {:induction false} CappedShape(out: Str) returns (u: Str, rest: seq<int>)
    requires AllRunes(out) && Len(out) > MAX_NAME
    ensures TrimRight(Cut(out, MAX_NAME)) == u + Strays(rest) && AllRunes(u)
    ensures rest != [] ==> |rest| <= 3 && Len(u) + |rest| == MAX_NAME
  {
    var k;
    k, rest := CutShape(out, MAX_NAME);
    u := out[..k];
    hide Cut, Len;
    if rest == [] {
      NoStrays(u);
      u := TrimRight(u);
      NoStrays(u);
    } else {
      TrimEndsPlain(u, Strays(rest));
    }
  }

  lemma UntruncatedRunes(s: Str)
    ensures AllRunes(Untruncated(s))
  {
    SqueezeTidy(ReplaceColons(s), false);
    hide AllRunes, Tidy, TrimLeft, TrimRight, Squeeze, ReplaceColons, Trimmable;
    var raw := Squeeze(ReplaceColons(s), false);
    var l := TrimLeft(raw);
    assert raw[|raw| - |l|..|raw|] == l;
    SliceRunes(raw, |raw| - |l|, |raw|);
    assert l[0..|TrimRight(l)|] == TrimRight(l);
    SliceRunes(l, 0, |TrimRight(l)|);
  }

  lemma SliceRunes(s: Str, i: nat, j: nat)
    requires AllRunes(s) && i <= j <= |s|
    ensures AllRunes(s[i..j])
  {
  }

  lemma LenFirst(u: Str)
    requires u != []
    ensures Len(u) == Width(u[0]) + Len(u[1..])
  {
  }

  lemma {:induction false} CutAfter(u: Str, v: Str, n: nat)
    requires Len(u) <= n
    ensures Cut(u + v, n) == u + Cut(v, n - Len(u))
  {
    hide Cut, Width;
    if u == [] {
      assert u + v == v;
    } else {
      var w := Width(u[0]);
      LenFirst(u);
      hide Len;
      CutAfter(u[1..], v, n - w);
      CutFirst(u, v, n);
      Rejoin(u, Cut(v, n - Len(u)));
    }
  }

  lemma CutFirst(u: Str, v: Str, n: nat)
    requires u != [] && Width(u[0]) <= n
    ensures Cut(u + v, n) == [u[0]] + Cut(u[1..] + v, n - Width(u[0]))
  {
    assert (u + v)[1..] == u[1..] + v;
  }

  lemma Rejoin(u: Str, v: Str)
    requires u != []
    ensures [u[0]] + (u[1..] + v) == u + v
  {
  }

  lemma {:induction false} LenSplit(u: Str, v: Str)
    ensures Len(u + v) == Len(u) + Len(v)
  {
    if u == [] {
      assert u + v == v;
    } else {
      assert (u + v)[1..] == u[1..] + v;
      LenSplit(u[1..], v);
    }
  }

  function Replacements(k: nat): Str {
    if k == 0 then [] else [REPLACEMENT] + Replacements(k - 1)
  }

  lemma MendedShape(u: Str, bytes: seq<int>)
    requires AllRunes(u)
    ensures Mended(u + Strays(bytes)) == u + Replacements(|bytes|)
  {
    ReplacementsAll(|bytes|);
    var m := Mended(u + Strays(bytes));
    assert forall i | 0 <= i < |m| :: m[i] == (u + Replacements(|bytes|))[i];
  }

  lemma {:induction false} ReplacementsLen(k: nat)
    ensures Len(Replacements(k)) == 3 * k
  {
    if k > 0 {
      ReplacementsLen(k - 1);
      assert Replacements(k)[1..] == Replacements(k - 1);
      assert Width(REPLACEMENT) == 3;
    }
  }

  lemma ReplacementsAll(k: nat)
    ensures |Replacements(k)| == k && forall i | 0 <= i < k :: Replacements(k)[i] == REPLACEMENT
  {
  }

  /** U+FFFD, cut to as many bytes as it stands for. */
  lemma CutReplacements(k: nat)
    requires 1 <= k <= 3
    ensures Cut(Replacements(k), k) ==
      if k == 1 then [Stray(0xEF)] else if k == 2 then [Stray(0xEF), Stray(0xBF)] else [REPLACEMENT]
  {
    assert Encode('\U{FFFD}') == [0xEF, 0xBF, 0xBD];
    assert Replacements(k)[0] == REPLACEMENT;
    if k == 3 {
      assert Cut(Replacements(k)[1..], 0) == [];
    }
  }

  /**
   * Sanitizing twice is sanitizing once exactly when the cut at byte 200 splits no rune, or
   * splits one whose remaining bytes begin like the encoding of U+FFFD (EF BF BD).
   */
  lemma SanitizeIdempotentIff(s: Str)
    ensures Sanitized(Sanitized(s)) == Sanitized(s) <==> Tail(Sanitized(s)) <= [Stray(0xEF), Stray(0xBF)]
  {
    var t := Sanitized(s);
    var u, rest := SanitizedShape(s);
    SanitizedIsNormal(s);
    NormalAgain(t);
    TailOf(u, rest);
    MendedShape(u, rest);
    if rest == [] {
      assert u + Replacements(0) == u == t;
    } else {
      SecondCut(t, u, rest);
    }
  }

  lemma {:induction false} SecondCut(t: Str, u: Str, rest: seq<int>)
    requires t == u + Strays(rest) && 1 <= |rest| <= 3 && Len(u) + |rest| == MAX_NAME
    requires Untruncated(t) == u + Replacements(|rest|)
    ensures Sanitized(t) == t <==> Strays(rest) <= [Stray(0xEF), Stray(0xBF)]
  {
    hide Cut, Len, Untruncated, Sanitized, Replacements;
    var k := |rest|;
    ReplacementsLen(k);
    CutReplacements(k);
    var end := Cut(Replacements(k), k);
    CutTwice(t, u, Replacements(k), k);
    SameTail(u, end, Strays(rest));
    PrefixOfTwo(Strays(rest), end);
  }

  lemma {:induction false} CutTwice(t: Str, u: Str, v: Str, k: nat)
    requires Untruncated(t) == u + v && Len(u) + k == MAX_NAME && Len(v) > k
    requires Cut(v, k) != [] && !Trimmable(Cut(v, k)[|Cut(v, k)| - 1])
    ensures Sanitized(t) == u + Cut(v, k)
  {
    hide Cut, Untruncated, Len;
    LenSplit(u, v);
    CutAfter(u, v, MAX_NAME);
    TrimEndsPlain(u, Cut(v, k));
  }

  lemma SameTail(u: Str, a: Str, b: Str)
    ensures u + a == u + b <==> a == b
  {
    assert (u + a)[|u|..] == a && (u + b)[|u|..] == b;
  }

  lemma PrefixOfTwo(a: Str, b: Str)
    requires 1 <= |a| <= 3
    requires b == if |a| == 1 then [Stray(0xEF)] else if |a| == 2 then [Stray(0xEF), Stray(0xBF)] else [REPLACEMENT]
    ensures b == a <==> a <= [Stray(0xEF), Stray(0xBF)]
  {
  }

  lemma TrimEndsPlain(u: Str, end: Str)
    requires end != [] && !Trimmable(end[|end| - 1])
    ensures TrimRight(u + end) == u + end
  {
  }
}

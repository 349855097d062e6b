/** Where a finished download and its partial live under the media root. */
module Layout {
  import opened Basics
  import opened Runes
  import opened Catalog
  import opened Paths
  import Text
  import Titles

  // ---- library directories ----

  datatype DirError = EmptyName | Separator | DotName | LeadingDot

  predicate Contains(s: string, c: char) { exists i | 0 <= i < |s| :: s[i] == c }

  /** config.ValidateLibraryDir; None means the name is fine. */
  function CheckDir(name: string): Option<DirError> {
    if name == "" then Some(EmptyName)
    else if Contains(name, '/') || Contains(name, '\\') then Some(Separator)
    else if name == "." || name == ".." then Some(DotName)
    else if name[0] == '.' then Some(LeadingDot)
    else None
  }

  lemma LitSlash(s: string)
    ensures NoSlash(Lit(s)) <==> !Contains(s, '/')
  {
    var r := Lit(s);
    assert forall i | 0 <= i < |s| :: r[i] == SLASH <==> s[i] == '/';
  }

  /** An accepted directory is one visible path component, and every such name without a backslash is accepted. */
  lemma {:induction false} CheckDirIff(name: string)
    ensures CheckDir(name) == None <==> Name(Lit(name)) && name[0] != '.' && !Contains(name, '\\')
  {
    LitSlash(name);
  }

  // ---- the layout ----

  datatype Layout = Layout(root: Str, moviesDir: string, showsDir: string, otherDir: string)

  datatype LayoutError = NoMediaRoot | NoExtension | NoTitle | NoShowTitle | NegativeNumber

  function DirOr(name: string, fallback: string): string {
    if name == "" then fallback else name
  }

  function LowerRune(x: Sym): Sym {
    if x.Rune? && 'A' <= x.c <= 'Z' then Rune((x.c as int + 32) as char) else x
  }

  /** strings.ToLower on ASCII letters. */
  function ToLower(s: Str): (r: Str)
    ensures |r| == |s| && forall i | 0 <= i < |s| :: r[i] == LowerRune(s[i])
  {
    seq(|s|, i requires 0 <= i < |s| => LowerRune(s[i]))
  }

  function Extension(container: Str): Str {
    var low := ToLower(container);
    if low != [] && low[0] == Rune('.') then low[1..] else low
  }

  /** %02d of a number that is not negative. */
  function Padded(n: nat): string {
    if n < 10 then "0" + Text.Itoa(n) else Text.Itoa(n)
  }

  /** The name of a movie's file, up to its extension. */
  function MovieStem(item: Item): Str {
    var title := Titles.Sanitized(item.title);
    if item.year > 0 then title + Lit(" (" + Text.Itoa(item.year) + ")") else title
  }

  function MovieNames(l: Layout, item: Item, ext: Str): Result<seq<Str>, LayoutError> {
    if Titles.Sanitized(item.title) == [] then Err(NoTitle)
    else Ok([Lit(DirOr(l.moviesDir, "movies")), MovieStem(item) + DOT + ext])
  }

  function EpisodeTitle(item: Item): Str {
    var title := Titles.Sanitized(item.title);
    if title == [] then Lit("Episode " + Text.Itoa(item.episode)) else title
  }

  function EpisodeNumber(season: nat, episode: nat): string {
    " - s" + Padded(season) + "e" + Padded(episode) + " - "
  }

  function EpisodeNames(l: Layout, item: Item, ext: Str): Result<seq<Str>, LayoutError> {
    var show := Titles.Sanitized(item.showTitle);
    if show == [] then Err(NoShowTitle)
    else if item.season < 0 || item.episode < 0 then Err(NegativeNumber)
    else
      var base := show + Lit(EpisodeNumber(item.season, item.episode)) + EpisodeTitle(item) + DOT + ext;
      Ok([Lit(DirOr(l.showsDir, "shows")), show, Lit("Season " + Padded(item.season)), base])
  }

  function OtherNames(l: Layout, item: Item, ext: Str): Result<seq<Str>, LayoutError> {
    var title := Titles.Sanitized(item.title);
    if title == [] then Err(NoTitle) else Ok([Lit(DirOr(l.otherDir, "other")), title + DOT + ext])
  }

  /** The components Final joins below the media root. */
  function Below(l: Layout, item: Item): Result<seq<Str>, LayoutError> {
    var ext := Extension(item.container);
    if l.root == [] then Err(NoMediaRoot)
    else if ext == [] then Err(NoExtension)
    else match item.kind
      case Movie => MovieNames(l, item, ext)
      case Episode => EpisodeNames(l, item, ext)
      case _ => OtherNames(l, item, ext)
  }

  /** Layout.Final. */
  function Final(l: Layout, item: Item): Result<Str, LayoutError> {
    match Below(l, item)
    case Err(e) => Err(e)
    case Ok(names) => Ok(Join([l.root] + names))
  }

  const STAGING: Str := Lit(".partials")

  /** Layout.Partial, for the hexadecimal digest of an item's source and key. */
  function Partial(l: Layout, digest: string): Str
    requires l.root != []
  {
    Join([l.root, STAGING, Lit(digest + ".tmp")])
  }

  /** What Load and Effective leave in the three directory fields, or the blanks of a bare layout. */
  predicate DirsOk(l: Layout) {
    && (l.moviesDir == "" || CheckDir(l.moviesDir) == None)
    && (l.showsDir == "" || CheckDir(l.showsDir) == None)
    && (l.otherDir == "" || CheckDir(l.otherDir) == None)
  }

  // ---- everything laid out is a chain of proper names ----

  lemma DigitsPlain(s: string)
    requires Text.AllDigits(s)
    ensures !Contains(s, '/')
  {
  }

  lemma NumberPlain(n: nat)
    ensures !Contains(Text.Itoa(n), '/') && !Contains(Padded(n), '/')
  {
    DigitsPlain(Text.Itoa(n));
    assert Padded(n) == Text.Itoa(n) || Padded(n) == "0" + Text.Itoa(n);
  }

  lemma PlainAppend(a: string, b: string)
    requires !Contains(a, '/') && !Contains(b, '/')
    ensures !Contains(a + b, '/')
  {
  }

  lemma DirName(name: string, fallback: string)
    requires name == "" || CheckDir(name) == None
    requires fallback == "movies" || fallback == "shows" || fallback == "other"
    ensures Name(Lit(DirOr(name, fallback))) && Lit(DirOr(name, fallback))[0] != Rune('.')
  {
    CheckDirIff(DirOr(name, fallback));
  }

  /** A sanitized title is a component of its own, and stays one with a suffix. */
  lemma TitleName(s: Str, suffix: Str)
    requires Titles.Sanitized(s) != [] && NoSlash(suffix)
    ensures Name(Titles.Sanitized(s) + suffix)
  {
    var t := Titles.Sanitized(s);
    Titles.SanitizedNormal(s);
    hide Titles.Sanitized;
    assert forall i | 0 <= i < |t| :: Titles.Plain(t[i]);
    assert t[0] != Rune('.');
    assert (t + suffix)[0] == t[0];
  }

  lemma SuffixPlain(a: Str, b: Str)
    requires NoSlash(a) && NoSlash(b)
    ensures NoSlash(a + b)
  {
  }

  lemma YearPlain(year: nat)
    ensures NoSlash(Lit(" (" + Text.Itoa(year) + ")"))
  {
    NumberPlain(year);
    PlainAppend(" (", Text.Itoa(year));
    PlainAppend(" (" + Text.Itoa(year), ")");
    LitSlash(" (" + Text.Itoa(year) + ")");
  }

  lemma EpisodePlain(season: nat, episode: nat)
    ensures NoSlash(Lit(EpisodeNumber(season, episode)))
    ensures NoSlash(Lit("Episode " + Text.Itoa(episode)))
    ensures Name(Lit("Season " + Padded(season)))
  {
    NumberPlain(season);
    NumberPlain(episode);
    hide Padded, Text.Itoa, Lit;
    var a := " - s" + Padded(season);
    PlainAppend(" - s", Padded(season));
    PlainAppend(a, "e");
    PlainAppend(a + "e", Padded(episode));
    PlainAppend(a + "e" + Padded(episode), " - ");
    LitSlash(EpisodeNumber(season, episode));
    PlainAppend("Episode ", Text.Itoa(episode));
    LitSlash("Episode " + Text.Itoa(episode));
    PlainAppend("Season ", Padded(season));
    LitSlash("Season " + Padded(season));
    assert Lit("Season " + Padded(season))[0] == Rune('S');
  }

  /** What Below produces: proper names, of which the first is visible. */
  predicate Proper(names: seq<Str>) {
    |names| >= 2 && Names(names) && names[0][0] != Rune('.')
  }

  lemma MovieProper(l: Layout, item: Item, ext: Str)
    requires DirsOk(l) && NoSlash(ext) && MovieNames(l, item, ext).Ok?
    ensures Proper(MovieNames(l, item, ext).value)
  {
    hide Titles.Sanitized, CheckDir, Lit, Proper, Name, NoSlash;
    DirName(l.moviesDir, "movies");
    if item.year > 0 {
      var year := Lit(" (" + Text.Itoa(item.year) + ")");
      YearPlain(item.year);
      FileName(item.title, year, ext);
      ProperTwo(Lit(DirOr(l.moviesDir, "movies")), Titles.Sanitized(item.title) + year + DOT + ext);
    } else {
      EmptyPlain(Titles.Sanitized(item.title));
      FileName(item.title, [], ext);
      ProperTwo(Lit(DirOr(l.moviesDir, "movies")), Titles.Sanitized(item.title) + DOT + ext);
    }
  }

  lemma EmptyPlain(s: Str)
    ensures NoSlash([]) && s + [] == s
  {
  }

  /** A title, anything without a separator behind it, and an extension: one component. */
  lemma FileName(title: Str, suffix: Str, ext: Str)
    requires Titles.Sanitized(title) != [] && NoSlash(suffix) && NoSlash(ext)
    ensures Name(Titles.Sanitized(title) + suffix + DOT + ext)
  {
    hide Titles.Sanitized;
    SuffixPlain(suffix, DOT);
    SuffixPlain(suffix + DOT, ext);
    TitleName(title, suffix + DOT + ext);
    hide *;
    assert Titles.Sanitized(title) + suffix + DOT + ext == Titles.Sanitized(title) + (suffix + DOT + ext);
  }

  lemma ProperTwo(a: Str, b: Str)
    requires Name(a) && Name(b) && a[0] != Rune('.')
    ensures Proper([a, b])
  {
  }

  lemma OtherProper(l: Layout, item: Item, ext: Str)
    requires DirsOk(l) && NoSlash(ext) && OtherNames(l, item, ext).Ok?
    ensures Proper(OtherNames(l, item, ext).value)
  {
    hide Titles.Sanitized, CheckDir, Lit, Proper, Name, NoSlash;
    DirName(l.otherDir, "other");
    EmptyPlain(Titles.Sanitized(item.title));
    FileName(item.title, [], ext);
    ProperTwo(Lit(DirOr(l.otherDir, "other")), Titles.Sanitized(item.title) + DOT + ext);
  }

  lemma EpisodeProper(l: Layout, item: Item, ext: Str)
    requires DirsOk(l) && NoSlash(ext) && EpisodeNames(l, item, ext).Ok?
    ensures Proper(EpisodeNames(l, item, ext).value)
  {
    DirName(l.showsDir, "shows");
    EpisodePlain(item.season, item.episode);
    EpisodeTitlePlain(item);
    var number, title := Lit(EpisodeNumber(item.season, item.episode)), EpisodeTitle(item);
    hide Titles.Sanitized, CheckDir, Lit, EpisodeTitle, EpisodeNumber, Padded, DirsOk;
    EpisodeFile(item.showTitle, number, title, ext);
    var show := Titles.Sanitized(item.showTitle);
    ProperFour(Lit(DirOr(l.showsDir, "shows")), show, Lit("Season " + Padded(item.season)),
               show + number + title + DOT + ext);
    hide Proper, NoSlash;
  }

  lemma ProperFour(a: Str, b: Str, c: Str, d: Str)
    requires Name(a) && Name(b) && Name(c) && Name(d) && a[0] != Rune('.')
    ensures Proper([a, b, c, d])
  {
  }

  lemma EpisodeFile(showTitle: Str, number: Str, title: Str, ext: Str)
    requires Titles.Sanitized(showTitle) != [] && NoSlash(number) && NoSlash(title) && NoSlash(ext)
    ensures Name(Titles.Sanitized(showTitle))
    ensures Name(Titles.Sanitized(showTitle) + number + title + DOT + ext)
  {
    hide Titles.Sanitized;
    var show := Titles.Sanitized(showTitle);
    TitleName(showTitle, []);
    SuffixPlain(number, title);
    SuffixPlain(number + title, DOT);
    SuffixPlain(number + title + DOT, ext);
    TitleName(showTitle, number + title + DOT + ext);
    hide *;
    assert show + [] == show;
    assert show + number + title + DOT + ext == show + (number + title + DOT + ext);
  }

  lemma EpisodeTitlePlain(item: Item)
    requires item.episode >= 0
    ensures NoSlash(EpisodeTitle(item))
  {
    hide Titles.Sanitized, Lit, NoSlash, Name, EpisodeNumber;
    EpisodePlain(0, item.episode);
    if Titles.Sanitized(item.title) != [] {
      TitlePlain(item.title);
    }
  }

  lemma TitlePlain(title: Str)
    requires Titles.Sanitized(title) != []
    ensures NoSlash(Titles.Sanitized(title))
  {
    hide Titles.Sanitized;
    TitleName(title, []);
    assert Titles.Sanitized(title) + [] == Titles.Sanitized(title);
  }

  lemma {:induction false} BelowProper(l: Layout, item: Item)
    requires DirsOk(l) && NoSlash(Extension(item.container)) && Below(l, item).Ok?
    ensures Proper(Below(l, item).value)
  {
    var ext := Extension(item.container);
    hide MovieNames, EpisodeNames, OtherNames, Extension, DirsOk;
    match item.kind
    case Movie => MovieProper(l, item, ext);
    case Episode => EpisodeProper(l, item, ext);
    case _ => OtherProper(l, item, ext);
  }

  // ---- the names, letter by letter ----

  /** A number with at least two digits. */
  function Two(n: nat): string { (if n < 10 then "0" else "") + Text.Itoa(n) }

  /**
   * The directories and the file name of each kind of item, for its sanitized titles and its extension:
   * "movies/Title (1999).mkv", "shows/Show/Season 02/Show - s02e05 - Title.mkv", "other/Title.mkv".
   */
  lemma {:induction false} BelowSpelled(l: Layout, item: Item)
    requires l.root != [] && Extension(item.container) != []
    ensures var title, show := Titles.Sanitized(item.title), Titles.Sanitized(item.showTitle);
      var ext := Lit(".") + Extension(item.container);
      match item.kind
      case Movie =>
        if title == [] then Below(l, item) == Err(NoTitle)
        else
          Below(l, item) == Ok([Lit(if l.moviesDir == "" then "movies" else l.moviesDir),
                                title + (if item.year > 0 then Lit(" (" + Text.Itoa(item.year) + ")") else []) + ext])
      case Episode =>
        if show == [] then Below(l, item) == Err(NoShowTitle)
        else if item.season < 0 || item.episode < 0 then Below(l, item) == Err(NegativeNumber)
        else
          Below(l, item) == Ok([Lit(if l.showsDir == "" then "shows" else l.showsDir), show,
                                Lit("Season " + Two(item.season)),
                                show + Lit(" - s" + Two(item.season) + "e" + Two(item.episode) + " - ")
                                + (if title == [] then Lit("Episode " + Text.Itoa(item.episode)) else title) + ext])
      case _ =>
        if title == [] then Below(l, item) == Err(NoTitle)
        else Below(l, item) == Ok([Lit(if l.otherDir == "" then "other" else l.otherDir), title + ext])
  {
    hide Titles.Sanitized, Extension, Text.Itoa;
    assert Lit(".") == DOT;
    var ext := Extension(item.container);
    match item.kind
    case Movie => Dotted(MovieStem(item), ext);
    case Episode =>
      if item.season >= 0 && item.episode >= 0 {
        PaddedIsTwo(item.season);
        PaddedIsTwo(item.episode);
        hide Padded, Two;
        var number := Lit(EpisodeNumber(item.season, item.episode));
        Dotted(Titles.Sanitized(item.showTitle) + number + EpisodeTitle(item), ext);
      }
    case _ => Dotted(Titles.Sanitized(item.title), ext);
  }

  lemma Dotted(stem: Str, ext: Str)
    ensures stem + DOT + ext == stem + (DOT + ext) && stem + [] == stem
  {
  }

  lemma PaddedIsTwo(n: nat)
    ensures Padded(n) == Two(n)
  {
    assert "" + Text.Itoa(n) == Text.Itoa(n);
  }

  /** An extension is the container in small letters, without one leading dot. */
  lemma {:induction false} ExtensionIs(s: Str)
    ensures s != [] && s[0] == Rune('.') ==> |Extension(s)| == |s| - 1
    ensures s == [] || s[0] != Rune('.') ==> |Extension(s)| == |s|
    ensures var e := Extension(s);
      forall i | 0 <= i < |e| ::
        var x := s[|s| - |e| + i];
        e[i] == if x.Rune? && 'A' <= x.c <= 'Z' then Rune((x.c as int - 'A' as int + 'a' as int) as char) else x
  {
    LowerIs();
    ExtensionLow(s);
    hide Extension, LowerRune;
  }

  lemma LowerIs()
    ensures forall x: Sym ::
      LowerRune(x) == if x.Rune? && 'A' <= x.c <= 'Z' then Rune((x.c as int - 'A' as int + 'a' as int) as char) else x
    ensures forall x: Sym :: LowerRune(x) == Rune('.') <==> x == Rune('.')
  {
  }

  lemma ExtensionLow(s: Str)
    ensures var e := Extension(s);
      && |e| == (if s != [] && s[0] == Rune('.') then |s| - 1 else |s|)
      && forall i | 0 <= i < |e| :: e[i] == LowerRune(s[|s| - |e| + i])
  {
    var low := ToLower(s);
    DotOrNot(s);
    hide ToLower, LowerRune, Extension;
    if s != [] && s[0] == Rune('.') {
      var e := low[1..];
      forall i | 0 <= i < |e| ensures e[i] == LowerRune(s[|s| - |e| + i]) {
        assert e[i] == low[i + 1];
      }
    }
  }

  lemma DotOrNot(s: Str)
    ensures Extension(s) == if s != [] && s[0] == Rune('.') then ToLower(s)[1..] else ToLower(s)
  {
    LowerIs();
    var low := ToLower(s);
    assert s != [] ==> low[0] == LowerRune(s[0]);
    hide ToLower, LowerRune;
  }

  // ---- the theorems ----

  /** Everything laid out can be evicted: it resolves to proper names below the root, where the guard accepts it. */
  lemma {:induction false} FinalIsUnderRoot(cwd: Str, l: Layout, item: Item)
    requires Rooted(cwd) && DirsOk(l) && NoSlash(Extension(item.container)) && Final(l, item).Ok?
    ensures Abs(cwd, Final(l, item).value) == Abs(cwd, l.root) + Below(l, item).value
    ensures PathIsUnderRoot(cwd, l.root, Final(l, item).value) == Ok(true)
  {
    BelowProper(l, item);
    AbsJoin(cwd, l.root, Below(l, item).value);
    JoinedIsUnderRoot(cwd, l.root, Below(l, item).value);
  }

  lemma StagingNames(digest: string)
    requires !Contains(digest, '/')
    ensures Names([STAGING, Lit(digest + ".tmp")]) && STAGING[0] == Rune('.')
  {
    hide Lit;
    PlainAppend(digest, ".tmp");
    LitSlash(digest + ".tmp");
    LitSlash(".partials");
    assert Lit(digest + ".tmp")[|digest|..] == Lit(digest + ".tmp")[|digest|..][..4];
  }

  lemma {:induction false} PartialIsUnderRoot(cwd: Str, l: Layout, digest: string)
    requires Rooted(cwd) && l.root != [] && !Contains(digest, '/')
    ensures Abs(cwd, Partial(l, digest)) == Abs(cwd, l.root) + [STAGING, Lit(digest + ".tmp")]
    ensures STAGING == Lit(".partials")
    ensures PathIsUnderRoot(cwd, l.root, Partial(l, digest)) == Ok(true)
  {
    StagingNames(digest);
    var names := [STAGING, Lit(digest + ".tmp")];
    assert [l.root] + names == [l.root, STAGING, Lit(digest + ".tmp")];
    AbsJoin(cwd, l.root, names);
    JoinedIsUnderRoot(cwd, l.root, names);
  }

  lemma SameTail(a: seq<Str>, b: seq<Str>, c: seq<Str>)
    ensures a + b == a + c <==> b == c
  {
    assert (a + b)[|a|..] == b && (a + c)[|a|..] == c;
  }

  /** No finished file is anyone's partial. */
  lemma {:induction false} FinalIsNoPartial(l: Layout, item: Item, digest: string)
    requires DirsOk(l) && NoSlash(Extension(item.container)) && Final(l, item).Ok? && !Contains(digest, '/')
    ensures Final(l, item).value != Partial(l, digest)
  {
    var cwd := [SLASH];
    FinalIsUnderRoot(cwd, l, item);
    PartialIsUnderRoot(cwd, l, digest);
    BelowProper(l, item);
    StagingNames(digest);
    hide Final, Partial, Below, Abs;
    SameTail(Abs(cwd, l.root), Below(l, item).value, [STAGING, Lit(digest + ".tmp")]);
  }

  /** Partials are shared exactly by items whose digests collide. */
  lemma {:induction false} PartialSameIff(l: Layout, a: string, b: string)
    requires l.root != [] && !Contains(a, '/') && !Contains(b, '/')
    ensures Partial(l, a) == Partial(l, b) <==> a == b
  {
    var cwd := [SLASH];
    PartialIsUnderRoot(cwd, l, a);
    PartialIsUnderRoot(cwd, l, b);
    SameTail(Abs(cwd, l.root), [STAGING, Lit(a + ".tmp")], [STAGING, Lit(b + ".tmp")]);
    if Lit(a + ".tmp") == Lit(b + ".tmp") {
      LitInjective(a + ".tmp", b + ".tmp");
      assert a == (a + ".tmp")[..|a|] && b == (b + ".tmp")[..|b|];
    }
  }

  lemma LitInjective(a: string, b: string)
    requires Lit(a) == Lit(b)
    ensures a == b
  {
    assert |a| == |b|;
    assert forall i | 0 <= i < |a| :: Lit(a)[i] == Rune(a[i]) && Lit(b)[i] == Rune(b[i]);
  }

  lemma {:induction false} FinalSameBelow(l: Layout, a: Item, b: Item)
    requires DirsOk(l) && NoSlash(Extension(a.container)) && NoSlash(Extension(b.container))
    requires Final(l, a).Ok? && Final(l, b).Ok?
    ensures Final(l, a) == Final(l, b) <==> Below(l, a) == Below(l, b)
  {
    var cwd := [SLASH];
    FinalIsUnderRoot(cwd, l, a);
    FinalIsUnderRoot(cwd, l, b);
    SameTail(Abs(cwd, l.root), Below(l, a).value, Below(l, b).value);
  }

  // ---- when two items share a file, in terms of their fields ----

  /** The directory of a movie or of anything that is no episode. */
  function Shelf(l: Layout, item: Item): string {
    if item.kind.Movie? then DirOr(l.moviesDir, "movies") else DirOr(l.otherDir, "other")
  }

  function Stem(item: Item): Str {
    if item.kind.Movie? then MovieStem(item) else Titles.Sanitized(item.title)
  }

  function Named(stem: Str, item: Item): Str { stem + DOT + Extension(item.container) }

  /**
   * Episodes share a file by show, season, episode, shown title and extension; other items by
   * directory, title (with its year, for a movie) and extension; an episode and another item never.
   */
  predicate SamePlace(l: Layout, a: Item, b: Item) {
    if a.kind.Episode? && b.kind.Episode? then
      && Titles.Sanitized(a.showTitle) == Titles.Sanitized(b.showTitle)
      && a.season == b.season && a.episode == b.episode && Named(EpisodeTitle(a), a) == Named(EpisodeTitle(b), b)
    else
      && !a.kind.Episode? && !b.kind.Episode?
      && Shelf(l, a) == Shelf(l, b) && Named(Stem(a), a) == Named(Stem(b), b)
  }

  predicate NoDot(s: Str) { forall i | 0 <= i < |s| :: s[i] != Rune('.') }

  /** What stands after the last dot. */
  function AfterDot(s: Str): Str {
    if s == [] || s[|s| - 1] == Rune('.') then [] else AfterDot(s[..|s| - 1]) + [s[|s| - 1]]
  }

  lemma {:induction false} AfterDotIs(t: Str, ext: Str)
    requires NoDot(ext)
    ensures AfterDot(t + DOT + ext) == ext
  {
    var s := t + DOT + ext;
    if ext == [] {
      assert s[|s| - 1] == Rune('.');
    } else {
      var n := |ext| - 1;
      assert s[|s| - 1] == ext[n];
      assert s[..|s| - 1] == t + DOT + ext[..n];
      AfterDotIs(t, ext[..n]);
      assert ext[..n] + [ext[n]] == ext;
    }
  }

  /** With dotless extensions equal names have equal stems and equal extensions. */
  lemma {:induction false} NamedSameIff(s: Str, a: Item, t: Str, b: Item)
    requires NoDot(Extension(a.container)) && NoDot(Extension(b.container))
    ensures Named(s, a) == Named(t, b) <==> s == t && Extension(a.container) == Extension(b.container)
  {
    var x, y := Extension(a.container), Extension(b.container);
    hide Extension;
    AfterDotIs(s, x);
    AfterDotIs(t, y);
    if Named(s, a) == Named(t, b) {
      assert Named(s, a)[..|s|] == s && Named(t, b)[..|t|] == t;
    }
  }

  lemma {:induction false} LitJoin(a: string, b: string)
    ensures Lit(a + b) == Lit(a) + Lit(b)
  {
    hide Lit;
    var x, y := Lit(a + b), Lit(a) + Lit(b);
    assert forall i | 0 <= i < |x| :: x[i] == y[i];
  }

  lemma PaddedValue(n: nat)
    ensures Text.AllDigits(Padded(n)) && Text.Value(Padded(n)) == n
  {
    Text.ValueOfDigits(n);
    if n < 10 {
      var s := "0" + Text.Itoa(n);
      assert s[..|s| - 1] == "0" && "0"[..0] == "";
      assert Text.Value("0") == 0;
      assert s[|s| - 1] == Text.Itoa(n)[0];
    }
  }

  predicate DigitRune(x: Sym) { x.Rune? && Text.IsDigit(x.c) }

  /** How many digits a text starts with. */
  function LeadingDigits(s: Str): nat {
    if s == [] || !DigitRune(s[0]) then 0 else 1 + LeadingDigits(s[1..])
  }

  lemma {:induction false} LeadingDigitsIs(p: string, rest: Str)
    requires Text.AllDigits(p) && rest != [] && !DigitRune(rest[0])
    ensures LeadingDigits(Lit(p) + rest) == |p|
  {
    var s := Lit(p) + rest;
    if p == "" {
      assert s == rest;
    } else {
      assert p == [p[0]] + p[1..];
      LitJoin([p[0]], p[1..]);
      assert s[1..] == Lit(p[1..]) + rest;
      assert Text.AllDigits(p[1..]);
      LeadingDigitsIs(p[1..], rest);
    }
  }

  /** A number followed by something else is read off unambiguously. */
  lemma {:induction false} NumberSame(m: nat, u: Str, n: nat, v: Str)
    requires u != [] && v != [] && !DigitRune(u[0]) && !DigitRune(v[0])
    ensures Lit(Padded(m)) + u == Lit(Padded(n)) + v <==> m == n && u == v
  {
    PaddedValue(m);
    PaddedValue(n);
    LeadingDigitsIs(Padded(m), u);
    LeadingDigitsIs(Padded(n), v);
    hide Padded, Lit, LeadingDigits;
    var x, y := Lit(Padded(m)), Lit(Padded(n));
    if x + u == y + v {
      assert (x + u)[..|x|] == x && (y + v)[..|y|] == y;
      LitInjective(Padded(m), Padded(n));
      assert (x + u)[|x|..] == u && (y + v)[|y|..] == v;
    }
  }

  lemma StripFront(p: Str, u: Str, v: Str)
    ensures p + u == p + v <==> u == v
  {
    assert (p + u)[|p|..] == u && (p + v)[|p|..] == v;
  }

  /** An episode's file name, as its show, the numbers, and the rest. */
  lemma EpisodeFileParts(show: Str, season: nat, episode: nat, rest: Str)
    ensures show + Lit(EpisodeNumber(season, episode)) + rest
         == show + (Lit(" - s") + (Lit(Padded(season)) + (Lit("e") + (Lit(Padded(episode)) + (Lit(" - ") + rest)))))
  {
    LitJoin(" - s", Padded(season));
    LitJoin(" - s" + Padded(season), "e");
    LitJoin(" - s" + Padded(season) + "e", Padded(episode));
    LitJoin(" - s" + Padded(season) + "e" + Padded(episode), " - ");
    hide Lit, Padded;
  }

  lemma {:induction false} EpisodeFileSameIff(show: Str, season: nat, e: nat, s: Str, f: nat, t: Str)
    ensures show + Lit(EpisodeNumber(season, e)) + s == show + Lit(EpisodeNumber(season, f)) + t <==> e == f && s == t
  {
    EpisodeFileParts(show, season, e, s);
    EpisodeFileParts(show, season, f, t);
    var dash := Lit(" - ");
    assert dash != [] && dash[0] == Rune(' ');
    var u, v := Lit(Padded(e)) + (dash + s), Lit(Padded(f)) + (dash + t);
    hide Lit, Padded, EpisodeNumber;
    NumberSame(e, dash + s, f, dash + t);
    StripFront(dash, s, t);
    StripFront(Lit("e"), u, v);
    StripFront(Lit(Padded(season)), Lit("e") + u, Lit("e") + v);
    StripFront(Lit(" - s"), Lit(Padded(season)) + (Lit("e") + u), Lit(Padded(season)) + (Lit("e") + v));
    StripFront(show, Lit(" - s") + (Lit(Padded(season)) + (Lit("e") + u)),
               Lit(" - s") + (Lit(Padded(season)) + (Lit("e") + v)));
  }

  lemma SeasonSameIff(m: nat, n: nat)
    ensures Lit("Season " + Padded(m)) == Lit("Season " + Padded(n)) <==> m == n
  {
    PaddedValue(m);
    PaddedValue(n);
    hide Lit, Padded;
    if Lit("Season " + Padded(m)) == Lit("Season " + Padded(n)) {
      LitInjective("Season " + Padded(m), "Season " + Padded(n));
      assert ("Season " + Padded(m))[7..] == Padded(m) && ("Season " + Padded(n))[7..] == Padded(n);
    }
  }

  lemma {:induction false} EpisodesSameIff(l: Layout, a: Item, b: Item)
    requires a.kind.Episode? && b.kind.Episode? && Below(l, a).Ok? && Below(l, b).Ok?
    ensures Below(l, a) == Below(l, b) <==> SamePlace(l, a, b)
  {
    hide Titles.Sanitized, EpisodeTitle, EpisodeNumber, Padded, Lit, Extension;
    var show := Titles.Sanitized(a.showTitle);
    SeasonSameIff(a.season, b.season);
    EpisodeBase(l, a);
    EpisodeBase(l, b);
    if Titles.Sanitized(b.showTitle) == show && a.season == b.season {
      EpisodeFileSameIff(show, a.season, a.episode, Named(EpisodeTitle(a), a), b.episode, Named(EpisodeTitle(b), b));
    }
    hide Named, Below;
  }

  /** The four components of an episode. */
  lemma EpisodeBase(l: Layout, item: Item)
    requires item.kind.Episode? && Below(l, item).Ok?
    ensures item.season >= 0 && item.episode >= 0
    ensures Below(l, item).value ==
      [Lit(DirOr(l.showsDir, "shows")), Titles.Sanitized(item.showTitle), Lit("Season " + Padded(item.season)),
       Titles.Sanitized(item.showTitle) + Lit(EpisodeNumber(item.season, item.episode))
       + Named(EpisodeTitle(item), item)]
  {
    hide Titles.Sanitized, EpisodeTitle, EpisodeNumber, Padded, Lit, Extension;
    assert forall x: Str, t: Str, e: Str :: x + t + DOT + e == x + (t + DOT + e);
  }

  lemma ShelfBase(l: Layout, item: Item)
    requires !item.kind.Episode? && Below(l, item).Ok?
    ensures Below(l, item).value == [Lit(Shelf(l, item)), Named(Stem(item), item)]
  {
    hide Titles.Sanitized, Lit, Extension, MovieStem;
  }

  lemma {:induction false} BelowSameIff(l: Layout, a: Item, b: Item)
    requires Below(l, a).Ok? && Below(l, b).Ok?
    ensures Below(l, a) == Below(l, b) <==> SamePlace(l, a, b)
  {
    hide Titles.Sanitized, EpisodeTitle, Lit, Below, Named, Stem, Shelf, EpisodeNumber, Padded;
    if a.kind.Episode? && b.kind.Episode? {
      EpisodesSameIff(l, a, b);
    } else {
      if a.kind.Episode? {
        EpisodeBase(l, a);
      } else {
        ShelfBase(l, a);
      }
      if b.kind.Episode? {
        EpisodeBase(l, b);
      } else {
        ShelfBase(l, b);
      }
      if Lit(Shelf(l, a)) == Lit(Shelf(l, b)) {
        LitInjective(Shelf(l, a), Shelf(l, b));
      }
    }
  }

  /** Two items share a finished path exactly when their fields put them in the same place. */
  lemma {:induction false} FinalSameIff(l: Layout, a: Item, b: Item)
    requires DirsOk(l) && NoSlash(Extension(a.container)) && NoSlash(Extension(b.container))
    requires Final(l, a).Ok? && Final(l, b).Ok?
    ensures Final(l, a) == Final(l, b) <==> SamePlace(l, a, b)
  {
    FinalSameBelow(l, a, b);
    BelowSameIff(l, a, b);
  }

  /** With dotless extensions: the same extension, and field by field the same place and name. */
  lemma {:induction false} FinalSameFieldsIff(l: Layout, a: Item, b: Item)
    requires DirsOk(l) && NoSlash(Extension(a.container)) && NoSlash(Extension(b.container))
    requires NoDot(Extension(a.container)) && NoDot(Extension(b.container))
    requires Final(l, a).Ok? && Final(l, b).Ok?
    ensures Final(l, a) == Final(l, b) <==>
      && Extension(a.container) == Extension(b.container)
      && (if a.kind.Episode? && b.kind.Episode? then
            && Titles.Sanitized(a.showTitle) == Titles.Sanitized(b.showTitle)
            && a.season == b.season && a.episode == b.episode && EpisodeTitle(a) == EpisodeTitle(b)
          else
            !a.kind.Episode? && !b.kind.Episode? && Shelf(l, a) == Shelf(l, b) && Stem(a) == Stem(b))
  {
    FinalSameIff(l, a, b);
    NamedSameIff(EpisodeTitle(a), a, EpisodeTitle(b), b);
    NamedSameIff(Stem(a), a, Stem(b), b);
    hide Final, Extension, Named, Titles.Sanitized, EpisodeTitle, Stem, Shelf;
  }

  /** So a movie with its year in a field and one with the year in its title land on one file. */
  lemma {:induction false} YearInTitleCollides(l: Layout, a: Item, b: Item)
    requires a.kind == Movie && b.kind == Movie && a.container == b.container && a.year > 0 >= b.year
    requires b.title == a.title + Lit(" (" + Text.Itoa(a.year) + ")")
    requires Titles.Sanitized(a.title) == a.title && Titles.Sanitized(b.title) == b.title && a.title != []
    ensures Final(l, a) == Final(l, b)
  {
    hide Titles.Sanitized;
    var year := Lit(" (" + Text.Itoa(a.year) + ")");
    assert a.title + year + DOT + Extension(a.container) == b.title + DOT + Extension(b.container);
  }

  /** The file lands in its own directory under its own name exactly when the extension has no separator. */
  lemma {:induction false} FinalInPlaceIff(cwd: Str, l: Layout, item: Item)
    requires Rooted(cwd) && DirsOk(l) && Final(l, item).Ok?
    ensures Abs(cwd, Final(l, item).value) == Abs(cwd, l.root) + Below(l, item).value
            <==> NoSlash(Extension(item.container))
  {
    var ext := Extension(item.container);
    if NoSlash(ext) {
      FinalIsUnderRoot(cwd, l, item);
    } else {
      var names := Below(l, item).value;
      var base := Abs(cwd, l.root);
      AbsNames(cwd, Final(l, item).value);
      LastHoldsExtension(l, item);
      var whole := base + names;
      assert whole[|whole| - 1] == names[|names| - 1];
    }
  }

  lemma SlashStays(a: Str, ext: Str)
    requires !NoSlash(ext)
    ensures !NoSlash(a + ext)
  {
    assert forall x | x in ext :: x in a + ext;
  }

  lemma {:induction false} LastHoldsExtension(l: Layout, item: Item)
    requires Below(l, item).Ok? && !NoSlash(Extension(item.container))
    ensures var names := Below(l, item).value; names != [] && !NoSlash(names[|names| - 1])
  {
    hide Titles.Sanitized, Extension, Lit, NoSlash, EpisodeTitle, EpisodeNumber;
    var ext := Extension(item.container);
    var names := Below(l, item).value;
    var title := Titles.Sanitized(item.title);
    match item.kind
    case Movie =>
      SlashStays(title + Lit(" (" + Text.Itoa(item.year) + ")") + DOT, ext);
      SlashStays(title + DOT, ext);
    case Episode =>
      var number := Lit(EpisodeNumber(item.season, item.episode));
      SlashStays(Titles.Sanitized(item.showTitle) + number + EpisodeTitle(item) + DOT, ext);
    case _ => SlashStays(title + DOT, ext);
  }
}

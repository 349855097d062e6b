/** The portal's settings page: what it shows, what a save stores, and what becomes of the running service. */
module SettingsForm {
  import opened Basics
  import opened Text
  import opened Size
  import opened Settings

  // ---- the settings table ----

  /** A stored value; a secret may be unreadable with the key now in use. */
  datatype Stored = Readable(value: string) | Unreadable

  type Store = map<Key, Stored>

  /** GetAll: an unreadable secret reads as empty. */
  function GetAll(s: Store): Values {
    map k | k in s :: if s[k].Readable? then s[k].value else ""
  }

  /** The table after SetMany. */
  function Written(s: Store, kv: Values): Store {
    map k | k in s.Keys + kv.Keys :: if k in kv then Readable(kv[k]) else s[k]
  }

  /** maps.Copy over a clone of the current values. */
  function Overlaid(vals: Values, kv: Values): Values { vals + kv }

  lemma GetAllWritten(s: Store, kv: Values)
    ensures GetAll(Written(s, kv)) == Overlaid(GetAll(s), kv)
  {
  }

  // ---- the view ----

  datatype View = View(
    plexURL: string, plexServer: string, plexClientID: string, jellyfinURL: string, jellyfinUser: string,
    dirs: Dirs, hardCap: string, softCap: string,
    concurrency: string, pollEvery: string, buffer: string, healthEvery: string)

  function CapView(vals: Values, k: Key, bytes: int): string {
    if k in vals then vals[k] else if bytes <= 0 then "" else Itoa(bytes)
  }

  function BufferView(vals: Values, bytes: int): string {
    if Given(vals, Buffer) then vals[Buffer] else if bytes <= 0 then "" else Itoa(bytes)
  }

  /** The editable part of ConfigView, for the configuration in effect. */
  function ViewOf(c: Clock, vals: Values, eff: Config): View {
    View(eff.sources.plexURL, eff.sources.plexServer, eff.sources.plexClientID,
         eff.sources.jellyfinURL, eff.sources.jellyfinUser, eff.dirs,
         CapView(vals, HardCap, eff.limits.hard), CapView(vals, SoftCap, eff.limits.soft),
         Itoa(eff.limits.concurrency), c.print_(eff.limits.pollEvery),
         BufferView(vals, eff.limits.buffer), c.print_(eff.limits.healthEvery))
  }

  /** ConfigView: when the stored settings are invalid the environment's stand in for them. */
  function ConfigView(c: Clock, base: Config, vals: Values): View {
    ViewOf(c, vals, if EffectiveOf(c, base, vals).Ok? then EffectiveOf(c, base, vals).value else base)
  }

  /** tokenBadge: the (set, unreadable) pair shown for a token. */
  function TokenBadge(s: Store, k: Key, token: string): (bool, bool) {
    if k !in s then (token != "", false)
    else if s[k].Unreadable? then (false, true)
    else (s[k].value != "", false)
  }

  function TokenOf(c: Sources, k: Key): string
    requires Secret(k)
  {
    if k.PlexToken? then c.plexToken else c.jellyfinToken
  }

  /** While the stored settings are valid the badge says exactly whether a token is in effect, and why not. */
  lemma {:induction false} BadgeIsHonest(c: Clock, base: Config, s: Store, k: Key)
    requires Secret(k) && EffectiveOf(c, base, GetAll(s)).Ok?
    ensures
      var token := TokenOf(EffectiveOf(c, base, GetAll(s)).value.sources, k);
      var badge := TokenBadge(s, k, token);
      badge.0 == (token != "") && badge.1 == (k in s && s[k].Unreadable?)
  {
    hide MergedLimits, MergedDirs, FirstBad;
  }

  // ---- the form ----

  datatype Form = Form(view: View, plexToken: string, clearPlex: bool, jellyfinToken: string, clearJellyfin: bool)

  /** The form as rendered: the view's fields, and blank tokens that are not being cleared. */
  function Untouched(v: View): Form { Form(v, "", false, "", false) }

  function Posted(v: View, k: Key): string
    requires !Secret(k)
  {
    match k
    case PlexURL => v.plexURL
    case PlexServer => v.plexServer
    case PlexClientID => v.plexClientID
    case JellyfinURL => v.jellyfinURL
    case JellyfinUser => v.jellyfinUser
    case MoviesDir => Trim(v.dirs.movies)
    case ShowsDir => Trim(v.dirs.shows)
    case OtherDir => Trim(v.dirs.other)
    case HardCap => Trim(v.hardCap)
    case SoftCap => Trim(v.softCap)
    case Concurrency => Trim(v.concurrency)
    case PollEvery => Trim(v.pollEvery)
    case Buffer => Trim(v.buffer)
    case HealthEvery => Trim(v.healthEvery)
  }

  /** The non-secret settings a save writes, always all of them. */
  function Plain(v: View): Values {
    map k: Key | !Secret(k) :: Posted(v, k)
  }

  /** applySecretToSet. */
  function WithSecret(kv: Values, k: Key, token: string, clear: bool): Values {
    if clear then kv[k := ""] else if token != "" then kv[k := token] else kv
  }

  /** Everything a save writes. */
  function ToSet(f: Form): Values {
    WithSecret(WithSecret(Plain(f.view), PlexToken, f.plexToken, f.clearPlex),
               JellyfinToken, f.jellyfinToken, f.clearJellyfin)
  }

  // ---- saving the form unchanged ----

  /** The library prints every duration as text that is not blank and parses back to it. */
  ghost predicate UndoesPrinting(c: Clock) {
    forall d: int | d >= 0 :: Trim(c.print_(d)) == c.print_(d) != "" && c.parse(c.print_(d)) == Some(d)
  }

  lemma UpperBlank(s: string)
    ensures Blank(Upper(s)) <==> Blank(s)
  {
    assert forall i | 0 <= i < |s| :: IsSpace(Upper(s)[i]) <==> IsSpace(s[i]);
  }

  lemma UpperJoin(a: string, b: string)
    ensures Upper(a + b) == Upper(a) + Upper(b)
  {
  }

  /** Blanks around a size never matter. */
  lemma {:induction false} SizeOfTrimmed(raw: string)
    ensures SizeOf(Trim(raw)) == SizeOf(raw)
  {
    var l, r := TrimSplits(raw);
    var core := Trim(raw);
    UpperBlank(l);
    UpperBlank(r);
    UpperJoin(l, core);
    UpperJoin(l + core, r);
    UpperTrimmed(core);
    TrimFinds(Upper(l), Upper(core), Upper(r));
    TrimKeeps(Upper(core));
    hide Trim, Upper, UnitOf, TrimSuffix, Read;
  }

  lemma UpperTrimmed(s: string)
    requires Trimmed(s)
    ensures Trimmed(Upper(s))
  {
  }

  lemma TrimTwice(s: string)
    ensures Trim(Trim(s)) == Trim(s)
  {
    TrimKeeps(Trim(s));
  }

  /** A cap shown and stored again reads as the cap it was. */
  lemma {:induction false} CapRoundTrip(vals: Values, k: Key, base: int)
    requires 0 <= base <= MAX_INT64 && (k in vals ==> SizeOf(vals[k]).Ok?)
    ensures SizeOf(Trim(CapView(vals, k, CapOr(vals, k, base)))) == Ok(CapOr(vals, k, base))
  {
    hide SizeOf, Trim, Itoa;
    SizeOfTrimmed(CapView(vals, k, CapOr(vals, k, base)));
    EmptyIsZero();
    SizeReadsPrinted(base);
  }

  lemma EmptyIsZero()
    ensures SizeOf("") == Ok(0) && Trim("") == ""
  {
    assert Upper("") == "";
  }

  lemma {:induction false} BufferRoundTrip(vals: Values, base: int, again: Values)
    requires 0 <= base <= MAX_INT64 && (Given(vals, Buffer) ==> SizeOf(vals[Buffer]).Ok?)
    requires Buffer in again && again[Buffer] == Trim(BufferView(vals, SizeOr(vals, Buffer, base)))
    ensures SizeOr(again, Buffer, base) == SizeOr(vals, Buffer, base)
    ensures Given(again, Buffer) <==> Given(vals, Buffer) || base > 0
    ensures Given(again, Buffer) ==> SizeOf(again[Buffer]) == Ok(SizeOr(vals, Buffer, base))
  {
    hide SizeOf, Trim, Itoa;
    var shown := BufferView(vals, SizeOr(vals, Buffer, base));
    SizeOfTrimmed(shown);
    TrimTwice(shown);
    SizeReadsPrinted(base);
    ParsePrintedPlain(base);
    EmptyIsZero();
  }

  lemma ParsePrintedPlain(n: int)
    requires 0 <= n <= MAX_INT64
    ensures Itoa(n) != "" && Trim(Itoa(n)) == Itoa(n) && ParseInt(Itoa(n)) == Some(n)
  {
    ParsePrinted(n);
    TrimKeeps(Itoa(n));
  }

  lemma {:induction false} DirRoundTrip(vals: Values, k: Key, base: string, again: Values)
    requires DirFine(DirOr(vals, k, base))
    requires k in again && again[k] == Trim(DirOr(vals, k, base))
    ensures DirOr(again, k, base) == DirOr(vals, k, base) && Given(again, k)
    ensures Layout.CheckDir(Trim(again[k])) == None
  {
    var d := DirOr(vals, k, base);
    TrimKeeps(d);
    hide Trim;
  }

  lemma {:induction false} CountRoundTrip(vals: Values, base: int, again: Values)
    requires 1 <= CountOr(vals, Concurrency, base) <= 32
    requires Concurrency in again && again[Concurrency] == Trim(Itoa(CountOr(vals, Concurrency, base)))
    ensures CountOr(again, Concurrency, base) == CountOr(vals, Concurrency, base) && Given(again, Concurrency)
    ensures ParseInt(Trim(again[Concurrency])) == Some(CountOr(vals, Concurrency, base))
  {
    var n := CountOr(vals, Concurrency, base);
    ParsePrintedPlain(n);
    hide Trim, Itoa, ParseInt, CountOr;
    assert Given(again, Concurrency);
    CountIs(again, base, n);
  }

  lemma CountIs(vals: Values, base: int, n: int)
    requires Given(vals, Concurrency) && ParseInt(Trim(vals[Concurrency])) == Some(n)
    ensures CountOr(vals, Concurrency, base) == n
  {
  }

  lemma {:induction false} DurationRoundTrip(c: Clock, vals: Values, k: Key, base: int, again: Values)
    requires UndoesPrinting(c) && DurationOr(c, vals, k, base) >= 0
    requires k in again && again[k] == Trim(c.print_(DurationOr(c, vals, k, base)))
    ensures DurationOr(c, again, k, base) == DurationOr(c, vals, k, base) && Given(again, k)
    ensures c.parse(Trim(again[k])) == Some(DurationOr(c, vals, k, base))
  {
    var d := DurationOr(c, vals, k, base);
    assert Trim(c.print_(d)) == c.print_(d) != "" && c.parse(c.print_(d)) == Some(d);
    hide Trim;
  }

  /** The values after the page is saved as it was shown. */
  function Resaved(c: Clock, base: Config, vals: Values): Values {
    Overlaid(vals, ToSet(Untouched(ConfigView(c, base, vals))))
  }

  lemma ResavedIs(c: Clock, base: Config, vals: Values)
    ensures ToSet(Untouched(ConfigView(c, base, vals))) == Plain(ConfigView(c, base, vals))
    ensures forall k :: k in Resaved(c, base, vals) <==> k in vals || !Secret(k)
    ensures forall k :: !Secret(k) ==> Resaved(c, base, vals)[k] == Plain(ConfigView(c, base, vals))[k]
    ensures forall k | Secret(k) && k in vals :: Resaved(c, base, vals)[k] == vals[k]
  {
    hide ConfigView, Posted;
  }

  // Below, `again` is what is stored after the save and `other` what the environment may supply later.

  /** What the save stores for one setting, when the stored settings were valid. */
  lemma ResavedAt(c: Clock, base: Config, vals: Values, k: Key)
    requires EffectiveOf(c, base, vals).Ok? && !Secret(k)
    ensures k in Resaved(c, base, vals)
    ensures Resaved(c, base, vals)[k] == Posted(ViewOf(c, vals, Merged(c, base, vals)), k)
  {
    ResavedIs(c, base, vals);
    hide Resaved, Posted, ViewOf, Merged, FirstBad;
  }

  lemma {:induction false} CapStays(c: Clock, base: Config, vals: Values, k: Key, b: int, other: int)
    requires EffectiveOf(c, base, vals).Ok? && WithinBounds(base)
    requires (k.HardCap? && b == base.limits.hard) || (k.SoftCap? && b == base.limits.soft)
    ensures CapOr(Resaved(c, base, vals), k, other) == CapOr(vals, k, b) && Fine(c, Resaved(c, base, vals), k)
  {
    hide Resaved, SizeOf, Trim, CapView, EffectiveOf, DirFine, CapOr, MergedSources, MergedDirs, BufferView, Itoa;
    ResavedAt(c, base, vals, k);
    AllFineWhenOk(c, base, vals, k);
    CapFine(c, vals, k);
    CapRoundTrip(vals, k, b);
    CapGiven(c, Resaved(c, base, vals), k, other, CapOr(vals, k, b));
  }

  lemma AllFineWhenOk(c: Clock, base: Config, vals: Values, k: Key)
    requires EffectiveOf(c, base, vals).Ok?
    ensures Fine(c, vals, k)
  {
    NoneBad(c, vals);
    hide Fine, FirstBad, Merged;
  }

  lemma CapFine(c: Clock, vals: Values, k: Key)
    requires Fine(c, vals, k) && (k.HardCap? || k.SoftCap?)
    ensures k in vals ==> SizeOf(vals[k]).Ok?
  {
    hide SizeOf;
  }

  lemma CapGiven(c: Clock, again: Values, k: Key, other: int, n: int)
    requires (k.HardCap? || k.SoftCap?) && k in again && SizeOf(again[k]) == Ok(n)
    ensures CapOr(again, k, other) == n && Fine(c, again, k)
  {
    hide SizeOf;
  }

  lemma {:induction false} CountStays(c: Clock, base: Config, vals: Values, other: int)
    requires EffectiveOf(c, base, vals).Ok? && WithinBounds(base)
    ensures CountOr(Resaved(c, base, vals), Concurrency, other) == CountOr(vals, Concurrency, base.limits.concurrency)
    ensures Fine(c, Resaved(c, base, vals), Concurrency)
  {
    hide Resaved, ParseInt, Trim, EffectiveOf, DirFine, CountOr, MergedSources, MergedDirs, CapView, BufferView, Itoa;
    ResavedAt(c, base, vals, Concurrency);
    AllFineWhenOk(c, base, vals, Concurrency);
    CountBounds(c, vals, base.limits.concurrency);
    CountRoundTrip(vals, base.limits.concurrency, Resaved(c, base, vals));
    CountGiven(c, Resaved(c, base, vals), other, CountOr(vals, Concurrency, base.limits.concurrency));
  }

  lemma CountGiven(c: Clock, again: Values, other: int, n: int)
    requires Given(again, Concurrency) && ParseInt(Trim(again[Concurrency])) == Some(n) && 1 <= n <= 32
    ensures CountOr(again, Concurrency, other) == n && Fine(c, again, Concurrency)
  {
    hide ParseInt, Trim;
  }

  lemma {:induction false} DurationStays(c: Clock, base: Config, vals: Values, k: Key, b: int, other: int)
    requires EffectiveOf(c, base, vals).Ok? && WithinBounds(base) && UndoesPrinting(c)
    requires (k.PollEvery? && b == base.limits.pollEvery) || (k.HealthEvery? && b == base.limits.healthEvery)
    ensures DurationOr(c, Resaved(c, base, vals), k, other) == DurationOr(c, vals, k, b)
    ensures Fine(c, Resaved(c, base, vals), k)
  {
    hide Resaved, Trim, EffectiveOf, DirFine, DurationOr, MergedSources, MergedDirs, CapView, BufferView, Itoa;
    hide UndoesPrinting;
    ResavedAt(c, base, vals, k);
    AllFineWhenOk(c, base, vals, k);
    DurationBounds(c, vals, k, b);
    DurationRoundTrip(c, vals, k, b, Resaved(c, base, vals));
    DurationGiven(c, Resaved(c, base, vals), k, other, DurationOr(c, vals, k, b));
  }

  lemma DurationGiven(c: Clock, again: Values, k: Key, other: int, d: int)
    requires Given(again, k) && c.parse(Trim(again[k])) == Some(d) && d >= 0 && (k.PollEvery? || k.HealthEvery?)
    ensures DurationOr(c, again, k, other) == d && Fine(c, again, k)
  {
    hide Trim;
  }

  lemma {:induction false} BufferStays(c: Clock, base: Config, vals: Values, other: int)
    requires EffectiveOf(c, base, vals).Ok? && WithinBounds(base)
    ensures
      var again := Resaved(c, base, vals);
      var b := base.limits.buffer;
      && SizeOr(again, Buffer, other) == (if Given(again, Buffer) then SizeOr(vals, Buffer, b) else other)
      && (Given(again, Buffer) <==> Given(vals, Buffer) || b > 0)
      && (!Given(again, Buffer) ==> SizeOr(vals, Buffer, b) == b)
      && Fine(c, again, Buffer)
  {
    hide Resaved, Trim, SizeOf, EffectiveOf, DirFine, SizeOr;
    hide MergedSources, MergedDirs, CapView, BufferView, Itoa, Given;
    var again := Resaved(c, base, vals);
    ResavedAt(c, base, vals, Buffer);
    AllFineWhenOk(c, base, vals, Buffer);
    BufferBounds(c, vals, base.limits.buffer);
    BufferFine(c, vals);
    BufferRoundTrip(vals, base.limits.buffer, again);
    BufferGiven(c, again, other, SizeOr(vals, Buffer, base.limits.buffer));
    BufferAbsent(c, again, other);
    BufferAbsent(c, vals, base.limits.buffer);
  }

  lemma BufferFine(c: Clock, vals: Values)
    requires Fine(c, vals, Buffer)
    ensures Given(vals, Buffer) ==> SizeOf(vals[Buffer]).Ok?
  {
    hide SizeOf, Trim;
  }

  lemma BufferGiven(c: Clock, again: Values, other: int, n: int)
    requires Given(again, Buffer) ==> SizeOf(again[Buffer]) == Ok(n) && n <= MAX_BUFFER
    ensures Given(again, Buffer) ==> SizeOr(again, Buffer, other) == n
    ensures Fine(c, again, Buffer)
  {
    hide SizeOf, Trim;
  }

  lemma BufferAbsent(c: Clock, vals: Values, other: int)
    ensures !Given(vals, Buffer) ==> SizeOr(vals, Buffer, other) == other
  {
    hide SizeOf, Trim;
  }

  lemma {:induction false} LimitsStay(c: Clock, base: Config, vals: Values, other: Limits)
    requires WithinBounds(base) && UndoesPrinting(c) && EffectiveOf(c, base, vals).Ok?
    ensures
      var again := Resaved(c, base, vals);
      var kept := MergedLimits(c, base.limits, vals);
      && MergedLimits(c, other, again) == kept.(buffer := if Given(again, Buffer) then kept.buffer else other.buffer)
      && (Given(again, Buffer) <==> Given(vals, Buffer) || base.limits.buffer > 0)
      && (!Given(again, Buffer) ==> kept.buffer == base.limits.buffer)
      && Fine(c, again, HardCap) && Fine(c, again, SoftCap) && Fine(c, again, Concurrency)
      && Fine(c, again, PollEvery) && Fine(c, again, HealthEvery) && Fine(c, again, Buffer)
  {
    hide Resaved, CapOr, CountOr, DurationOr, SizeOr, EffectiveOf, WithinBounds, UndoesPrinting, Fine, Given;
    CapStays(c, base, vals, HardCap, base.limits.hard, other.hard);
    CapStays(c, base, vals, SoftCap, base.limits.soft, other.soft);
    CountStays(c, base, vals, other.concurrency);
    DurationStays(c, base, vals, PollEvery, base.limits.pollEvery, other.pollEvery);
    DurationStays(c, base, vals, HealthEvery, base.limits.healthEvery, other.healthEvery);
    BufferStays(c, base, vals, other.buffer);
  }

  lemma EffectiveIsMerged(c: Clock, base: Config, vals: Values)
    requires EffectiveOf(c, base, vals).Ok?
    ensures EffectiveOf(c, base, vals).value == Merged(c, base, vals)
  {
  }

  lemma {:induction false} DirsStay(c: Clock, base: Config, vals: Values, other: Dirs)
    requires WithinBounds(base) && EffectiveOf(c, base, vals).Ok?
    ensures
      var again := Resaved(c, base, vals);
      && MergedDirs(other, again) == MergedDirs(base.dirs, vals)
      && Fine(c, again, MoviesDir) && Fine(c, again, ShowsDir) && Fine(c, again, OtherDir)
  {
    hide Resaved, DirOr, EffectiveOf, Fine;
    DirStays(c, base, vals, MoviesDir, base.dirs.movies, other.movies);
    DirStays(c, base, vals, ShowsDir, base.dirs.shows, other.shows);
    DirStays(c, base, vals, OtherDir, base.dirs.other, other.other);
  }

  lemma {:induction false} DirStays(c: Clock, base: Config, vals: Values, k: Key, b: string, other: string)
    requires EffectiveOf(c, base, vals).Ok? && WithinBounds(base)
    requires || (k.MoviesDir? && b == base.dirs.movies) || (k.ShowsDir? && b == base.dirs.shows)
             || (k.OtherDir? && b == base.dirs.other)
    ensures DirOr(Resaved(c, base, vals), k, other) == DirOr(vals, k, b) && Fine(c, Resaved(c, base, vals), k)
  {
    hide Resaved, Trim, EffectiveOf, DirFine, DirOr, MergedSources, MergedLimits, CapView, BufferView, Itoa;
    ResavedAt(c, base, vals, k);
    AllFineWhenOk(c, base, vals, k);
    DirBounds(c, vals, k, b);
    DirRoundTrip(vals, k, b, Resaved(c, base, vals));
    DirGiven(c, Resaved(c, base, vals), k, other);
    DirGiven(c, Resaved(c, base, vals), k, b);
  }

  lemma DirGiven(c: Clock, again: Values, k: Key, other: string)
    requires Given(again, k) && Layout.CheckDir(Trim(again[k])) == None && (k.MoviesDir? || k.ShowsDir? || k.OtherDir?)
    ensures DirOr(again, k, other) == Trim(again[k]) && Fine(c, again, k)
  {
    hide Trim, Layout.CheckDir;
  }

  /** Equal but for the two tokens. */
  predicate SamePlain(a: Sources, b: Sources) {
    a == b.(plexToken := a.plexToken, jellyfinToken := a.jellyfinToken)
  }

  lemma SourcesStay(c: Clock, base: Config, vals: Values, other: Sources)
    requires EffectiveOf(c, base, vals).Ok?
    ensures SamePlain(MergedSources(other, Resaved(c, base, vals)), MergedSources(base.sources, vals))
    ensures MergedSources(base.sources, Resaved(c, base, vals)) == MergedSources(base.sources, vals)
  {
    ResavedIs(c, base, vals);
    EffectiveIsMerged(c, base, vals);
    hide Resaved, EffectiveOf, MergedLimits, MergedDirs, CapView, BufferView, Trim;
  }

  lemma FineResaved(c: Clock, base: Config, vals: Values)
    requires WithinBounds(base) && UndoesPrinting(c) && EffectiveOf(c, base, vals).Ok?
    ensures forall k :: Fine(c, Resaved(c, base, vals), k)
  {
    hide EffectiveOf, Resaved, UndoesPrinting, WithinBounds, Fine, MergedLimits, MergedDirs, Given;
    LimitsStay(c, base, vals, base.limits);
    DirsStay(c, base, vals, base.dirs);
    forall k
      ensures Fine(c, Resaved(c, base, vals), k)
    {
      if IsText(k) {
        TextFine(c, Resaved(c, base, vals), k);
      }
    }
  }

  /** The settings that take any text. */
  predicate IsText(k: Key) {
    || k.PlexURL? || k.PlexToken? || k.PlexServer? || k.PlexClientID?
    || k.JellyfinURL? || k.JellyfinToken? || k.JellyfinUser?
  }

  lemma TextFine(c: Clock, vals: Values, k: Key)
    requires IsText(k)
    ensures Fine(c, vals, k)
  {
  }

  /** Saving the settings page as it was shown changes nothing about the configuration in effect. */
  lemma {:induction false} SaveUnchangedIsIdentity(c: Clock, base: Config, vals: Values)
    requires WithinBounds(base) && UndoesPrinting(c) && EffectiveOf(c, base, vals).Ok?
    ensures EffectiveOf(c, base, Resaved(c, base, vals)) == EffectiveOf(c, base, vals)
  {
    EffectiveWithinBounds(c, base, vals);
    EffectiveIsMerged(c, base, vals);
    FineResaved(c, base, vals);
    LimitsStay(c, base, vals, base.limits);
    DirsStay(c, base, vals, base.dirs);
    SourcesStay(c, base, vals, base.sources);
    NoneBad(c, Resaved(c, base, vals));
    hide Resaved, MergedLimits, MergedDirs, MergedSources, Fine, FirstBad, Given;
  }

  /** What a save pins: everything in effect but the tokens. */
  ghost predicate Pinned(c: Clock, again: Values, eff: Config) {
    forall other: Config | WithinBounds(other) ::
      EffectiveOf(c, other, again).Ok?
      && var now := EffectiveOf(c, other, again).value;
         now.limits == eff.limits && now.dirs == eff.dirs && SamePlain(now.sources, eff.sources)
  }

  /** A save pins the shown settings against later environments exactly when it stores a buffer size. */
  lemma {:induction false} PinnedIff(c: Clock, base: Config, vals: Values)
    requires WithinBounds(base) && UndoesPrinting(c) && EffectiveOf(c, base, vals).Ok?
    ensures Pinned(c, Resaved(c, base, vals), EffectiveOf(c, base, vals).value)
            <==> Given(vals, Buffer) || base.limits.buffer > 0
  {
    hide Resaved, MergedLimits, MergedDirs, MergedSources, Fine;
    hide FirstBad, Given, WithinBounds, UndoesPrinting, EffectiveOf;
    hide SamePlain;
    var again := Resaved(c, base, vals);
    EffectiveIsMerged(c, base, vals);
    LimitsStay(c, base, vals, base.limits);
    if Given(again, Buffer) {
      forall other: Config | WithinBounds(other)
        ensures EffectiveOf(c, other, again).Ok?
        ensures var now, eff := EffectiveOf(c, other, again).value, Merged(c, base, vals);
          now.limits == eff.limits && now.dirs == eff.dirs && SamePlain(now.sources, eff.sources)
      {
        OtherBase(c, base, vals, other);
      }
    } else {
      BufferFollows(c, base, vals);
    }
  }

  /** Without a stored size the buffer keeps following the environment. */
  lemma {:induction false} BufferFollows(c: Clock, base: Config, vals: Values)
    requires WithinBounds(base) && UndoesPrinting(c) && EffectiveOf(c, base, vals).Ok?
    requires !Given(Resaved(c, base, vals), Buffer)
    ensures !Pinned(c, Resaved(c, base, vals), EffectiveOf(c, base, vals).value)
  {
    var other := base.(limits := base.limits.(buffer := 1));
    assert WithinBounds(other);
    BaseBufferZero(c, base, vals);
    hide Resaved, MergedLimits, MergedDirs, MergedSources, FirstBad;
    hide Given, WithinBounds, UndoesPrinting, EffectiveOf, SamePlain;
    LimitsStay(c, base, vals, other.limits);
    EffectiveIsMerged(c, base, vals);
    if EffectiveOf(c, other, Resaved(c, base, vals)).Ok? {
      EffectiveIsMerged(c, other, Resaved(c, base, vals));
    }
  }

  lemma OtherBase(c: Clock, base: Config, vals: Values, other: Config)
    requires WithinBounds(base) && UndoesPrinting(c) && EffectiveOf(c, base, vals).Ok?
    requires Given(Resaved(c, base, vals), Buffer)
    ensures
      var again := Resaved(c, base, vals);
      EffectiveOf(c, other, again).Ok?
      && var now, eff := EffectiveOf(c, other, again).value, Merged(c, base, vals);
         now.limits == eff.limits && now.dirs == eff.dirs && SamePlain(now.sources, eff.sources)
  {
    var again := Resaved(c, base, vals);
    EffectiveWithinBounds(c, base, vals);
    FineResaved(c, base, vals);
    LimitsStay(c, base, vals, other.limits);
    DirsStay(c, base, vals, other.dirs);
    SourcesStay(c, base, vals, other.sources);
    NoneBad(c, again);
    hide Resaved, MergedLimits, MergedDirs, MergedSources, Fine, FirstBad, WithinBounds;
  }

  lemma BaseBufferZero(c: Clock, base: Config, vals: Values)
    requires WithinBounds(base) && UndoesPrinting(c) && EffectiveOf(c, base, vals).Ok?
    requires !Given(Resaved(c, base, vals), Buffer)
    ensures base.limits.buffer == 0 && Merged(c, base, vals).limits.buffer == 0
  {
    LimitsStay(c, base, vals, base.limits);
    hide Resaved, Given, SizeOr;
  }

  /** A save touches a stored token exactly when the form clears it or brings a new one. */
  lemma TokenTouchedIff(s: Store, f: Form, k: Key)
    requires Secret(k)
    ensures k in ToSet(f) <==>
      if k.PlexToken? then f.clearPlex || f.plexToken != "" else f.clearJellyfin || f.jellyfinToken != ""
    ensures k !in ToSet(f) ==>
      (k in Written(s, ToSet(f)) <==> k in s) && (k in s ==> Written(s, ToSet(f))[k] == s[k])
  {
    hide Posted;
  }

  // ---- what a save brings into effect ----

  /** The values Effective sees once this form is stored over vals. */
  function AfterForm(vals: Values, f: Form): Values { Overlaid(vals, ToSet(f)) }

  lemma FormStores(vals: Values, f: Form)
    ensures forall k | !Secret(k) :: k in AfterForm(vals, f) && AfterForm(vals, f)[k] == Posted(f.view, k)
  {
    hide Posted;
  }

  lemma FormTokens(vals: Values, f: Form, base: string)
    ensures TextOr(AfterForm(vals, f), PlexToken, base) ==
      if f.clearPlex then "" else if f.plexToken != "" then f.plexToken else TextOr(vals, PlexToken, base)
    ensures TextOr(AfterForm(vals, f), JellyfinToken, base) ==
      if f.clearJellyfin then "" else if f.jellyfinToken != "" then f.jellyfinToken
      else TextOr(vals, JellyfinToken, base)
  {
    hide Posted;
  }

  lemma PostedSources(v: View)
    ensures Posted(v, PlexURL) == v.plexURL && Posted(v, PlexServer) == v.plexServer
    ensures Posted(v, PlexClientID) == v.plexClientID
    ensures Posted(v, JellyfinURL) == v.jellyfinURL && Posted(v, JellyfinUser) == v.jellyfinUser
  {
    hide Trim;
  }

  lemma PostedLimits(v: View)
    ensures Posted(v, HardCap) == Trim(v.hardCap) && Posted(v, SoftCap) == Trim(v.softCap)
    ensures Posted(v, Concurrency) == Trim(v.concurrency)
  {
    hide Trim;
  }

  lemma PostedIntervals(v: View)
    ensures Posted(v, PollEvery) == Trim(v.pollEvery) && Posted(v, HealthEvery) == Trim(v.healthEvery)
    ensures Posted(v, Buffer) == Trim(v.buffer)
  {
    hide Trim;
  }

  lemma PostedDirs(v: View)
    ensures Posted(v, MoviesDir) == Trim(v.dirs.movies) && Posted(v, ShowsDir) == Trim(v.dirs.shows)
    ensures Posted(v, OtherDir) == Trim(v.dirs.other)
  {
    hide Trim;
  }

  /**
   * A saved form is what takes effect: its texts as typed, its sizes and numbers as they read, blank ones as
   * the base has them (no cap, for a cap), and a token as cleared, as given, or as it was.
   */
  lemma {:induction false} FormTakesEffect(c: Clock, base: Config, vals: Values, f: Form)
    requires EffectiveOf(c, base, AfterForm(vals, f)).Ok?
    ensures var s, v := EffectiveOf(c, base, AfterForm(vals, f)).value.sources, f.view;
      && s.plexURL == v.plexURL && s.plexServer == v.plexServer && s.plexClientID == v.plexClientID
      && s.jellyfinURL == v.jellyfinURL && s.jellyfinUser == v.jellyfinUser
      && s.plexToken == (if f.clearPlex then "" else if f.plexToken != "" then f.plexToken
                         else if PlexToken in vals then vals[PlexToken] else base.sources.plexToken)
      && s.jellyfinToken == (if f.clearJellyfin then "" else if f.jellyfinToken != "" then f.jellyfinToken
                             else if JellyfinToken in vals then vals[JellyfinToken] else base.sources.jellyfinToken)
    ensures var l, b, v := EffectiveOf(c, base, AfterForm(vals, f)).value.limits, base.limits, f.view;
      && SizeOf(v.hardCap) == Ok(l.hard) && SizeOf(v.softCap) == Ok(l.soft)
      && (if Trim(v.concurrency) == "" then l.concurrency == b.concurrency
          else ParseInt(Trim(v.concurrency)) == Some(l.concurrency))
      && (if Trim(v.pollEvery) == "" then l.pollEvery == b.pollEvery
          else c.parse(Trim(v.pollEvery)) == Some(l.pollEvery))
      && (if Trim(v.healthEvery) == "" then l.healthEvery == b.healthEvery
          else c.parse(Trim(v.healthEvery)) == Some(l.healthEvery))
      && (if Trim(v.buffer) == "" then l.buffer == b.buffer else SizeOf(v.buffer) == Ok(l.buffer))
    ensures var d, b, v := EffectiveOf(c, base, AfterForm(vals, f)).value.dirs, base.dirs, f.view.dirs;
      && d.movies == (if Trim(v.movies) == "" then b.movies else Trim(v.movies))
      && d.shows == (if Trim(v.shows) == "" then b.shows else Trim(v.shows))
      && d.other == (if Trim(v.other) == "" then b.other else Trim(v.other))
  {
    var after, v := AfterForm(vals, f), f.view;
    hide Trim, SizeOf, ParseInt, AfterForm, EffectiveOf, Layout.CheckDir, Posted;
    FormStores(vals, f);
    FormTokens(vals, f, base.sources.plexToken);
    FormTokens(vals, f, base.sources.jellyfinToken);
    PostedSources(v);
    PostedLimits(v);
    PostedIntervals(v);
    PostedDirs(v);
    EffectiveFields(c, base, after);
    SizeOfTrimmed(v.hardCap);
    SizeOfTrimmed(v.softCap);
    SizeOfTrimmed(v.buffer);
    TrimTwice(v.concurrency);
    TrimTwice(v.pollEvery);
    TrimTwice(v.healthEvery);
    TrimTwice(v.buffer);
    TrimTwice(v.dirs.movies);
    TrimTwice(v.dirs.shows);
    TrimTwice(v.dirs.other);
  }
}

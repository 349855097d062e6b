/** The stored settings laid over the environment's configuration. */
module Settings {
  import opened Basics
  import opened Text
  import opened Size
  import Layout

  const MAX_BUFFER := 256 * MIB

  /** The settings the portal may store. */
  datatype Key =
    | PlexURL | PlexToken | PlexServer | PlexClientID
    | JellyfinURL | JellyfinToken | JellyfinUser
    | HardCap | SoftCap
    | Concurrency | PollEvery | Buffer | HealthEvery
    | MoviesDir | ShowsDir | OtherDir

  predicate Secret(k: Key) { k.PlexToken? || k.JellyfinToken? }

  datatype Dirs = Dirs(movies: string, shows: string, other: string)

  datatype Sources = Sources(
    plexURL: string, plexToken: string, plexServer: string, plexClientID: string,
    jellyfinURL: string, jellyfinToken: string, jellyfinUser: string)

  datatype Limits = Limits(hard: int, soft: int, concurrency: int, pollEvery: int, buffer: int, healthEvery: int)

  /** What only the environment sets. */
  datatype Env = Env(mediaRoot: string, authToken: string, secretKey: string, sweepEvery: int)

  datatype Config = Config(env: Env, sources: Sources, limits: Limits, dirs: Dirs)

  /** time.ParseDuration and Duration.String. */
  datatype Clock = Clock(parse: string -> Option<int>, print_: int -> string)

  type Values = map<Key, string>

  datatype SettingsError = BadSetting(key: Key) | CapsOutOfOrder

  // ---- one setting at a time ----

  /** A present value that is not blank. */
  predicate Given(vals: Values, k: Key) { k in vals && Trim(vals[k]) != "" }

  function TextOr(vals: Values, k: Key, base: string): string {
    if k in vals then vals[k] else base
  }

  function CapOr(vals: Values, k: Key, base: int): int {
    if k in vals && SizeOf(vals[k]).Ok? then SizeOf(vals[k]).value else base
  }

  function CountOr(vals: Values, k: Key, base: int): int {
    if Given(vals, k) && ParseInt(Trim(vals[k])).Some? then ParseInt(Trim(vals[k])).value else base
  }

  function DurationOr(c: Clock, vals: Values, k: Key, base: int): int {
    if Given(vals, k) && c.parse(Trim(vals[k])).Some? then c.parse(Trim(vals[k])).value else base
  }

  function SizeOr(vals: Values, k: Key, base: int): int {
    if Given(vals, k) && SizeOf(vals[k]).Ok? then SizeOf(vals[k]).value else base
  }

  function DirOr(vals: Values, k: Key, base: string): string {
    if Given(vals, k) then Trim(vals[k]) else base
  }

  /** The values each setting takes. */
  predicate Acceptable(c: Clock, k: Key, v: string) {
    match k
    case HardCap => SizeOf(v).Ok?
    case SoftCap => SizeOf(v).Ok?
    case Concurrency => Trim(v) != "" ==> ParseInt(Trim(v)).Some? && 1 <= ParseInt(Trim(v)).value <= 32
    case PollEvery => Trim(v) != "" ==> c.parse(Trim(v)).Some? && c.parse(Trim(v)).value >= 0
    case HealthEvery => Trim(v) != "" ==> c.parse(Trim(v)).Some? && c.parse(Trim(v)).value >= 0
    case Buffer => Trim(v) != "" ==> SizeOf(v).Ok? && SizeOf(v).value <= MAX_BUFFER
    case MoviesDir => Trim(v) != "" ==> Layout.CheckDir(Trim(v)) == None
    case ShowsDir => Trim(v) != "" ==> Layout.CheckDir(Trim(v)) == None
    case OtherDir => Trim(v) != "" ==> Layout.CheckDir(Trim(v)) == None
    case _ => true
  }

  predicate Fine(c: Clock, vals: Values, k: Key) { k in vals ==> Acceptable(c, k, vals[k]) }

  // ---- the overlay, setting by setting ----

  function MergedSources(base: Sources, vals: Values): Sources {
    Sources(TextOr(vals, PlexURL, base.plexURL), TextOr(vals, PlexToken, base.plexToken),
            TextOr(vals, PlexServer, base.plexServer), TextOr(vals, PlexClientID, base.plexClientID),
            TextOr(vals, JellyfinURL, base.jellyfinURL), TextOr(vals, JellyfinToken, base.jellyfinToken),
            TextOr(vals, JellyfinUser, base.jellyfinUser))
  }

  function MergedLimits(c: Clock, base: Limits, vals: Values): Limits {
    Limits(CapOr(vals, HardCap, base.hard), CapOr(vals, SoftCap, base.soft),
           CountOr(vals, Concurrency, base.concurrency), DurationOr(c, vals, PollEvery, base.pollEvery),
           SizeOr(vals, Buffer, base.buffer), DurationOr(c, vals, HealthEvery, base.healthEvery))
  }

  function MergedDirs(base: Dirs, vals: Values): Dirs {
    Dirs(DirOr(vals, MoviesDir, base.movies), DirOr(vals, ShowsDir, base.shows), DirOr(vals, OtherDir, base.other))
  }

  function Merged(c: Clock, base: Config, vals: Values): Config {
    Config(base.env, MergedSources(base.sources, vals), MergedLimits(c, base.limits, vals), MergedDirs(base.dirs, vals))
  }

  /** The order in which settings are looked at, and so which problem is reported. */
  const CHECKED: seq<Key> :=
    [HardCap, SoftCap, Concurrency, PollEvery, Buffer, HealthEvery, MoviesDir, ShowsDir, OtherDir]

  function FirstBad(c: Clock, vals: Values, keys: seq<Key>): Option<Key> {
    if keys == [] then None
    else if !Fine(c, vals, keys[0]) then Some(keys[0])
    else FirstBad(c, vals, keys[1..])
  }

  /**
   * The result of Effective: the first unacceptable setting, or every setting on its own terms with
   * the caps in order.
   */
  function EffectiveOf(c: Clock, base: Config, vals: Values): Result<Config, SettingsError> {
    var bad := FirstBad(c, vals, CHECKED);
    if bad.Some? then Err(BadSetting(bad.value))
    else if !CapsOrdered(Merged(c, base, vals).limits.hard, Merged(c, base, vals).limits.soft) then Err(CapsOutOfOrder)
    else Ok(Merged(c, base, vals))
  }

  lemma FirstBadFrom(c: Clock, vals: Values, i: nat)
    requires i < |CHECKED| && forall j | 0 <= j < i :: Fine(c, vals, CHECKED[j])
    ensures !Fine(c, vals, CHECKED[i]) ==> FirstBad(c, vals, CHECKED) == Some(CHECKED[i])
  {
    FirstBadSkip(c, vals, CHECKED, i);
  }

  lemma {:induction false} FirstBadSkip(c: Clock, vals: Values, keys: seq<Key>, i: nat)
    requires i <= |keys| && forall j | 0 <= j < i :: Fine(c, vals, keys[j])
    ensures FirstBad(c, vals, keys) == FirstBad(c, vals, keys[i..])
  {
    if i > 0 {
      assert forall j | 0 <= j < i - 1 :: keys[1..][j] == keys[j + 1];
      FirstBadSkip(c, vals, keys[1..], i - 1);
      assert keys[1..][i - 1..] == keys[i..];
    } else {
      assert keys[0..] == keys;
    }
  }

  lemma BadIsChecked(c: Clock, vals: Values, k: Key)
    requires !Fine(c, vals, k)
    ensures k in CHECKED
  {
    hide Trim, SizeOf, ParseInt, Layout.CheckDir;
    assert CHECKED[0] == HardCap && CHECKED[1] == SoftCap && CHECKED[2] == Concurrency && CHECKED[3] == PollEvery;
    assert CHECKED[4] == Buffer && CHECKED[5] == HealthEvery && CHECKED[6] == MoviesDir && CHECKED[7] == ShowsDir;
    assert CHECKED[8] == OtherDir;
  }

  lemma {:induction false} NoneBad(c: Clock, vals: Values)
    ensures FirstBad(c, vals, CHECKED) == None <==> forall k :: Fine(c, vals, k)
  {
    hide Fine, FirstBad;
    if forall k :: Fine(c, vals, k) {
      FirstBadSkip(c, vals, CHECKED, |CHECKED|);
      assert CHECKED[|CHECKED|..] == [];
      FirstBadNone(c, vals);
    } else {
      var k :| !Fine(c, vals, k);
      BadIsChecked(c, vals, k);
      FirstBadIn(c, vals, CHECKED, k);
    }
  }

  lemma FirstBadNone(c: Clock, vals: Values)
    ensures FirstBad(c, vals, []) == None
  {
  }

  lemma {:induction false} FirstBadIn(c: Clock, vals: Values, keys: seq<Key>, k: Key)
    requires k in keys && !Fine(c, vals, k)
    ensures FirstBad(c, vals, keys).Some?
  {
    hide Fine;
    if k != keys[0] {
      assert k in keys[1..];
      FirstBadIn(c, vals, keys[1..], k);
    }
  }

  // ---- Effective ----

  method OverlaySources(base: Sources, vals: Values) returns (eff: Sources)
    ensures eff == MergedSources(base, vals)
  {
    eff := base;
    if PlexURL in vals {
      eff := eff.(plexURL := vals[PlexURL]);
    }
    if PlexToken in vals {
      eff := eff.(plexToken := vals[PlexToken]);
    }
    if PlexServer in vals {
      eff := eff.(plexServer := vals[PlexServer]);
    }
    if PlexClientID in vals {
      eff := eff.(plexClientID := vals[PlexClientID]);
    }
    if JellyfinURL in vals {
      eff := eff.(jellyfinURL := vals[JellyfinURL]);
    }
    if JellyfinToken in vals {
      eff := eff.(jellyfinToken := vals[JellyfinToken]);
    }
    if JellyfinUser in vals {
      eff := eff.(jellyfinUser := vals[JellyfinUser]);
    }
  }

  predicate FineUpTo(c: Clock, vals: Values, n: nat) {
    n <= |CHECKED| && forall j | 0 <= j < n :: Fine(c, vals, CHECKED[j])
  }

  lemma FineNext(c: Clock, vals: Values, n: nat)
    requires n < |CHECKED| && FineUpTo(c, vals, n) && Fine(c, vals, CHECKED[n])
    ensures FineUpTo(c, vals, n + 1)
  {
  }

  lemma BadNow(c: Clock, vals: Values, n: nat)
    requires n < |CHECKED| && FineUpTo(c, vals, n) && !Fine(c, vals, CHECKED[n])
    ensures FirstBad(c, vals, CHECKED) == Some(CHECKED[n])
  {
    FirstBadFrom(c, vals, n);
  }

  method OverlayCaps(c: Clock, base: Limits, vals: Values) returns (r: Result<Limits, Key>)
    ensures r.Ok? ==> FineUpTo(c, vals, 2)
    ensures r.Ok? ==> r.value == base.(hard := CapOr(vals, HardCap, base.hard), soft := CapOr(vals, SoftCap, base.soft))
    ensures r.Err? ==> FirstBad(c, vals, CHECKED) == Some(r.error)
  {
    hide SizeOf, FirstBad;
    var eff := base;
    if HardCap in vals {
      var n := ParseSize(vals[HardCap]);
      if n.Err? {
        BadNow(c, vals, 0);
        return Err(HardCap);
      }
      eff := eff.(hard := n.value);
    }
    FineNext(c, vals, 0);
    if SoftCap in vals {
      var n := ParseSize(vals[SoftCap]);
      if n.Err? {
        BadNow(c, vals, 1);
        return Err(SoftCap);
      }
      eff := eff.(soft := n.value);
    }
    FineNext(c, vals, 1);
    r := Ok(eff);
  }

  /** One of the two durations: the n-th setting checked. */
  method OverlayDuration(c: Clock, base: int, vals: Values, k: Key, n: nat) returns (r: Result<int, Key>)
    requires n < |CHECKED| && CHECKED[n] == k && (k.PollEvery? || k.HealthEvery?) && FineUpTo(c, vals, n)
    ensures r.Ok? ==> FineUpTo(c, vals, n + 1) && r.value == DurationOr(c, vals, k, base)
    ensures r.Err? ==> FirstBad(c, vals, CHECKED) == Some(r.error)
  {
    hide Trim, FirstBad, FineUpTo;
    r := Ok(base);
    if k in vals && Trim(vals[k]) != "" {
      var d := c.parse(Trim(vals[k]));
      if d.None? || d.value < 0 {
        BadNow(c, vals, n);
        return Err(k);
      }
      r := Ok(d.value);
    }
    FineNext(c, vals, n);
  }

  method OverlayEngine(c: Clock, base: Limits, vals: Values) returns (r: Result<Limits, Key>)
    requires FineUpTo(c, vals, 2)
    ensures r.Ok? ==> FineUpTo(c, vals, 6)
    ensures r.Ok? ==>
      r.value == base.(concurrency := CountOr(vals, Concurrency, base.concurrency),
                       pollEvery := DurationOr(c, vals, PollEvery, base.pollEvery),
                       buffer := SizeOr(vals, Buffer, base.buffer),
                       healthEvery := DurationOr(c, vals, HealthEvery, base.healthEvery))
    ensures r.Err? ==> FirstBad(c, vals, CHECKED) == Some(r.error)
  {
    hide SizeOf, FirstBad, Trim, ParseInt, FineUpTo, DurationOr;
    var eff := base;
    if Concurrency in vals && Trim(vals[Concurrency]) != "" {
      var n := ParseInt(Trim(vals[Concurrency]));
      if n.None? || n.value < 1 || n.value > 32 {
        BadNow(c, vals, 2);
        return Err(Concurrency);
      }
      eff := eff.(concurrency := n.value);
    }
    FineNext(c, vals, 2);
    var poll := OverlayDuration(c, eff.pollEvery, vals, PollEvery, 3);
    if poll.Err? {
      return Err(poll.error);
    }
    eff := eff.(pollEvery := poll.value);
    if Buffer in vals && Trim(vals[Buffer]) != "" {
      var n := ParseSize(vals[Buffer]);
      if n.Err? || n.value > MAX_BUFFER {
        BadNow(c, vals, 4);
        return Err(Buffer);
      }
      eff := eff.(buffer := n.value);
    }
    FineNext(c, vals, 4);
    var health := OverlayDuration(c, eff.healthEvery, vals, HealthEvery, 5);
    if health.Err? {
      return Err(health.error);
    }
    r := Ok(eff.(healthEvery := health.value));
  }

  /** The loop over the three directory fields. */
  method OverlayDirs(c: Clock, base: Dirs, vals: Values) returns (r: Result<Dirs, Key>)
    requires FineUpTo(c, vals, 6)
    ensures r.Ok? ==> FineUpTo(c, vals, 9) && r.value == MergedDirs(base, vals)
    ensures r.Err? ==> FirstBad(c, vals, CHECKED) == Some(r.error)
  {
    hide FirstBad, Trim, FineUpTo, Layout.CheckDir;
    var keys := [MoviesDir, ShowsDir, OtherDir];
    var was := [base.movies, base.shows, base.other];
    var dst := was;
    for i := 0 to 3
      invariant |dst| == 3 && FineUpTo(c, vals, 6 + i)
      invariant forall j | 0 <= j < i :: dst[j] == DirOr(vals, keys[j], was[j])
      invariant forall j | i <= j < 3 :: dst[j] == was[j]
    {
      var k := keys[i];
      assert CHECKED[6 + i] == k;
      if k in vals {
        var t := Trim(vals[k]);
        if t != "" {
          if Layout.CheckDir(t) != None {
            BadNow(c, vals, 6 + i);
            return Err(k);
          }
          dst := dst[i := t];
        }
      }
      FineNext(c, vals, 6 + i);
    }
    r := Ok(Dirs(dst[0], dst[1], dst[2]));
  }

  /** Effective. */
  method Effective(c: Clock, base: Config, vals: Values) returns (r: Result<Config, SettingsError>)
    ensures r == EffectiveOf(c, base, vals)
  {
    hide FirstBad, MergedSources, MergedDirs, CapOr, CountOr, DurationOr, SizeOr;
    var eff := base;
    var sources := OverlaySources(eff.sources, vals);
    eff := eff.(sources := sources);
    var caps := OverlayCaps(c, eff.limits, vals);
    if caps.Err? {
      return Err(BadSetting(caps.error));
    }
    eff := eff.(limits := caps.value);
    var engine := OverlayEngine(c, eff.limits, vals);
    if engine.Err? {
      return Err(BadSetting(engine.error));
    }
    eff := eff.(limits := engine.value);
    var dirs := OverlayDirs(c, eff.dirs, vals);
    if dirs.Err? {
      return Err(BadSetting(dirs.error));
    }
    eff := eff.(dirs := dirs.value);
    AllFine(c, vals);
    if eff.limits.hard > 0 && eff.limits.soft > 0 && eff.limits.soft > eff.limits.hard {
      return Err(CapsOutOfOrder);
    }
    r := Ok(eff);
  }

  lemma AllFine(c: Clock, vals: Values)
    requires FineUpTo(c, vals, 9)
    ensures FirstBad(c, vals, CHECKED) == None
  {
    FirstBadSkip(c, vals, CHECKED, |CHECKED|);
    assert CHECKED[|CHECKED|..] == [];
    FirstBadNone(c, vals);
  }

  // ---- what an overlay can and cannot produce ----

  predicate DirFine(d: string) { Trimmed(d) && Layout.CheckDir(d) == None }

  /** What Load checks before the program starts. */
  predicate WithinBounds(c: Config) {
    && 0 <= c.limits.hard <= MAX_INT64 && 0 <= c.limits.soft <= MAX_INT64 && CapsOrdered(c.limits.hard, c.limits.soft)
    && 1 <= c.limits.concurrency <= 32
    && c.limits.pollEvery >= 0 && c.limits.healthEvery >= 0
    && 0 <= c.limits.buffer <= MAX_BUFFER
    && DirFine(c.dirs.movies) && DirFine(c.dirs.shows) && DirFine(c.dirs.other)
  }

  lemma CapBounds(c: Clock, vals: Values, k: Key, base: int)
    requires (k.HardCap? || k.SoftCap?) && Fine(c, vals, k) && 0 <= base <= MAX_INT64
    ensures 0 <= CapOr(vals, k, base) <= MAX_INT64
  {
    if k in vals {
      SizeBounds(vals[k]);
    }
  }

  lemma SizeBounds(raw: string)
    requires SizeOf(raw).Ok?
    ensures 0 <= SizeOf(raw).value <= MAX_INT64
  {
    ParseSizeIff(raw, SizeOf(raw).value);
    UnitsPositive(raw, SizeOf(raw).value);
  }

  lemma UnitsPositive(raw: string, v: int)
    requires Means(raw, v)
    ensures 0 <= v <= MAX_INT64
  {
    hide Written, Blank, Upper;
    if exists n: int, unit: int :: Written(raw, n, unit) && 0 <= n && v == n * unit && v <= MAX_INT64 {
      var n: int, unit: int :| Written(raw, n, unit) && 0 <= n && v == n * unit && v <= MAX_INT64;
      UnitAtLeastOne(raw, n, unit);
      assert 0 <= n * unit;
    }
  }

  lemma DirBounds(c: Clock, vals: Values, k: Key, base: string)
    requires (k.MoviesDir? || k.ShowsDir? || k.OtherDir?) && Fine(c, vals, k) && DirFine(base)
    ensures DirFine(DirOr(vals, k, base))
  {
    hide Trim, Layout.CheckDir, Trimmed;
  }

  lemma EngineBounds(c: Clock, base: Limits, vals: Values)
    requires Fine(c, vals, Concurrency) && Fine(c, vals, PollEvery)
    requires Fine(c, vals, Buffer) && Fine(c, vals, HealthEvery)
    requires 1 <= base.concurrency <= 32 && base.pollEvery >= 0 && base.healthEvery >= 0
    requires 0 <= base.buffer <= MAX_BUFFER
    ensures var l := MergedLimits(c, base, vals);
      1 <= l.concurrency <= 32 && l.pollEvery >= 0 && l.healthEvery >= 0 && 0 <= l.buffer <= MAX_BUFFER
  {
    hide SizeOf, ParseInt, Trim, Fine, Acceptable, CountOr, DurationOr, SizeOr;
    CountBounds(c, vals, base.concurrency);
    DurationBounds(c, vals, PollEvery, base.pollEvery);
    DurationBounds(c, vals, HealthEvery, base.healthEvery);
    BufferBounds(c, vals, base.buffer);
  }

  lemma CountBounds(c: Clock, vals: Values, base: int)
    requires Fine(c, vals, Concurrency) && 1 <= base <= 32
    ensures 1 <= CountOr(vals, Concurrency, base) <= 32
  {
    hide ParseInt, Trim;
  }

  lemma DurationBounds(c: Clock, vals: Values, k: Key, base: int)
    requires (k.PollEvery? || k.HealthEvery?) && Fine(c, vals, k) && base >= 0
    ensures DurationOr(c, vals, k, base) >= 0
  {
    hide Trim;
  }

  lemma BufferBounds(c: Clock, vals: Values, base: int)
    requires Fine(c, vals, Buffer) && 0 <= base <= MAX_BUFFER
    ensures 0 <= SizeOr(vals, Buffer, base) <= MAX_BUFFER
  {
    hide Trim, SizeOf;
    if Given(vals, Buffer) {
      SizeBounds(vals[Buffer]);
    }
  }

  /** A valid base and any stored values give an error or a configuration within every bound. */
  lemma {:induction false} EffectiveWithinBounds(c: Clock, base: Config, vals: Values)
    requires WithinBounds(base)
    ensures EffectiveOf(c, base, vals).Ok? ==> WithinBounds(EffectiveOf(c, base, vals).value)
    ensures EffectiveOf(c, base, vals).Ok? <==>
      && (forall k :: Fine(c, vals, k))
      && CapsOrdered(Merged(c, base, vals).limits.hard, Merged(c, base, vals).limits.soft)
  {
    NoneBad(c, vals);
    hide FirstBad;
    if forall k :: Fine(c, vals, k) {
      assert Fine(c, vals, HardCap) && Fine(c, vals, SoftCap) && Fine(c, vals, MoviesDir) && Fine(c, vals, ShowsDir)
          && Fine(c, vals, OtherDir);
      CapBounds(c, vals, HardCap, base.limits.hard);
      CapBounds(c, vals, SoftCap, base.limits.soft);
      DirBounds(c, vals, MoviesDir, base.dirs.movies);
      DirBounds(c, vals, ShowsDir, base.dirs.shows);
      DirBounds(c, vals, OtherDir, base.dirs.other);
      EngineBounds(c, base.limits, vals);
    }
  }

  // ---- the overlay, said of the stored values ----

  /** The n-th setting looked at. */
  lemma {:induction false} FirstBadIs(c: Clock, base: Config, vals: Values, i: nat)
    requires i < 9
    ensures var order := [HardCap, SoftCap, Concurrency, PollEvery, Buffer, HealthEvery, MoviesDir, ShowsDir, OtherDir];
      EffectiveOf(c, base, vals) == Err(BadSetting(order[i])) <==>
        !Fine(c, vals, order[i]) && forall j | 0 <= j < i :: Fine(c, vals, order[j])
  {
    hide Fine, Merged, FirstBad;
    var order := [HardCap, SoftCap, Concurrency, PollEvery, Buffer, HealthEvery, MoviesDir, ShowsDir, OtherDir];
    assert CHECKED == order;
    if !Fine(c, vals, order[i]) && forall j | 0 <= j < i :: Fine(c, vals, order[j]) {
      FirstBadFrom(c, vals, i);
    } else if FirstBad(c, vals, CHECKED) == Some(order[i]) {
      FirstBadIsBad(c, vals, CHECKED, i);
    }
  }

  lemma {:induction false} FirstBadIsBad(c: Clock, vals: Values, keys: seq<Key>, i: nat)
    requires i < |keys| && FirstBad(c, vals, keys) == Some(keys[i])
    requires forall a, b | 0 <= a < b < |keys| :: keys[a] != keys[b]
    ensures !Fine(c, vals, keys[i]) && forall j | 0 <= j < i :: Fine(c, vals, keys[j])
  {
    hide Fine;
    if i > 0 {
      assert keys[0] != keys[i];
      var rest := keys[1..];
      assert rest[i - 1] == keys[i];
      assert forall a, b | 0 <= a < b < |rest| :: rest[a] == keys[a + 1] && rest[b] == keys[b + 1];
      FirstBadIsBad(c, vals, rest, i - 1);
      assert forall j | 1 <= j < i :: keys[j] == rest[j - 1];
    } else if Fine(c, vals, keys[0]) {
      FirstBadAmong(c, vals, keys[1..]);
    }
  }

  lemma {:induction false} FirstBadAmong(c: Clock, vals: Values, keys: seq<Key>)
    ensures FirstBad(c, vals, keys).Some? ==> FirstBad(c, vals, keys).value in keys
  {
    hide Fine;
    if keys != [] && Fine(c, vals, keys[0]) {
      FirstBadAmong(c, vals, keys[1..]);
      assert forall k | k in keys[1..] :: k in keys;
    }
  }

  /** v is blank, or absent from the table. */
  predicate Unset(vals: Values, k: Key) { k in vals ==> Trim(vals[k]) == "" }

  /**
   * What is in effect, setting by setting: a text as stored, a cap as its size says (blank is none), and
   * the others as stored unless blank, each within its bounds.
   */
  lemma {:induction false} EffectiveFields(c: Clock, base: Config, vals: Values)
    requires EffectiveOf(c, base, vals).Ok?
    ensures var e := EffectiveOf(c, base, vals).value;
      && e.env == base.env
      && e.sources.plexURL == (if PlexURL in vals then vals[PlexURL] else base.sources.plexURL)
      && e.sources.plexToken == (if PlexToken in vals then vals[PlexToken] else base.sources.plexToken)
      && e.sources.plexServer == (if PlexServer in vals then vals[PlexServer] else base.sources.plexServer)
      && e.sources.plexClientID == (if PlexClientID in vals then vals[PlexClientID] else base.sources.plexClientID)
      && e.sources.jellyfinURL == (if JellyfinURL in vals then vals[JellyfinURL] else base.sources.jellyfinURL)
      && e.sources.jellyfinToken == (if JellyfinToken in vals then vals[JellyfinToken] else base.sources.jellyfinToken)
      && e.sources.jellyfinUser == (if JellyfinUser in vals then vals[JellyfinUser] else base.sources.jellyfinUser)
    ensures var e, b := EffectiveOf(c, base, vals).value.limits, base.limits;
      && (if HardCap in vals then Ok(e.hard) == SizeOf(vals[HardCap]) else e.hard == b.hard)
      && (if SoftCap in vals then Ok(e.soft) == SizeOf(vals[SoftCap]) else e.soft == b.soft)
      && (e.hard > 0 && e.soft > 0 ==> e.soft <= e.hard)
      && (if Unset(vals, Concurrency) then e.concurrency == b.concurrency
          else ParseInt(Trim(vals[Concurrency])) == Some(e.concurrency) && 1 <= e.concurrency <= 32)
      && (if Unset(vals, PollEvery) then e.pollEvery == b.pollEvery
          else c.parse(Trim(vals[PollEvery])) == Some(e.pollEvery) && e.pollEvery >= 0)
      && (if Unset(vals, HealthEvery) then e.healthEvery == b.healthEvery
          else c.parse(Trim(vals[HealthEvery])) == Some(e.healthEvery) && e.healthEvery >= 0)
      && (if Unset(vals, Buffer) then e.buffer == b.buffer
          else SizeOf(vals[Buffer]) == Ok(e.buffer) && e.buffer <= 256 * 1024 * 1024)
    ensures var e, b := EffectiveOf(c, base, vals).value.dirs, base.dirs;
      && e.movies == (if Unset(vals, MoviesDir) then b.movies else Trim(vals[MoviesDir]))
      && e.shows == (if Unset(vals, ShowsDir) then b.shows else Trim(vals[ShowsDir]))
      && e.other == (if Unset(vals, OtherDir) then b.other else Trim(vals[OtherDir]))
      && (!Unset(vals, MoviesDir) ==> Layout.CheckDir(e.movies) == None)
      && (!Unset(vals, ShowsDir) ==> Layout.CheckDir(e.shows) == None)
      && (!Unset(vals, OtherDir) ==> Layout.CheckDir(e.other) == None)
  {
    NoneBad(c, vals);
    hide FirstBad, Trim, SizeOf, ParseInt, Layout.CheckDir;
    assert Fine(c, vals, HardCap) && Fine(c, vals, SoftCap) && Fine(c, vals, Concurrency) && Fine(c, vals, PollEvery)
        && Fine(c, vals, Buffer) && Fine(c, vals, HealthEvery) && Fine(c, vals, MoviesDir) && Fine(c, vals, ShowsDir)
        && Fine(c, vals, OtherDir);
  }

  /** Which stored values are acceptable. */
  lemma {:induction false} FineIff(c: Clock, vals: Values)
    ensures forall k | k in vals && (k.HardCap? || k.SoftCap?) :: Fine(c, vals, k) <==> SizeOf(vals[k]).Ok?
    ensures Fine(c, vals, Concurrency) <==>
      Unset(vals, Concurrency) || exists n :: ParseInt(Trim(vals[Concurrency])) == Some(n) && 1 <= n <= 32
    ensures forall k: Key | k.PollEvery? || k.HealthEvery? ::
      Fine(c, vals, k) <==> Unset(vals, k) || exists d :: c.parse(Trim(vals[k])) == Some(d) && d >= 0
    ensures Fine(c, vals, Buffer) <==>
      Unset(vals, Buffer) || exists n :: SizeOf(vals[Buffer]) == Ok(n) && n <= 256 * 1024 * 1024
    ensures forall k: Key | k.MoviesDir? || k.ShowsDir? || k.OtherDir? ::
      Fine(c, vals, k) <==> Unset(vals, k) || Layout.CheckDir(Trim(vals[k])) == None
  {
    hide Trim, SizeOf, ParseInt, Layout.CheckDir;
  }
}

/**
 * The running service: its stored settings, the runtime they are made into, and the two ways
 * that runtime is replaced, saving settings and reconnecting a source.
 */
module Service {
  import opened Basics
  import opened Settings
  import opened SettingsForm
  import opened Discovery
  import Text

  /** The address and token a Plex client is built with. */
  datatype Link = Link(url: string, token: string)

  /** What the workers run on; downloads are enabled exactly when there is a Plex link. */
  datatype Runtime = Runtime(cfg: Config, plex: Option<Link>)

  datatype Status = Unknown | Healthy | Down | AuthError | Parked

  datatype Health = Health(status: Status, failures: nat, chosen: string, relay: bool, candidates: seq<Probe>)

  datatype Failure = BadSettings(setting: SettingsError) | Undiscovered(found: DiscoverError) | Unreachable | Unbuilt

  datatype Outcome =
    | Rejected(error: SettingsError)   // nothing stored
    | NotStored                        // the transaction failed: nothing stored
    | SavedNotLive                     // stored, but the reload failed
    | Applied

  /** classifyHealthErr on the errors discovery returns. */
  function Classify(e: DiscoverError): Status {
    match e
    case AuthRefused => AuthError
    case NotFound => Parked
    case _ => Down
  }

  /**
   * What the world answers during one call: plex.tv, the advertised servers, and, for a source that cannot
   * switch, its own probe; and whether a client can be built.
   */
  datatype Network = Network(
    fold: Folding,
    probe: string -> bool,
    fetched: Result<seq<Server>, DiscoverError>,
    answers: bool,
    builds: bool)

  /** Which writes of a transaction succeed, and whether it commits. */
  datatype Disk = Disk(writes: Key -> bool, commits: bool)

  predicate Stores(d: Disk, kv: Values) { d.commits && forall k | k in kv :: d.writes(k) }

  predicate Configured(cfg: Config) {
    cfg.sources.plexToken != "" && (cfg.sources.plexURL != "" || cfg.sources.plexServer != "")
  }

  /** plex.tv is asked only when no URL is set. */
  predicate Discovers(cfg: Config) { cfg.sources.plexURL == "" && cfg.sources.plexServer != "" }

  function LinkOf(url: string, token: string): Option<Link> {
    if url != "" && token != "" then Some(Link(url, token)) else None
  }

  /** The server discovery settles on. */
  function Target(net: Network, cfg: Config): Result<Server, DiscoverError> {
    match net.fetched
    case Err(e) => Err(e)
    case Ok(resources) => Selected(net.fold, resources, cfg.sources.plexServer)
  }

  /** This server's best connection among those that answer. */
  ghost predicate BestLink(net: Network, s: Server, link: Option<Link>) {
    exists m: nat :: Best(net.fold, net.probe, s.conns, m) && link == LinkOf(TrimSlashes(s.conns[m].uri), s.token)
  }

  /** No connection of this server answers, and the link is its top-ranked one. */
  ghost predicate FallbackLink(net: Network, s: Server, link: Option<Link>) {
    && (forall j: nat :: !Up(net.probe, s.conns, j))
    && exists m: nat :: Best(net.fold, _ => true, s.conns, m) && link == LinkOf(TrimSlashes(s.conns[m].uri), s.token)
  }

  /** The link a successful reconnect installs: the configured URL, or the best connection that answers. */
  ghost predicate Installed(net: Network, cfg: Config, link: Option<Link>) {
    if Discovers(cfg) then Target(net, cfg).Ok? && BestLink(net, Target(net, cfg).value, link)
    else link == LinkOf(cfg.sources.plexURL, cfg.sources.plexToken)
  }

  /**
   * The link a reload resolves by itself: the configured URL; else what discovery finds, best
   * first and falling back to the top-ranked connection; else none.
   */
  ghost predicate Resolved(net: Network, cfg: Config, link: Option<Link>) {
    if cfg.sources.plexURL != "" then link == LinkOf(cfg.sources.plexURL, cfg.sources.plexToken)
    else if Discoverable(net, cfg) then
      Target(net, cfg).Ok?
      && (BestLink(net, Target(net, cfg).value, link) || FallbackLink(net, Target(net, cfg).value, link))
    else link == None
  }

  predicate Discoverable(net: Network, cfg: Config) {
    && cfg.sources.plexServer != "" && cfg.sources.plexToken != ""
    && Obstacle(net.fold, cfg.sources.plexToken, cfg.sources.plexServer, net.fetched) == None
  }

  /** The server is found, with a token, and one of its connections answers. */
  ghost predicate Found(net: Network, cfg: Config) {
    && Text.Trim(cfg.sources.plexToken) != "" && Text.Trim(cfg.sources.plexServer) != ""
    && Target(net, cfg).Ok? && Target(net, cfg).value.token != ""
    && exists j: nat :: Up(net.probe, Target(net, cfg).value.conns, j)
  }

  /** Discovery is needed, and no advertised connection of the server answers. */
  ghost predicate NothingAnswers(net: Network, cfg: Config) {
    Discovers(cfg) && (Target(net, cfg).Ok? ==> forall j: nat :: !Up(net.probe, Target(net, cfg).value.conns, j))
  }

  /** What New runs on: the stored settings over the base, or the base alone when they are invalid. */
  function BootConfig(c: Clock, base: Config, s: Store): Config {
    if EffectiveOf(c, base, GetAll(s)).Ok? then EffectiveOf(c, base, GetAll(s)).value else base
  }

  lemma BootIs(c: Clock, base: Config, s: Store)
    ensures BootConfig(c, base, s) ==
      if EffectiveOf(c, base, GetAll(s)).Ok? then EffectiveOf(c, base, GetAll(s)).value else base
  {
  }

  lemma BootWithinBounds(c: Clock, base: Config, s: Store)
    requires WithinBounds(base)
    ensures WithinBounds(BootConfig(c, base, s))
  {
    EffectiveWithinBounds(c, base, GetAll(s));
    hide WithinBounds, EffectiveOf;
  }

  /** buildRuntimeWith, as far as the Plex connection goes; building a client may fail. */
  method BuildRuntime(net: Network, cfg: Config, pre: Option<Discovered>)
    returns (r: Result<Runtime, Failure>, disc: Option<Discovered>)
    ensures r.Err? ==> r.error == Unbuilt
    ensures r.Ok? <==> net.builds
    ensures r.Ok? ==> r.value.cfg == cfg
    ensures r.Ok? && r.value.plex.Some? ==> r.value.plex.value.url != "" && r.value.plex.value.token != ""
    ensures r.Ok? && pre.None? && cfg.sources.plexURL != "" && cfg.sources.plexToken != "" ==>
      r.value.plex == Some(Link(cfg.sources.plexURL, cfg.sources.plexToken))
    ensures r.Ok? && pre.Some? && pre.value.baseURL != "" && pre.value.token != "" ==>
      r.value.plex == Some(Link(pre.value.baseURL, pre.value.token))
    ensures r.Ok? && pre.Some? ==> disc == pre && r.value.plex == LinkOf(pre.value.baseURL, pre.value.token)
    ensures r.Ok? && pre.None? ==> Resolved(net, cfg, r.value.plex)
    ensures r.Ok? && pre.None? ==> (disc.Some? <==> cfg.sources.plexURL == "" && Discoverable(net, cfg))
    ensures r.Ok? && disc.Some? ==> r.value.plex == LinkOf(disc.value.baseURL, disc.value.token)
  {
    hide Obstacle, Ranked, Selected, Probed, TrimSlashes, Discovery.Chosen, BestLink, FallbackLink, LinkOf;
    LinkIs();
    var url, token := cfg.sources.plexURL, cfg.sources.plexToken;
    disc := None;
    if pre.Some? {
      url, token, disc := pre.value.baseURL, pre.value.token, pre;
    } else if url == "" && cfg.sources.plexServer != "" && token != "" {
      var found := Discover(net.fold, net.probe, token, cfg.sources.plexServer, net.fetched, false);
      if found.Err? {
        url, token := "", "";
      } else {
        url, token, disc := found.value.baseURL, found.value.token, Some(found.value);
        ChosenLink(net, Target(net, cfg).value);
      }
    }
    if !net.builds {
      return Err(Unbuilt), None;
    }
    NoLink(token);
    r := Ok(Runtime(cfg, LinkOf(url, token)));
  }

  lemma LinkIs()
    ensures forall url: string, token: string ::
      LinkOf(url, token) == if url == "" || token == "" then None else Some(Link(url, token))
  {
  }

  lemma NoLink(token: string)
    ensures LinkOf("", token) == None
  {
  }

  class Service {
    const clock: Clock
    const base: Config
    var store: Store
    var rt: Runtime
    var started: bool
    var generation: nat
    var health: map<string, Health>

    /** The running configuration always meets the bounds. */
    predicate Valid()
      reads this
    {
      WithinBounds(base) && WithinBounds(rt.cfg)
    }

    function Eff(): Result<Config, SettingsError>
      reads this`store
    {
      EffectiveOf(clock, base, GetAll(store))
    }

    function HealthOf(name: string): Health
      reads this
    {
      if name in health then health[name] else Health(Unknown, 0, "", false, [])
    }

    /** New, once its runtime is built: stored settings that are invalid do not keep it from starting. */
    constructor (clock: Clock, base: Config, store: Store, rt: Runtime, disc: Option<Discovered>)
      requires WithinBounds(base) && rt.cfg == BootConfig(clock, base, store)
      ensures Valid() && this.clock == clock && this.base == base && this.store == store && this.rt == rt
      ensures !started && generation == 0
      ensures rt.cfg == if EffectiveOf(clock, base, GetAll(store)).Ok?
                        then EffectiveOf(clock, base, GetAll(store)).value else base
      ensures "plex" in health <==> Configured(rt.cfg)
    {
      BootIs(clock, base, store);
      hide BootConfig, WithinBounds;
      this.clock, this.base, this.store, this.rt := clock, base, store, rt;
      started, generation, health := false, 0, map[];
      BootWithinBounds(clock, base, store);
      new;
      SeedHealth(rt.cfg, rt, disc);
    }

    /** Start: from here on a reload also replaces the workers. */
    method Start()
      modifies this`started, this`generation
      ensures started && generation == old(generation) + 1
    {
      started := true;
      generation := generation + 1;
    }

    /** seedHealth for Plex. */
    method SeedHealth(cfg: Config, run: Runtime, disc: Option<Discovered>)
      modifies this`health
      ensures forall n | n != "plex" ::
        (n in health <==> n in old(health)) && (n in health ==> health[n] == old(health)[n])
      ensures "plex" in health <==>
        cfg.sources.plexToken != "" && (cfg.sources.plexURL != "" || cfg.sources.plexServer != "")
      ensures "plex" in health <==> Configured(cfg)
      ensures Configured(cfg) && run.plex.Some? ==> health["plex"].status == Healthy && health["plex"].failures == 0
      ensures Configured(cfg) && run.plex.None? ==> health["plex"].status == Down
      ensures Configured(cfg) && disc.Some? ==>
        && health["plex"].chosen == disc.value.baseURL && health["plex"].relay == disc.value.relay
        && health["plex"].candidates == disc.value.candidates
      ensures Configured(cfg) && disc.None? && cfg.sources.plexURL != "" ==>
        health["plex"].chosen == cfg.sources.plexURL && !health["plex"].relay && health["plex"].candidates == []
      ensures Configured(cfg) && disc.None? && cfg.sources.plexURL == "" && "plex" in old(health) ==>
        && health["plex"].chosen == old(health)["plex"].chosen && health["plex"].relay == old(health)["plex"].relay
        && health["plex"].candidates == old(health)["plex"].candidates
    {
      if Configured(cfg) {
        var h := HealthOf("plex");
        if disc.Some? {
          h := h.(chosen := disc.value.baseURL, relay := disc.value.relay, candidates := disc.value.candidates);
        } else if cfg.sources.plexURL != "" {
          h := h.(chosen := cfg.sources.plexURL, relay := false, candidates := []);
        }
        h := if run.plex.Some? then h.(status := Healthy, failures := 0) else h.(status := Down);
        health := health["plex" := h];
      } else {
        health := health - {"plex"};
      }
    }

    /** reloadWith: a new runtime and, once started, a new generation of workers; or nothing. */
    method ReloadWith(net: Network, pre: Option<Discovered>) returns (r: Result<(), Failure>)
      requires Valid()
      modifies this`rt, this`generation, this`health
      ensures Valid()
      ensures r.Err? ==> rt == old(rt) && generation == old(generation) && health == old(health)
      ensures r.Ok? <==> Eff().Ok? && net.builds
      ensures forall n | n != "plex" :: n in health <==> n in old(health)
      ensures r.Ok? ==>
        && Eff() == Ok(rt.cfg) && generation == old(generation) + (if started then 1 else 0)
        && (if pre.Some? then rt.plex == LinkOf(pre.value.baseURL, pre.value.token) else Resolved(net, rt.cfg, rt.plex))
        && ("plex" in health <==> Configured(rt.cfg))
        && (Configured(rt.cfg) && rt.plex.Some? ==> health["plex"].status == Healthy)
        && (Configured(rt.cfg) && pre.Some? ==>
              health["plex"].chosen == pre.value.baseURL && health["plex"].candidates == pre.value.candidates)
    {
      hide EffectiveOf, WithinBounds, Resolved;
      var eff := Effective(clock, base, GetAll(store));
      if eff.Err? {
        return Err(BadSettings(eff.error));
      }
      var built, disc := BuildRuntime(net, eff.value, pre);
      if built.Err? {
        return Err(built.error);
      }
      EffectiveWithinBounds(clock, base, GetAll(store));
      rt := built.value;
      generation := generation + if started then 1 else 0;
      SeedHealth(eff.value, rt, disc);
      r := Ok(());
    }

    // ---- saving settings ----

    /** SetMany: one transaction, in which any row, or the commit, may fail. */
    method SetMany(kv: Values, disk: Disk) returns (ok: bool)
      modifies this`store
      ensures ok <==> Stores(disk, kv)
      ensures store == if ok then Written(old(store), kv) else old(store)
    {
      hide Written;
      var tx := store;
      var left := kv.Keys;
      NothingWritten(store, kv);
      while left != {}
        invariant left <= kv.Keys && store == old(store)
        invariant tx == Written(old(store), Without(kv, left))
        invariant forall k | k in kv && k !in left :: disk.writes(k)
        decreases |left|
      {
        var k :| k in left;
        if !disk.writes(k) {
          return false;
        }
        WrittenMore(old(store), kv, left, k);
        tx := tx[k := Readable(kv[k])];
        left := left - {k};
      }
      if !disk.commits {
        return false;
      }
      AllWritten(kv);
      store := tx;
      ok := true;
    }

    /**
     * The first half of ApplySettings: validate the form over what is stored, then store it; None once
     * that is done.
     */
    method Save(f: Form, disk: Disk) returns (o: Option<Outcome>)
      modifies this`store
      ensures o.None? || o.value.Rejected? || o.value == NotStored
      ensures o.None? ==> Stores(disk, ToSet(f))
      ensures o == Some(NotStored) ==> !Stores(disk, ToSet(f))
      ensures o.Some? && o.value.Rejected? <==> EffectiveOf(clock, base, Overlaid(GetAll(old(store)), ToSet(f))).Err?
      ensures store == if o.None? then Written(old(store), ToSet(f)) else old(store)
      ensures o.None? ==> Eff().Ok?
    {
      var toSet := Plain(f.view);
      toSet := WithSecret(toSet, PlexToken, f.plexToken, f.clearPlex);
      toSet := WithSecret(toSet, JellyfinToken, f.jellyfinToken, f.clearJellyfin);
      assert toSet == ToSet(f);
      hide EffectiveOf, ToSet, Overlaid, GetAll, Written, Plain, WithSecret;
      var check := Effective(clock, base, Overlaid(GetAll(store), toSet));
      if check.Err? {
        return Some(Rejected(check.error));
      }
      GetAllWritten(store, toSet);
      var saved := SetMany(toSet, disk);
      o := if saved then None else Some(NotStored);
    }

    /** ApplySettings: rejected, saved but not live, or live with exactly what was saved. */
    method ApplySettings(f: Form, net: Network, disk: Disk) returns (o: Outcome)
      requires Valid()
      modifies this`store, this`rt, this`generation, this`health
      ensures Valid()
      ensures o.Rejected? <==> EffectiveOf(clock, base, Overlaid(GetAll(old(store)), ToSet(f))).Err?
      ensures o == NotStored <==> !o.Rejected? && !Stores(disk, ToSet(f))
      ensures o == Applied <==> !o.Rejected? && Stores(disk, ToSet(f)) && net.builds
      ensures o.Rejected? || o.NotStored? ==> store == old(store)
      ensures o.SavedNotLive? || o.Applied? ==> store == Written(old(store), ToSet(f)) && Eff().Ok?
      ensures !o.Applied? ==> rt == old(rt) && generation == old(generation) && health == old(health)
      ensures o.Applied? ==>
        && Eff() == Ok(rt.cfg) && Resolved(net, rt.cfg, rt.plex)
        && generation == old(generation) + (if started then 1 else 0)
    {
      hide EffectiveOf, ToSet, Overlaid, GetAll, Written, WithinBounds, Resolved;
      var refused := Save(f, disk);
      if refused.Some? {
        return refused.value;
      }
      var reloaded := ReloadWith(net, None);
      o := if reloaded.Ok? then Applied else SavedNotLive;
    }

    // ---- reconnecting ----

    /** The discovery half of doReconnect: the connection to install, or a failure on record. */
    method Resolve(cfg: Config, net: Network) returns (r: Result<Discovered, Failure>)
      requires Configured(cfg) && Discovers(cfg)
      modifies this`health
      ensures forall n | n != "plex" :: n in health <==> n in old(health)
      ensures r.Ok? ==> health == old(health) && Installed(net, cfg, LinkOf(r.value.baseURL, r.value.token))
      ensures r.Ok? ==> AnyReachable(r.value.candidates)
      ensures r.Err? ==> "plex" in health && (r.error.Undiscovered? || r.error == Unreachable)
      ensures r.Err? && r.error.Undiscovered? ==>
        health["plex"] == old(HealthOf("plex")).(status :=
            match r.error.found
            case AuthRefused => AuthError
            case NotFound => Parked
            case _ => Down)
      ensures r.Err? && r.error == Unreachable ==>
        health["plex"].status == Down && health["plex"].failures == old(HealthOf("plex")).failures + 1
      ensures NothingAnswers(net, cfg) ==> r.Err?
      ensures r.Ok? <==> Found(net, cfg)
    {
      hide Ranked, Selected, Discovery.Chosen, Probed, TrimSlashes, BestLink, FallbackLink, LinkOf, Obstacle;
      var found := Discover(net.fold, net.probe, cfg.sources.plexToken, cfg.sources.plexServer, net.fetched, true);
      if found.Err? {
        health := health["plex" := HealthOf("plex").(status := Classify(found.error))];
        return Err(Undiscovered(found.error));
      }
      ghost var s := Target(net, cfg).value;
      GateIff(net.fold, net.probe, s.conns, true, found.value.candidates);
      if !AnyReachable(found.value.candidates) {
        var h := HealthOf("plex");
        h := h.(status := Down, failures := h.failures + 1, candidates := found.value.candidates);
        health := health["plex" := h];
        return Err(Unreachable);
      }
      ChosenLink(net, s);
      SomethingUp(net, s, LinkOf(found.value.baseURL, found.value.token));
      r := Ok(found.value);
    }

    /** doReconnect. A source other than Plex is only probed again. */
    method DoReconnect(name: string, net: Network) returns (r: Result<(), Failure>)
      requires Valid()
      modifies this`rt, this`generation, this`health
      ensures Valid()
      // A failure leaves what runs alone, and so does a source that cannot switch.
      ensures r.Err? || name != "plex" ==> rt == old(rt) && generation == old(generation)
      ensures forall n | n != "plex" && n != name :: n in health <==> n in old(health)
      ensures name != "plex" ==>
        r.Ok? && name in health && health[name].status == if net.answers then Healthy else Down
      // Success with Plex configured starts one new generation on the settings in effect.
      ensures name == "plex" && r.Ok? ==> Eff().Ok?
      ensures name == "plex" && r.Ok? && !Configured(Eff().value) ==>
        rt == old(rt) && generation == old(generation) && health == old(health)
      ensures name == "plex" && r.Ok? && Configured(Eff().value) ==>
        && rt.cfg == Eff().value && generation == old(generation) + (if started then 1 else 0)
        && Installed(net, rt.cfg, rt.plex)
      // It succeeds if the settings are valid, a client can be built, and what has to be discovered is.
      ensures name == "plex" && Eff().Ok? && Configured(Eff().value) ==>
        (r.Ok? <==> net.builds && (Eff().value.sources.plexURL != "" || Found(net, Eff().value)))
      // A configured URL is installed as it is, and the token with it.
      ensures name == "plex" && r.Ok? && Eff().value.sources.plexURL != "" && Eff().value.sources.plexToken != "" ==>
        rt.plex == Some(Link(Eff().value.sources.plexURL, Eff().value.sources.plexToken))
      // Without a connection that answers nothing is installed.
      ensures name == "plex" && Eff().Ok? && Configured(Eff().value) && NothingAnswers(net, Eff().value) ==> r.Err?
    {
      hide EffectiveOf, Installed, NothingAnswers, LinkOf, WithinBounds, Resolved, Found, Discovers, Configured;
      if name != "plex" {
        ProbeAndRecord(name, net.answers);
        return Ok(());
      }
      var eff := Effective(clock, base, GetAll(store));
      if eff.Err? {
        return Err(BadSettings(eff.error));
      }
      if !Configured(eff.value) {
        TokenAndURL(eff.value);
        return Ok(());
      }
      r := ReconnectPlex(eff.value, net);
    }

    /** The part of doReconnect that may switch: find the connection, if it has to be found, and reload with it. */
    method ReconnectPlex(cfg: Config, net: Network) returns (r: Result<(), Failure>)
      requires Valid() && Eff() == Ok(cfg) && Configured(cfg)
      modifies this`rt, this`generation, this`health
      ensures Valid()
      ensures r.Err? ==> rt == old(rt) && generation == old(generation)
      ensures forall n | n != "plex" :: n in health <==> n in old(health)
      ensures r.Ok? ==>
        && rt.cfg == cfg && generation == old(generation) + (if started then 1 else 0) && Installed(net, cfg, rt.plex)
      ensures r.Ok? <==> net.builds && (cfg.sources.plexURL != "" || Found(net, cfg))
      ensures r.Ok? && cfg.sources.plexURL != "" && cfg.sources.plexToken != "" ==>
        rt.plex == Some(Link(cfg.sources.plexURL, cfg.sources.plexToken))
      ensures NothingAnswers(net, cfg) ==> r.Err?
    {
      hide EffectiveOf, Installed, NothingAnswers, LinkOf, WithinBounds, Resolved, Found, AnyReachable;
      var pre: Option<Discovered> := None;
      if Discovers(cfg) {
        var found := Resolve(cfg, net);
        if found.Err? {
          return Err(found.error);
        }
        pre := Some(found.value);
      } else {
        ByURL(net, cfg);
      }
      if cfg.sources.plexURL != "" {
        URLInstalled(net, cfg);
      }
      r := ReloadWith(net, pre);
      if r.Err? {
        health := health["plex" := HealthOf("plex")];
      }
    }

    /** A probe of a source that cannot switch connections touches its health record only. */
    method ProbeAndRecord(name: string, answers: bool)
      modifies this`health
      ensures name in health && health[name].status == (if answers then Healthy else Down)
      ensures name in health && health[name].failures == if answers then 0 else old(HealthOf(name)).failures + 1
      ensures name in health && forall n | n != name :: n in health <==> n in old(health)
    {
      var h := HealthOf(name);
      h := if answers then h.(status := Healthy, failures := 0) else h.(status := Down, failures := h.failures + 1);
      health := health[name := h];
    }
  }

  /** What Discover chooses is the best connection that answers, or the top-ranked when none does. */
  lemma {:induction false} ChosenLink(net: Network, s: Server)
    requires Ranked(net.fold, s.conns) != []
    ensures var c := Discovery.Chosen(net.probe, Ranked(net.fold, s.conns));
      var link := LinkOf(TrimSlashes(c.uri), s.token);
      BestLink(net, s, link) || FallbackLink(net, s, link)
  {
    var ranked := Ranked(net.fold, s.conns);
    hide Ranked, TrimSlashes, LinkOf, Best;
    var m := FirstRankedIsBest(net.fold, net.probe, s.conns);
    if FirstUp(net.probe, ranked).Some? {
      assert Best(net.fold, net.probe, s.conns, m);
    } else {
      var top := FirstRankedIsBest(net.fold, _ => true, s.conns);
      assert FirstUp(_ => true, ranked) == Some(ranked[0]);
      assert Best(net.fold, _ => true, s.conns, top);
    }
  }

  /**
   * What a successful reconnect by discovery installs, in terms of the advertised connections: one that
   * answers, direct over https from outside if any such answers, else direct over https, else direct,
   * else over https, and of equals the one advertised first.
   */
  lemma {:induction false} InstalledInFields(net: Network, cfg: Config, link: Option<Link>) returns (m: nat)
    requires cfg.sources.plexURL == "" && cfg.sources.plexServer != "" && Installed(net, cfg, link)
    ensures Target(net, cfg).Ok?
    ensures var s := Target(net, cfg).value;
      var https := (i: int) requires 0 <= i < |s.conns| => EqualFold(net.fold, s.conns[i].protocol, "https");
      && m < |s.conns| && net.probe(s.conns[m].uri) && link == LinkOf(TrimSlashes(s.conns[m].uri), s.token)
      && forall j | 0 <= j < |s.conns| && net.probe(s.conns[j].uri) ::
           var a, b := s.conns[j], s.conns[m];
           && (https(j) && !a.relay && !a.local ==> https(m) && !b.relay && !b.local)
           && (https(j) && !a.relay ==> https(m) && !b.relay)
           && (!a.relay ==> !b.relay)
           && (https(j) && a.relay && b.relay ==> https(m))
           && (https(j) == https(m) && a.relay == b.relay && a.local == b.local ==> m <= j)
  {
    var s := Target(net, cfg).value;
    hide TrimSlashes, LinkOf, EqualFold, Selected;
    m :| Best(net.fold, net.probe, s.conns, m) && link == LinkOf(TrimSlashes(s.conns[m].uri), s.token);
    forall j | 0 <= j < |s.conns| && net.probe(s.conns[j].uri) ensures Up(net.probe, s.conns, j) {
    }
  }

  lemma SomethingUp(net: Network, s: Server, link: Option<Link>)
    requires exists j: nat :: Up(net.probe, s.conns, j)
    requires BestLink(net, s, link) || FallbackLink(net, s, link)
    ensures BestLink(net, s, link)
  {
  }

  lemma URLInstalled(net: Network, cfg: Config)
    requires cfg.sources.plexURL != "" && cfg.sources.plexToken != ""
    ensures Configured(cfg)
    ensures forall link :: Installed(net, cfg, link) ==>
      link == Some(Link(cfg.sources.plexURL, cfg.sources.plexToken))
  {
  }

  lemma TokenAndURL(cfg: Config)
    ensures cfg.sources.plexURL != "" && cfg.sources.plexToken != "" ==> Configured(cfg)
  {
  }

  /** With a URL configured a reload and a reconnect install the same link. */
  lemma ByURL(net: Network, cfg: Config)
    requires Configured(cfg) && !Discovers(cfg)
    ensures forall link :: Resolved(net, cfg, link) <==> Installed(net, cfg, link)
    ensures !NothingAnswers(net, cfg)
  {
  }

  // ---- one row of the transaction at a time ----

  function Without(kv: Values, left: set<Key>): Values { map k | k in kv.Keys - left :: kv[k] }

  lemma NothingWritten(s: Store, kv: Values)
    ensures Written(s, Without(kv, kv.Keys)) == s
  {
    var none := Without(kv, kv.Keys);
    assert none.Keys == {};
  }

  lemma WrittenMore(s: Store, kv: Values, left: set<Key>, k: Key)
    requires left <= kv.Keys && k in left
    ensures Written(s, Without(kv, left))[k := Readable(kv[k])] == Written(s, Without(kv, left - {k}))
  {
    var a, b := Written(s, Without(kv, left))[k := Readable(kv[k])], Written(s, Without(kv, left - {k}));
    assert kv.Keys - (left - {k}) == (kv.Keys - left) + {k};
    assert a.Keys == b.Keys;
  }

  lemma AllWritten(kv: Values)
    ensures Without(kv, {}) == kv
  {
  }
}

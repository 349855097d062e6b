/** Resolving a Plex server through plex.tv: which server, and which of its connections. */
module Discovery {
  import opened Basics
  import Text

  datatype Conn = Conn(protocol: string, uri: string, local: bool, relay: bool)

  /** A resource of the account; roles is its "provides" list, split at the commas. */
  datatype Server = Server(name: string, clientId: string, roles: seq<string>, token: string, conns: seq<Conn>)

  /** One advertised connection and its probe: None when it was not probed. */
  datatype Probe = Probe(uri: string, protocol: string, local: bool, relay: bool, reachable: Option<bool>)

  datatype Discovered = Discovered(
    name: string, clientId: string, baseURL: string, token: string, relay: bool, candidates: seq<Probe>)

  datatype DiscoverError =
    | BadOptions | AuthRefused | NetworkDown | NotFound | Ambiguous(matches: nat) | NoAccessToken | NoConnections

  /** unicode.SimpleFold's classes, as a representative for each character. */
  type Folding = char -> char

  predicate EqualFold(fold: Folding, a: string, b: string) {
    |a| == |b| && forall i | 0 <= i < |a| :: fold(a[i]) == fold(b[i])
  }

  // ---- ranking ----

  /** connRank: 0 remote direct https, 1 local direct https, 2 other direct, 3 relay over https, 4 anything else. */
  function Rank(fold: Folding, c: Conn): (r: nat)
    ensures r < 5
    ensures r < 3 <==> !c.relay
  {
    var https := EqualFold(fold, c.protocol, "https");
    if https && !c.relay && !c.local then 0
    else if https && !c.relay && c.local then 1
    else if !c.relay then 2
    else if https && c.relay then 3
    else 4
  }

  /** The connections of one rank, in the order they were advertised. */
  function Bucket(fold: Folding, conns: seq<Conn>, rank: nat): seq<Conn> {
    if conns == [] then []
    else
      var last := conns[|conns| - 1];
      Bucket(fold, conns[..|conns| - 1], rank) + if Rank(fold, last) == rank then [last] else []
  }

  /** The buckets below a rank, best first. */
  function Below(fold: Folding, conns: seq<Conn>, rank: nat): seq<Conn> {
    if rank == 0 then [] else Below(fold, conns, rank - 1) + Bucket(fold, conns, rank - 1)
  }

  /** What a stable sort by rank returns. */
  function Ranked(fold: Folding, conns: seq<Conn>): seq<Conn> { Below(fold, conns, 5) }

  lemma {:induction false} BucketRank(fold: Folding, conns: seq<Conn>, rank: nat)
    ensures forall i | 0 <= i < |Bucket(fold, conns, rank)| :: Rank(fold, Bucket(fold, conns, rank)[i]) == rank
  {
    if conns != [] {
      BucketRank(fold, conns[..|conns| - 1], rank);
    }
  }

  lemma {:induction false} BelowRank(fold: Folding, conns: seq<Conn>, rank: nat)
    ensures forall i | 0 <= i < |Below(fold, conns, rank)| :: Rank(fold, Below(fold, conns, rank)[i]) < rank
  {
    if rank > 0 {
      BelowRank(fold, conns, rank - 1);
      BucketRank(fold, conns, rank - 1);
    }
  }

  lemma BucketMore(fold: Folding, conns: seq<Conn>, c: Conn, rank: nat)
    ensures Bucket(fold, conns + [c], rank) == Bucket(fold, conns, rank) + if Rank(fold, c) == rank then [c] else []
  {
    assert (conns + [c])[..|conns|] == conns;
  }

  lemma {:induction false} BelowSame(fold: Folding, conns: seq<Conn>, c: Conn, rank: nat)
    requires rank <= Rank(fold, c)
    ensures Below(fold, conns + [c], rank) == Below(fold, conns, rank)
  {
    hide Rank, Bucket;
    if rank > 0 {
      BelowSame(fold, conns, c, rank - 1);
      BucketMore(fold, conns, c, rank - 1);
    }
  }

  /** One more connection goes behind those of its rank or better and before the rest. */
  lemma {:induction false} BelowMore(fold: Folding, conns: seq<Conn>, c: Conn, rank: nat) returns (rest: seq<Conn>)
    requires rank > Rank(fold, c)
    ensures Below(fold, conns, rank) == Below(fold, conns, Rank(fold, c) + 1) + rest
    ensures Below(fold, conns + [c], rank) == Below(fold, conns, Rank(fold, c) + 1) + [c] + rest
    ensures forall i | 0 <= i < |rest| :: Rank(fold, rest[i]) > Rank(fold, c)
  {
    hide Rank, Bucket;
    BucketMore(fold, conns, c, rank - 1);
    if rank == Rank(fold, c) + 1 {
      BelowSame(fold, conns, c, rank - 1);
      rest := [];
    } else {
      rest := BelowMore(fold, conns, c, rank - 1);
      BucketRank(fold, conns, rank - 1);
      Regroup(Below(fold, conns, Rank(fold, c) + 1), [c], rest, Bucket(fold, conns, rank - 1));
      hide Below;
      rest := rest + Bucket(fold, conns, rank - 1);
    }
  }

  lemma Regroup(low: seq<Conn>, mid: seq<Conn>, rest: seq<Conn>, more: seq<Conn>)
    ensures low + rest + more == low + (rest + more) && low + mid + rest + more == low + mid + (rest + more)
  {
  }

  /** rankConnections: a stable sort of a copy; the library's sort is an insertion sort here. */
  method RankConnections(fold: Folding, conns: seq<Conn>) returns (out: seq<Conn>)
    ensures out == Ranked(fold, conns)
  {
    hide Rank, Bucket;
    out := [];
    NothingRanked(fold, 5);
    for i := 0 to |conns|
      invariant out == Ranked(fold, conns[..i])
    {
      var c := conns[i];
      ghost var low := Below(fold, conns[..i], Rank(fold, c) + 1);
      BelowRank(fold, conns[..i], Rank(fold, c) + 1);
      ghost var rest := BelowMore(fold, conns[..i], c, 5);
      assert forall k | 0 <= k < |low| :: Rank(fold, out[k]) <= Rank(fold, c);
      assert forall k | |low| <= k < |out| :: Rank(fold, out[k]) > Rank(fold, c);
      var j := PlaceFor(fold, out, c, |low|);
      assert conns[..i + 1] == conns[..i] + [c];
      assert out[..j] == low && out[j..] == rest;
      out := out[..j] + [c] + out[j..];
    }
    assert conns[..|conns|] == conns;
  }

  /** The insertion's inner loop: behind everything of the same rank or better. */
  method PlaceFor(fold: Folding, out: seq<Conn>, c: Conn, ghost low: nat) returns (j: nat)
    requires low <= |out|
    requires forall k | 0 <= k < low :: Rank(fold, out[k]) <= Rank(fold, c)
    requires forall k | low <= k < |out| :: Rank(fold, out[k]) > Rank(fold, c)
    ensures j == low
  {
    hide Rank;
    j := |out|;
    while j > 0 && Rank(fold, c) < Rank(fold, out[j - 1])
      invariant low <= j <= |out|
    {
      j := j - 1;
    }
  }

  lemma {:induction false} NothingRanked(fold: Folding, rank: nat)
    ensures Below(fold, [], rank) == []
  {
    if rank > 0 {
      NothingRanked(fold, rank - 1);
    }
  }

  // ---- the best reachable connection ----

  /** The first connection of a list that answers. */
  function FirstUp(probe: string -> bool, conns: seq<Conn>): (r: Option<Conn>)
    ensures r.None? <==> forall i | 0 <= i < |conns| :: !probe(conns[i].uri)
    ensures r.Some? ==> probe(r.value.uri)
  {
    if conns == [] then None else if probe(conns[0].uri) then Some(conns[0]) else FirstUp(probe, conns[1..])
  }

  lemma {:induction false} FirstUpJoin(probe: string -> bool, a: seq<Conn>, b: seq<Conn>)
    ensures FirstUp(probe, a + b) == if FirstUp(probe, a).Some? then FirstUp(probe, a) else FirstUp(probe, b)
  {
    if a == [] {
      assert a + b == b;
    } else {
      assert (a + b)[1..] == a[1..] + b;
      FirstUpJoin(probe, a[1..], b);
    }
  }

  predicate Up(probe: string -> bool, conns: seq<Conn>, i: nat) { i < |conns| && probe(conns[i].uri) }

  /** Of all reachable connections, one of least rank, and of those the one advertised first. */
  predicate Best(fold: Folding, probe: string -> bool, conns: seq<Conn>, m: nat) {
    && Up(probe, conns, m)
    && forall j: nat | j < |conns| && Up(probe, conns, j) ::
         Rank(fold, conns[m]) < Rank(fold, conns[j]) || (Rank(fold, conns[m]) == Rank(fold, conns[j]) && m <= j)
  }

  /** f is the first reachable connection of this rank, the one at m, if there is one. */
  predicate FirstOfRank(fold: Folding, probe: string -> bool, conns: seq<Conn>, rank: nat, f: Option<Conn>, m: nat) {
    if f.None? then forall j: nat | j < |conns| && Up(probe, conns, j) :: Rank(fold, conns[j]) != rank
    else
      && Up(probe, conns, m) && Rank(fold, conns[m]) == rank && f == Some(conns[m])
      && forall j: nat | j < |conns| && Up(probe, conns, j) && Rank(fold, conns[j]) == rank :: m <= j
  }

  function IfUp(probe: string -> bool, c: Conn): Option<Conn> { if probe(c.uri) then Some(c) else None }

  lemma FirstOfRankMore(fold: Folding, probe: string -> bool, conns: seq<Conn>, c: Conn, rank: nat, f: Option<Conn>,
                        m: nat)
    requires FirstOfRank(fold, probe, conns, rank, f, m)
    ensures if f.Some? then FirstOfRank(fold, probe, conns + [c], rank, f, m)
            else
              FirstOfRank(fold, probe, conns + [c], rank,
                          if Rank(fold, c) == rank then IfUp(probe, c) else None, |conns|)
  {
    hide Rank;
    assert forall j: nat | j < |conns| ::
        (conns + [c])[j] == conns[j] && Up(probe, conns + [c], j) == Up(probe, conns, j);
  }

  /** The first that answers of a bucket is the first reachable connection of its rank. */
  lemma {:induction false} BucketFirst(fold: Folding, probe: string -> bool, conns: seq<Conn>, rank: nat)
    returns (m: nat)
    ensures FirstOfRank(fold, probe, conns, rank, FirstUp(probe, Bucket(fold, conns, rank)), m)
  {
    NoneUp(probe);
    hide Rank, FirstUp, IfUp;
    m := 0;
    if conns != [] {
      hide FirstOfRank;
      var before, c := conns[..|conns| - 1], conns[|conns| - 1];
      m := BucketFirst(fold, probe, before, rank);
      var f := FirstUp(probe, Bucket(fold, before, rank));
      FirstUpJoin(probe, Bucket(fold, before, rank), if Rank(fold, c) == rank then [c] else []);
      OneUp(probe, c);
      FirstOfRankMore(fold, probe, before, c, rank, f, m);
      assert before + [c] == conns;
      m := if f.Some? then m else |before|;
    }
  }

  lemma NoneUp(probe: string -> bool)
    ensures FirstUp(probe, []) == None
  {
  }

  lemma OneUp(probe: string -> bool, c: Conn)
    ensures FirstUp(probe, [c]) == IfUp(probe, c)
  {
    assert [c][1..] == [];
  }

  lemma {:induction false} BelowFirst(fold: Folding, probe: string -> bool, conns: seq<Conn>, rank: nat)
    returns (m: nat)
    ensures
      var f := FirstUp(probe, Below(fold, conns, rank));
      if f.None? then forall j: nat | j < |conns| && Up(probe, conns, j) :: Rank(fold, conns[j]) >= rank
      else Best(fold, probe, conns, m) && f == Some(conns[m])
  {
    hide Rank, Bucket;
    m := 0;
    if rank > 0 {
      m := BelowFirst(fold, probe, conns, rank - 1);
      var own := BucketFirst(fold, probe, conns, rank - 1);
      FirstUpJoin(probe, Below(fold, conns, rank - 1), Bucket(fold, conns, rank - 1));
      if FirstUp(probe, Below(fold, conns, rank - 1)).None? {
        m := own;
      }
    }
  }

  /**
   * Taking the first that answers in rank order takes the best reachable connection; it fails only
   * when none answers.
   */
  lemma {:induction false} FirstRankedIsBest(fold: Folding, probe: string -> bool, conns: seq<Conn>) returns (m: nat)
    ensures
      var f := FirstUp(probe, Ranked(fold, conns));
      if f.None? then forall j: nat | j < |conns| :: !Up(probe, conns, j)
      else Best(fold, probe, conns, m) && f == Some(conns[m])
  {
    m := BelowFirst(fold, probe, conns, 5);
    hide Below;
  }

  lemma BestIsOne(fold: Folding, probe: string -> bool, conns: seq<Conn>, a: nat, b: nat)
    requires Best(fold, probe, conns, a) && Best(fold, probe, conns, b)
    ensures a == b
  {
    hide Rank;
  }

  // ---- the best connection, said of its fields ----

  /** Direct over https, from outside. */
  function Remote(fold: Folding): Conn -> bool {
    (c: Conn) => EqualFold(fold, c.protocol, "https") && !c.relay && !c.local
  }

  /** Direct over https, on the server's own network. */
  function Nearby(fold: Folding): Conn -> bool {
    (c: Conn) => EqualFold(fold, c.protocol, "https") && !c.relay && c.local
  }

  function Direct(): Conn -> bool { (c: Conn) => !c.relay }

  function SecureRelay(fold: Folding): Conn -> bool { (c: Conn) => EqualFold(fold, c.protocol, "https") && c.relay }

  /** Some connection of this kind answers. */
  predicate SomeUp(probe: string -> bool, conns: seq<Conn>, kind: Conn -> bool) {
    exists j: nat :: j < |conns| && Up(probe, conns, j) && kind(conns[j])
  }

  /** The one at m is of this kind, answers, and is the first advertised that is and does. */
  predicate FirstSuch(probe: string -> bool, conns: seq<Conn>, kind: Conn -> bool, m: nat) {
    && m < |conns| && Up(probe, conns, m) && kind(conns[m])
    && forall j: nat | j < m && Up(probe, conns, j) :: !kind(conns[j])
  }

  /**
   * The connection to take: the first that answers among the remote ones over https; if none does, among
   * the nearby ones over https; else among the other direct ones; a relay only if no direct one answers, and
   * then one over https if there is one.
   */
  lemma {:induction false} BestInFields(fold: Folding, probe: string -> bool, conns: seq<Conn>, m: nat)
    ensures Best(fold, probe, conns, m) <==>
      if SomeUp(probe, conns, Remote(fold)) then FirstSuch(probe, conns, Remote(fold), m)
      else if SomeUp(probe, conns, Nearby(fold)) then FirstSuch(probe, conns, Nearby(fold), m)
      else if SomeUp(probe, conns, Direct()) then FirstSuch(probe, conns, Direct(), m)
      else if SomeUp(probe, conns, SecureRelay(fold)) then FirstSuch(probe, conns, SecureRelay(fold), m)
      else FirstSuch(probe, conns, c => true, m)
    // The kinds, spelled out.
    ensures forall c :: Remote(fold)(c) <==> EqualFold(fold, c.protocol, "https") && !c.relay && !c.local
    ensures forall c :: Nearby(fold)(c) <==> EqualFold(fold, c.protocol, "https") && !c.relay && c.local
    ensures forall c :: Direct()(c) <==> !c.relay
    ensures forall c :: SecureRelay(fold)(c) <==> EqualFold(fold, c.protocol, "https") && c.relay
  {
    hide EqualFold;
  }

  // ---- the server ----

  predicate IsServer(r: Server) { exists i | 0 <= i < |r.roles| :: Text.Trim(r.roles[i]) == "server" }

  predicate Matches(fold: Folding, r: Server, want: string) {
    IsServer(r) && (EqualFold(fold, r.name, want) || r.clientId == want)
  }

  function Matching(fold: Folding, resources: seq<Server>, want: string): seq<Server> {
    if resources == [] then []
    else
      var last := resources[|resources| - 1];
      Matching(fold, resources[..|resources| - 1], want) + if Matches(fold, last, want) then [last] else []
  }

  lemma MatchingMore(fold: Folding, resources: seq<Server>, r: Server, want: string)
    ensures Matching(fold, resources + [r], want)
         == Matching(fold, resources, want) + if Matches(fold, r, want) then [r] else []
  {
    hide Matches;
    assert (resources + [r])[..|resources|] == resources;
  }

  /** selectServer. */
  method SelectServer(fold: Folding, resources: seq<Server>, want: string) returns (r: Result<Server, DiscoverError>)
    ensures r == Selected(fold, resources, want)
  {
    hide EqualFold, IsServer, Matching;
    var servers: seq<Server> := [];
    for i := 0 to |resources|
      invariant Matching(fold, servers, want) == Matching(fold, resources[..i], want)
      invariant forall k | 0 <= k < |servers| :: IsServer(servers[k])
    {
      assert resources[..i + 1] == resources[..i] + [resources[i]];
      MatchingMore(fold, resources[..i], resources[i], want);
      if IsServer(resources[i]) {
        MatchingMore(fold, servers, resources[i], want);
        servers := servers + [resources[i]];
      }
    }
    assert resources[..|resources|] == resources;
    var matches := FilterMatches(fold, servers, want);
    r := if |matches| == 1 then Ok(matches[0]) else if |matches| == 0 then Err(NotFound) else Err(Ambiguous(|matches|));
  }

  /** The second loop of selectServer, over servers only. */
  method FilterMatches(fold: Folding, servers: seq<Server>, want: string) returns (matches: seq<Server>)
    requires forall k | 0 <= k < |servers| :: IsServer(servers[k])
    ensures matches == Matching(fold, servers, want)
  {
    hide EqualFold, IsServer, Matching;
    matches := [];
    NoMatching(fold, want);
    for i := 0 to |servers|
      invariant matches == Matching(fold, servers[..i], want)
    {
      assert servers[..i + 1] == servers[..i] + [servers[i]];
      MatchingMore(fold, servers[..i], servers[i], want);
      if EqualFold(fold, servers[i].name, want) || servers[i].clientId == want {
        matches := matches + [servers[i]];
      }
    }
    assert servers[..|servers|] == servers;
  }

  lemma NoMatching(fold: Folding, want: string)
    ensures Matching(fold, [], want) == []
  {
  }

  function Selected(fold: Folding, resources: seq<Server>, want: string): Result<Server, DiscoverError> {
    var m := Matching(fold, resources, want);
    if |m| == 1 then Ok(m[0]) else if |m| == 0 then Err(NotFound) else Err(Ambiguous(|m|))
  }

  /** Resource i matches and no other does. */
  predicate OnlyMatch(fold: Folding, resources: seq<Server>, want: string, i: nat) {
    && i < |resources| && Matches(fold, resources[i], want)
    && forall j: nat | j < |resources| && j != i :: !Matches(fold, resources[j], want)
  }

  lemma {:induction false} MatchingNone(fold: Folding, resources: seq<Server>, want: string)
    ensures Matching(fold, resources, want) == [] <==>
      forall j: nat | j < |resources| :: !Matches(fold, resources[j], want)
  {
    hide Matches;
    if resources != [] {
      var n := |resources| - 1;
      MatchingNone(fold, resources[..n], want);
      assert forall j: nat | j < n :: resources[..n][j] == resources[j];
    }
  }

  lemma {:induction false} OnlyIsMatching(fold: Folding, resources: seq<Server>, want: string, i: nat)
    requires OnlyMatch(fold, resources, want, i)
    ensures Matching(fold, resources, want) == [resources[i]]
  {
    hide Matches;
    var n := |resources| - 1;
    assert forall j: nat | j < n :: resources[..n][j] == resources[j];
    if i == n {
      MatchingNone(fold, resources[..n], want);
    } else {
      OnlyIsMatching(fold, resources[..n], want, i);
    }
  }

  lemma {:induction false} MatchingIsOnly(fold: Folding, resources: seq<Server>, want: string) returns (i: nat)
    requires |Matching(fold, resources, want)| == 1
    ensures OnlyMatch(fold, resources, want, i) && Matching(fold, resources, want) == [resources[i]]
  {
    hide Matches;
    var n := |resources| - 1;
    assert forall j: nat | j < n :: resources[..n][j] == resources[j];
    if Matches(fold, resources[n], want) {
      MatchingNone(fold, resources[..n], want);
      i := n;
    } else {
      i := MatchingIsOnly(fold, resources[..n], want);
    }
  }

  lemma MatchesIff(fold: Folding, want: string)
    ensures forall r: Server :: Matches(fold, r, want) <==>
      && (exists i :: 0 <= i < |r.roles| && Text.Trim(r.roles[i]) == "server")
      && (EqualFold(fold, r.name, want) || r.clientId == want)
  {
    hide EqualFold, Text.Trim;
  }

  lemma {:induction false} MatchingCount(fold: Folding, resources: seq<Server>, want: string)
    ensures |Matching(fold, resources, want)| == |set j: nat | j < |resources| && Matches(fold, resources[j], want)|
  {
    hide Matches, Matching;
    var all := set j: nat | j < |resources| && Matches(fold, resources[j], want);
    if resources == [] {
      NoMatching(fold, want);
      assert all == {};
    } else {
      var n := |resources| - 1;
      var rest := resources[..n];
      MatchingCount(fold, rest, want);
      assert rest + [resources[n]] == resources;
      MatchingMore(fold, rest, resources[n], want);
      MatchSetMore(fold, rest, resources[n], want);
    }
  }

  lemma MatchSetMore(fold: Folding, rest: seq<Server>, r: Server, want: string)
    ensures var some := set j: nat | j < |rest| && Matches(fold, rest[j], want);
      var all := set j: nat | j < |rest + [r]| && Matches(fold, (rest + [r])[j], want);
      |all| == |some| + if Matches(fold, r, want) then 1 else 0
  {
    hide Matches;
    var some := set j: nat | j < |rest| && Matches(fold, rest[j], want);
    var all := set j: nat | j < |rest + [r]| && Matches(fold, (rest + [r])[j], want);
    var n: nat := |rest|;
    assert n !in some && all == if Matches(fold, r, want) then some + {n} else some;
  }

  /** A server is selected exactly when it is the account's only match, and the failure says which way it was not. */
  lemma {:induction false} SelectedIff(fold: Folding, resources: seq<Server>, want: string, s: Server)
    ensures Selected(fold, resources, want) == Ok(s) <==>
      exists i: nat :: OnlyMatch(fold, resources, want, i) && resources[i] == s
    ensures Selected(fold, resources, want) == Err(NotFound) <==>
      forall j: nat | j < |resources| :: !Matches(fold, resources[j], want)
    ensures forall n: nat :: Selected(fold, resources, want) == Err(Ambiguous(n)) <==>
      n >= 2 && n == |set j: nat | j < |resources| && Matches(fold, resources[j], want)|
    // A match is a server, by its roles, whose name is the wanted one up to case or whose identifier is exactly it.
    ensures forall r: Server :: Matches(fold, r, want) <==>
      && (exists i :: 0 <= i < |r.roles| && Text.Trim(r.roles[i]) == "server")
      && (EqualFold(fold, r.name, want) || r.clientId == want)
  {
    MatchingNone(fold, resources, want);
    MatchingCount(fold, resources, want);
    MatchesIff(fold, want);
    hide Matches, Matching, EqualFold, Text.Trim;
    if Selected(fold, resources, want) == Ok(s) {
      var i := MatchingIsOnly(fold, resources, want);
      assert OnlyMatch(fold, resources, want, i) && resources[i] == s;
    }
    if i: nat :| OnlyMatch(fold, resources, want, i) && resources[i] == s {
      OnlyIsMatching(fold, resources, want, i);
    }
  }

  lemma RankedNone(fold: Folding, conns: seq<Conn>)
    ensures Ranked(fold, conns) == [] <==> conns == []
  {
    if conns == [] {
      NothingRanked(fold, 5);
    } else {
      hide Ranked;
      var m := FirstRankedIsBest(fold, _ => true, conns);
      assert Up(_ => true, conns, 0);
    }
  }

  // ---- Discover ----

  /** strings.TrimRight(s, "/"). */
  function TrimSlashes(s: string): (r: string)
    ensures r <= s && (r != "" ==> r[|r| - 1] != '/') && forall i | |r| <= i < |s| :: s[i] == '/'
  {
    if s != "" && s[|s| - 1] == '/' then TrimSlashes(s[..|s| - 1]) else s
  }

  /** The position of the first connection that answers, or the length. */
  function FirstUpAt(probe: string -> bool, conns: seq<Conn>): (n: nat)
    ensures n <= |conns| && (n < |conns| ==> FirstUp(probe, conns) == Some(conns[n]))
    ensures n == |conns| <==> FirstUp(probe, conns) == None
    ensures forall i | 0 <= i < n :: !probe(conns[i].uri)
  {
    if conns == [] || probe(conns[0].uri) then 0 else 1 + FirstUpAt(probe, conns[1..])
  }

  lemma FirstUpAtIs(probe: string -> bool, conns: seq<Conn>, i: nat)
    requires i < |conns| && probe(conns[i].uri) && forall j | 0 <= j < i :: !probe(conns[j].uri)
    ensures FirstUpAt(probe, conns) == i && FirstUp(probe, conns) == Some(conns[i])
  {
  }

  function ProbeOf(c: Conn, reachable: Option<bool>): Probe {
    Probe(TrimSlashes(c.uri), c.protocol, c.local, c.relay, reachable)
  }

  /** The candidate table: probed up to the first that answers, or all of them. */
  predicate Probed(probe: string -> bool, conns: seq<Conn>, all: bool, table: seq<Probe>) {
    && |table| == |conns|
    && forall i | 0 <= i < |conns| ::
         table[i] == ProbeOf(conns[i], if all || i <= FirstUpAt(probe, conns) then Some(probe(conns[i].uri)) else None)
  }

  function Chosen(probe: string -> bool, conns: seq<Conn>): Conn
    requires conns != []
  {
    if FirstUp(probe, conns).Some? then FirstUp(probe, conns).value else conns[0]
  }

  /** The probe loop. */
  method ProbeLoop(probe: string -> bool, conns: seq<Conn>, probeAll: bool)
    returns (chosen: Conn, candidates: seq<Probe>)
    requires conns != []
    ensures chosen == Chosen(probe, conns) && Probed(probe, conns, probeAll, candidates)
  {
    hide TrimSlashes, FirstUpAt, FirstUp;
    candidates := seq(|conns|, i requires 0 <= i < |conns| => ProbeOf(conns[i], None));
    chosen := conns[0];
    var chosenIdx := -1;
    for i := 0 to |conns|
      invariant |candidates| == |conns| && -1 <= chosenIdx < i
      invariant if chosenIdx == -1 then chosen == conns[0] && forall j | 0 <= j < i :: !probe(conns[j].uri)
                else probeAll && FirstUpAt(probe, conns) == chosenIdx && FirstUp(probe, conns) == Some(chosen)
      invariant forall j | 0 <= j < i :: candidates[j] == ProbeOf(conns[j], Some(probe(conns[j].uri)))
      invariant forall j | i <= j < |conns| :: candidates[j] == ProbeOf(conns[j], None)
    {
      var ok := probe(conns[i].uri);
      candidates := candidates[i := ProbeOf(conns[i], Some(ok))];
      if ok && chosenIdx == -1 {
        chosen, chosenIdx := conns[i], i;
        FirstUpAtIs(probe, conns, i);
        if !probeAll {
          break;
        }
      }
    }
  }

  /** What keeps discovery from a result, if anything, in the order it is met. */
  function Obstacle(fold: Folding, token: string, want: string, fetched: Result<seq<Server>, DiscoverError>)
    : Option<DiscoverError>
  {
    if Text.Trim(token) == "" || Text.Trim(want) == "" then Some(BadOptions)
    else if fetched.Err? then Some(fetched.error)
    else
      match Selected(fold, fetched.value, want)
      case Err(e) => Some(e)
      case Ok(s) =>
        if s.token == "" then Some(NoAccessToken) else if Ranked(fold, s.conns) == [] then Some(NoConnections) else None
  }

  lemma TableIs(probe: string -> bool, conns: seq<Conn>, all: bool, table: seq<Probe>)
    requires Probed(probe, conns, all, table)
    ensures |table| == |conns|
    ensures forall i | 0 <= i < |conns| ::
      && table[i].uri == TrimSlashes(conns[i].uri) && table[i].protocol == conns[i].protocol
      && table[i].local == conns[i].local && table[i].relay == conns[i].relay
      && (table[i].reachable.Some? ==> table[i].reachable.value == probe(conns[i].uri))
      && (table[i].reachable.None? ==> !all && exists j :: 0 <= j < i && probe(conns[j].uri))
      && (all ==> table[i].reachable.Some?)
  {
    hide TrimSlashes;
    var at := FirstUpAt(probe, conns);
    if at < |conns| {
      assert probe(conns[at].uri);
    }
  }

  /** Discover. fetched is plex.tv's answer for this token, probe whether a URL answers. */
  method Discover(fold: Folding, probe: string -> bool, token: string, want: string,
                  fetched: Result<seq<Server>, DiscoverError>, probeAll: bool)
    returns (r: Result<Discovered, DiscoverError>)
    ensures r.Err? ==> Some(r.error) == Obstacle(fold, token, want, fetched)
    // Every way to fail, in the order it is met.
    ensures Text.Trim(token) == "" || Text.Trim(want) == "" ==> r == Err(BadOptions)
    ensures Text.Trim(token) != "" && Text.Trim(want) != "" ==>
      match fetched
      case Err(e) => r == Err(e)
      case Ok(resources) =>
        match Selected(fold, resources, want)
        case Err(e) => r == Err(e)
        case Ok(s) =>
          && (s.token == "" ==> r == Err(NoAccessToken))
          && (s.token != "" && s.conns == [] ==> r == Err(NoConnections))
          && (s.token != "" && s.conns != [] ==> r.Ok?)
    ensures r.Ok? ==>
      && Obstacle(fold, token, want, fetched) == None
      && fetched.Ok? && Selected(fold, fetched.value, want).Ok?
      && var s := Selected(fold, fetched.value, want).value;
         var conns := Ranked(fold, s.conns);
         && conns != [] && r.value.name == s.name && r.value.clientId == s.clientId && r.value.token == s.token != ""
         && r.value.baseURL == TrimSlashes(Chosen(probe, conns).uri) && r.value.relay == Chosen(probe, conns).relay
         && Probed(probe, conns, probeAll, r.value.candidates)
    // The table: one line for each connection, and what its probe said, if it was probed.
    ensures r.Ok? ==>
      var conns, table := Ranked(fold, Selected(fold, fetched.value, want).value.conns), r.value.candidates;
      && |table| == |conns|
      && forall i | 0 <= i < |conns| ::
           && table[i].uri == TrimSlashes(conns[i].uri) && table[i].protocol == conns[i].protocol
           && table[i].local == conns[i].local && table[i].relay == conns[i].relay
           && (table[i].reachable.Some? ==> table[i].reachable.value == probe(conns[i].uri))
           && (table[i].reachable.None? ==>
                 !probeAll && exists j :: 0 <= j < i && probe(conns[j].uri))
           && (probeAll ==> table[i].reachable.Some?)
  {
    hide Ranked, Selected, TrimSlashes, Chosen, Probed;
    if Text.Trim(token) == "" || Text.Trim(want) == "" {
      return Err(BadOptions);
    }
    if fetched.Err? {
      return Err(fetched.error);
    }
    var res := SelectServer(fold, fetched.value, want);
    if res.Err? {
      return Err(res.error);
    }
    var server := res.value;
    if server.token == "" {
      return Err(NoAccessToken);
    }
    var conns := RankConnections(fold, server.conns);
    RankedNone(fold, server.conns);
    if |conns| == 0 {
      return Err(NoConnections);
    }
    var chosen, candidates := ProbeLoop(probe, conns, probeAll);
    TableIs(probe, conns, probeAll, candidates);
    r := Ok(Discovered(server.name, server.clientId, TrimSlashes(chosen.uri), server.token, chosen.relay, candidates));
  }

  /** health.go's anyReachable. */
  predicate AnyReachable(table: seq<Probe>) {
    exists i | 0 <= i < |table| :: table[i].reachable == Some(true)
  }

  /** The gate on the probe table is exact, even though Discover itself falls back to an unreachable connection. */
  lemma {:induction false} GateIff(fold: Folding, probe: string -> bool, conns: seq<Conn>, all: bool, table: seq<Probe>)
    requires Probed(probe, Ranked(fold, conns), all, table)
    ensures AnyReachable(table) <==> exists j: nat :: Up(probe, conns, j)
  {
    hide Ranked, TrimSlashes;
    var m := FirstRankedIsBest(fold, probe, conns);
    var ranked := Ranked(fold, conns);
    var at := FirstUpAt(probe, ranked);
    if at < |ranked| {
      assert table[at].reachable == Some(true);
      assert Up(probe, conns, m);
    } else {
      assert forall i | 0 <= i < |ranked| :: table[i].reachable == Some(false);
    }
  }
}

/** When an interrupted download can still finish, and what its row then says. */
module Completion {
  import opened Basics
  import opened Items
  import opened Remote
  import opened Lane

  ghost predicate LawfulEvents(payload: Bytes, l: Lane, evs: seq<Event>)
    decreases |evs|
  {
    evs == [] || (Lawful(payload, l, evs[0]) && LawfulEvents(payload, Next(l, evs[0]), evs[1..]))
  }

  ghost function Play(payload: Bytes, l: Lane, evs: seq<Event>): Lane
    requires LawfulEvents(payload, l, evs)
    decreases |evs|
  {
    if evs == [] then l else Play(payload, Next(l, evs[0]), evs[1..])
  }

  /** A step of anyone but a user who queues the item again or cancels it. */
  predicate Unasked(ev: Event) { !ev.Enqueue? && !ev.Delete? && !ev.Unlink? }

  /** The user neither queues the item again nor cancels it. */
  predicate LeftAlone(evs: seq<Event>) {
    forall ev | ev in evs :: Unasked(ev)
  }

  ghost predicate Reaches(payload: Bytes, l: Lane, m: Lane) {
    exists evs :: LawfulEvents(payload, l, evs) && LeftAlone(evs) && Play(payload, l, evs) == m
  }

  predicate IsReady(l: Lane) {
    l.row.Some? && l.row.value.status == Ready
  }

  lemma {:induction false} PlayMore(payload: Bytes, l: Lane, evs: seq<Event>, ev: Event)
    requires LawfulEvents(payload, l, evs) && Lawful(payload, Play(payload, l, evs), ev)
    ensures LawfulEvents(payload, l, evs + [ev])
    ensures Play(payload, l, evs + [ev]) == Next(Play(payload, l, evs), ev)
    decreases |evs|
  {
    if evs == [] {
      assert evs + [ev] == [ev];
    } else {
      assert (evs + [ev])[1..] == evs[1..] + [ev];
      PlayMore(payload, Next(l, evs[0]), evs[1..], ev);
    }
  }

  lemma Then(payload: Bytes, l: Lane, m: Lane, ev: Event)
    requires Reaches(payload, l, m) && Lawful(payload, m, ev) && Unasked(ev)
    ensures Reaches(payload, l, Next(m, ev))
  {
    var evs :| LawfulEvents(payload, l, evs) && LeftAlone(evs) && Play(payload, l, evs) == m;
    PlayMore(payload, l, evs, ev);
    assert LeftAlone(evs + [ev]);
  }

  /** A download begun with one attempt, up to the request. */
  lemma ReachesRequest(payload: Bytes, l: Lane) returns (m: Lane)
    requires l.phase.Idle? && l.row.Some? && !IsReady(l)
    ensures Reaches(payload, l, m)
    ensures m == l.(row := m.row, final := m.final, phase := Asked(l.row.value.size, Offset(l.partial), 0))
    ensures m.row.Some?
  {
    assert LeftAlone([]) && Play(payload, l, []) == l;
    m := l;
    Then(payload, l, m, Begin);
    m := Next(m, Begin);
    var at := Locate(l.home, if l.final == Some(payload) then l.final else None);
    Then(payload, l, m, at);
    m := Next(m, at);
    m := Asks(payload, l, m, 1);
  }

  lemma Asks(payload: Bytes, l: Lane, located: Lane, attempts: nat) returns (m: Lane)
    requires Reaches(payload, l, located) && located.phase.Located? && attempts > 0
    ensures Reaches(payload, l, m)
    ensures m == located.(row := m.row, phase := Asked(located.phase.size, located.phase.startAt, attempts - 1))
    ensures m.row.Some? == located.row.Some?
  {
    m := located;
    Then(payload, l, m, StartRow(attempts, true));
    m := Next(m, StartRow(attempts, true));
    Then(payload, l, m, Ask);
    m := Next(m, Ask);
  }

  /** A body that ends cleanly, received in one piece. */
  lemma Receives(payload: Bytes, l: Lane, accepted: Lane) returns (m: Lane)
    requires Reaches(payload, l, accepted) && accepted.phase.Accepted? && accepted.phase.clean
    ensures Reaches(payload, l, m)
    ensures m.home == accepted.home && m.phase == Fetched(accepted.phase.size) && m.partial.Some?
    ensures accepted.phase.startAt == 0 || accepted.partial.None? ==> m.partial.value == accepted.phase.body
    ensures accepted.phase.startAt > 0 && accepted.partial.Some? ==>
              m.partial.value == accepted.partial.value + accepted.phase.body
  {
    m := accepted;
    Then(payload, l, m, Open(true));
    m := Next(m, Open(true));
    var body := m.phase.rest;
    assert [] + body == body && m.partial.value + [] == m.partial.value;
    if body != [] {
      Then(payload, l, m, Chunk(|body|, true));
      m := Next(m, Chunk(|body|, true));
      assert body[..|body|] == body;
    }
    Then(payload, l, m, BodyEnds(true));
    m := Next(m, BodyEnds(true));
    Then(payload, l, m, Sync(true));
    m := Next(m, Sync(true));
  }

  /** A fetched partial of the right size becomes the finished file. */
  lemma Finishes(payload: Bytes, l: Lane, fetched: Lane) returns (m: Lane)
    requires Reaches(payload, l, fetched) && fetched.phase.Fetched? && fetched.partial.Some?
    requires fetched.phase.size <= 0 || fetched.phase.size == |fetched.partial.value|
    ensures Reaches(payload, l, m)
    ensures IsReady(m) && m.final == fetched.partial
  {
    m := fetched;
    Then(payload, l, m, Measure(true));
    m := Next(m, Measure(true));
    Then(payload, l, m, Move(true, true));
    m := Next(m, Move(true, true));
    var done := Record(NewRow("", "", [], [], 0), 0);
    Then(payload, l, m, done);
    m := Next(m, done);
  }

  /** A helpful server's answer to a request. */
  lemma ReachesFetched(payload: Bytes, l: Lane, asked: Lane) returns (m: Lane)
    requires Reaches(payload, l, asked) && Sound(payload, asked) && asked.phase.Asked?
    requires asked.phase.size <= 0 || asked.phase.size == |payload|
    ensures Reaches(payload, l, m)
    ensures m.partial == Some(payload) && m.phase == Fetched(asked.phase.size)
  {
    var at := asked.phase.startAt;
    var answer := Hear(if at == |payload| > 0 then Reply(416, "", [], true)
                       else Reply(if at == 0 then 200 else 206, "", payload[at..], true));
    Then(payload, l, asked, answer);
    m := Next(asked, answer);
    if at == |payload| > 0 {
      WholePrefix(payload, asked.partial.value);
    } else {
      if at > 0 {
        assert asked.partial.value == payload[..at];
      }
      assert payload == payload[..at] + payload[at..];
      m := Receives(payload, l, m);
    }
  }

  /** The declared size cannot be met, and no worker has got past the size check. */
  ghost predicate Hopeless(payload: Bytes, l: Lane, declared: int) {
    && Sound(payload, l) && declared > 0 && declared != |payload|
    && l.row.Some? && l.row.value.size == declared && !IsReady(l)
    && (!l.phase.Idle? ==> l.phase.size == declared)
  }

  lemma StaysHopeless(payload: Bytes, l: Lane, declared: int, ev: Event)
    requires Hopeless(payload, l, declared) && Lawful(payload, l, ev) && Unasked(ev)
    ensures Hopeless(payload, Next(l, ev), declared)
  {
    StepKeepsSound(payload, l, ev);
  }

  lemma {:induction false} PlaysHopeless(payload: Bytes, l: Lane, declared: int, evs: seq<Event>)
    requires Hopeless(payload, l, declared) && LawfulEvents(payload, l, evs) && LeftAlone(evs)
    ensures !IsReady(Play(payload, l, evs))
    decreases |evs|
  {
    if evs != [] {
      assert LeftAlone(evs[1..]) by {
        assert forall ev | ev in evs[1..] :: ev in evs;
      }
      StaysHopeless(payload, l, declared, evs[0]);
      PlaysHopeless(payload, Next(l, evs[0]), declared, evs[1..]);
    }
  }

  /**
   * No crash, cut body or failed attempt strands an item: from any sound state without a worker
   * the download can still be completed, exactly when the declared size is unknown or right.
   */
  lemma CompletableIff(payload: Bytes, l: Lane)
    requires Sound(payload, l) && l.phase.Idle? && l.row.Some? && !IsReady(l)
    ensures (exists m :: Reaches(payload, l, m) && IsReady(m))
      <==> (l.row.value.size <= 0 || l.row.value.size == |payload|)
  {
    var declared := l.row.value.size;
    if declared <= 0 || declared == |payload| {
      var m := ReachesRequest(payload, l);
      ReachSound(payload, l, m);
      m := ReachesFetched(payload, l, m);
      m := Finishes(payload, l, m);
    } else {
      forall m | Reaches(payload, l, m) ensures !IsReady(m) {
        var evs :| LawfulEvents(payload, l, evs) && LeftAlone(evs) && Play(payload, l, evs) == m;
        PlaysHopeless(payload, l, declared, evs);
      }
    }
  }

  lemma {:induction false} PlayKeepsSound(payload: Bytes, l: Lane, evs: seq<Event>)
    requires Sound(payload, l) && LawfulEvents(payload, l, evs)
    ensures Sound(payload, Play(payload, l, evs))
    decreases |evs|
  {
    if evs != [] {
      StepKeepsSound(payload, l, evs[0]);
      PlayKeepsSound(payload, Next(l, evs[0]), evs[1..]);
    }
  }

  lemma ReachSound(payload: Bytes, l: Lane, m: Lane)
    requires Sound(payload, l) && Reaches(payload, l, m)
    ensures Sound(payload, m)
  {
    var evs :| LawfulEvents(payload, l, evs) && LeftAlone(evs) && Play(payload, l, evs) == m;
    PlayKeepsSound(payload, l, evs);
  }

  /**
   * The statement that makes a row 'ready' writes the length of the finished file into both
   * size columns, and only when a positive declared size matched it.
   */
  lemma RecordedSizes(payload: Bytes, l: Lane, item: Row, now: int)
    requires Sound(payload, l) && Enabled(l, Record(item, now))
    ensures var m := Next(l, Record(item, now));
      && IsReady(m) && m.final == Some(payload) && m.row.value.localPath == Some(l.home)
      && m.row.value.size == m.row.value.done == |m.final.value|
      && (l.phase.size > 0 ==> l.phase.size == |m.final.value|)
  {
  }

  /**
   * Queue on a finished item keeps the size column true to the file exactly when the caller
   * declares the file's own length: the upsert rewrites size_bytes of a 'ready' row too.
   */
  lemma RequeueKeepsSizeIff(payload: Bytes, l: Lane, item: Row)
    requires Sound(payload, l) && IsReady(l) && l.row.value.size == |payload| && Enabled(l, Enqueue(item))
    ensures var m := Next(l, Enqueue(item));
      && IsReady(m) && m.final == l.final
      && (m.row.value.size == |m.final.value| <==> item.size == |payload|)
  {
  }
}

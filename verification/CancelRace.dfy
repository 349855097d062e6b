/**
 * Cancel unlinks the partial of an item without asking whether a worker is at it: exactly where
 * the worker must stand for that to end in a wrong file recorded as finished.
 */
module CancelRace {
  import opened Basics
  import opened Items
  import opened Remote
  import opened Lane
  import opened Completion

  /** os.Remove of the partial. A worker that has it open goes on writing to the unlinked file. */
  function Unlinked(l: Lane): Lane { l.(partial := None) }

  /** The events that may follow: no further Cancel, and Queue for the item only if `again`. */
  predicate Allowed(evs: seq<Event>, again: bool) {
    forall ev | ev in evs :: Unasked(ev) || (again && ev.Enqueue?)
  }

  ghost predicate Follows(payload: Bytes, l: Lane, m: Lane, again: bool) {
    exists evs :: LawfulEvents(payload, l, evs) && Allowed(evs, again) && Play(payload, l, evs) == m
  }

  /** The row says finished, and the file is not the payload. */
  predicate Wrong(payload: Bytes, m: Lane) { IsReady(m) && m.final != Some(payload) }

  /** Some run after the partial is unlinked records something else than the payload as finished. */
  ghost predicate Corrupts(payload: Bytes, l: Lane, again: bool) {
    exists m :: Follows(payload, Unlinked(l), m, again) && Wrong(payload, m)
  }

  /** The payload repeats itself every a bytes. */
  predicate Repeats(payload: Bytes, a: nat)
    requires a <= |payload|
  {
    payload[a..] == payload[..|payload| - a]
  }

  /**
   * A worker with no partial on disk and the offset `at` of one that is gone, with `tries` requests
   * to come: it writes the tail alone to a new file. The size check passes that if no size is
   * declared or that of the tail; it also passes a tail that a second request fills up to the
   * true size, which is wrong unless the payload repeats at `at`. Queued again, the item is
   * fetched with any declared size and as many requests as it takes.
   */
  predicate Stranded(payload: Bytes, size: int, at: nat, tries: nat, again: bool) {
    && 0 < at < |payload| && tries > 0
    && (size <= 0 || size == |payload| - at
        || (!Repeats(payload, at) && (again || (size == |payload| && tries > 1))))
  }

  /** Where unlinking the partial can corrupt, read off the worker's place alone. */
  predicate Exposed(payload: Bytes, l: Lane, again: bool) {
    match l.phase
    case Located(size, at) => Stranded(payload, size, at, 2, again)
    case Poised(size, at, left) => Stranded(payload, size, at, left, again)
    case Asked(size, at, left) => Stranded(payload, size, at, left + 1, again)
    case Accepted(size, at, left, body, clean) =>
      at > 0
      && (Stranded(payload, size, at, left, again)                // the file does not open: the next request
          || (clean && Stranded(payload, size, at, 1, false))     // this body alone, to its end
          || (!(body <= payload) && (again || (size == |payload| && left > 0))))   // this body, and then the rest
    case Streaming(size, at, left, rest, _) =>
      exists cut | at <= cut <= at + |rest| :: Stranded(payload, size, cut, left, again)
    case Failing(size, at, left) => Stranded(payload, size, at, left, again)
    case _ => false
  }

  // ---- runs put together ----

  lemma {:induction false} PlayJoin(payload: Bytes, l: Lane, evs: seq<Event>, more: seq<Event>)
    requires LawfulEvents(payload, l, evs) && LawfulEvents(payload, Play(payload, l, evs), more)
    ensures LawfulEvents(payload, l, evs + more)
    ensures Play(payload, l, evs + more) == Play(payload, Play(payload, l, evs), more)
    decreases |evs|
  {
    hide Honest, Next, Enabled;
    if evs == [] {
      assert evs + more == more;
    } else {
      assert (evs + more)[1..] == evs[1..] + more;
      PlayJoin(payload, Next(l, evs[0]), evs[1..], more);
    }
  }

  lemma FollowsJoin(payload: Bytes, l: Lane, m: Lane, n: Lane, again: bool)
    requires Follows(payload, l, m, again) && Follows(payload, m, n, again)
    ensures Follows(payload, l, n, again)
  {
    var evs :| LawfulEvents(payload, l, evs) && Allowed(evs, again) && Play(payload, l, evs) == m;
    var more :| LawfulEvents(payload, m, more) && Allowed(more, again) && Play(payload, m, more) == n;
    PlayJoin(payload, l, evs, more);
    assert Allowed(evs + more, again);
  }

  lemma ReachesFollows(payload: Bytes, l: Lane, m: Lane, again: bool)
    requires Reaches(payload, l, m)
    ensures Follows(payload, l, m, again)
  {
    var evs :| LawfulEvents(payload, l, evs) && LeftAlone(evs) && Play(payload, l, evs) == m;
    assert Allowed(evs, again);
  }

  lemma EnqueueFollows(payload: Bytes, l: Lane, item: Row)
    requires Enabled(l, Enqueue(item))
    ensures Follows(payload, l, Next(l, Enqueue(item)), true)
  {
    var evs := [Enqueue(item)];
    var next := Next(l, Enqueue(item));
    hide Next;
    assert evs[1..] == [];
    assert LawfulEvents(payload, next, []) && Play(payload, next, []) == next;
    assert LawfulEvents(payload, l, evs) && Play(payload, l, evs) == next;
  }

  lemma Stays(payload: Bytes, l: Lane)
    ensures Reaches(payload, l, l)
  {
    assert LawfulEvents(payload, l, []) && LeftAlone([]) && Play(payload, l, []) == l;
  }

  // ---- the runs that corrupt ----

  lemma HearsTail(payload: Bytes, l: Lane, asked: Lane) returns (m: Lane)
    requires Reaches(payload, l, asked) && asked.phase.Asked? && 0 < asked.phase.startAt < |payload|
    ensures Reaches(payload, l, m)
    ensures var Asked(size, at, left) := asked.phase;
      m == asked.(phase := Accepted(size, at, left, payload[at..], true))
  {
    var answer := Hear(Reply(206, "", payload[asked.phase.startAt..], true));
    assert ContentRangeTotal("") == None;
    Then(payload, l, asked, answer);
    m := Next(asked, answer);
  }

  /** A body written to a new file up to its last byte, then cut: the next attempt goes on from its length. */
  lemma ReceivesCut(payload: Bytes, l: Lane, accepted: Lane) returns (m: Lane)
    requires Reaches(payload, l, accepted) && accepted.phase.Accepted?
    requires accepted.partial.None? && accepted.phase.body != []
    ensures Reaches(payload, l, m)
    ensures m == accepted.(partial := Some(accepted.phase.body),
                           phase := Poised(accepted.phase.size, |accepted.phase.body|, accepted.phase.left))
  {
    m := accepted;
    var body := m.phase.body;
    Then(payload, l, m, Open(true));
    m := Next(m, Open(true));
    Then(payload, l, m, Chunk(|body|, false));
    m := Next(m, Chunk(|body|, false));
    assert body[..|body|] == body && [] + body == body && body[|body|..] == [];
    Then(payload, l, m, Interrupt(false));
    m := Next(m, Interrupt(false));
    Then(payload, l, m, Retry);
    m := Next(m, Retry);
  }

  /** From a wrong partial of length n, one request fills it up to the full length. */
  lemma FillsUp(payload: Bytes, l: Lane, asked: Lane) returns (m: Lane)
    requires Reaches(payload, l, asked) && asked.phase.Asked? && asked.partial.Some?
    requires !(asked.partial.value <= payload)
    requires 0 < asked.phase.startAt == |asked.partial.value| < |payload|
    requires asked.phase.size <= 0 || asked.phase.size == |payload|
    ensures Reaches(payload, l, m) && Wrong(payload, m)
  {
    var w := asked.partial.value;
    m := HearsTail(payload, l, asked);
    hide Reaches, Next;
    m := Receives(payload, l, m);
    StillNoPrefix(payload, w, payload[|w|..]);
    m := Finishes(payload, l, m);
  }

  lemma StillNoPrefix(payload: Bytes, w: Bytes, more: Bytes)
    requires !(w <= payload)
    ensures w + more != payload
  {
    assert (w + more)[..|w|] == w;
  }

  /** The tail alone, to its end. */
  lemma TailAlone(payload: Bytes, l: Lane, accepted: Lane) returns (m: Lane)
    requires Reaches(payload, l, accepted) && accepted.phase.Accepted? && accepted.phase.clean && accepted.partial.None?
    requires var Accepted(size, at, left, body, clean) := accepted.phase;
      Stranded(payload, size, at, 1, false) && body == payload[at..]
    ensures Reaches(payload, l, m) && Wrong(payload, m)
  {
    hide Reaches, Next;
    m := Receives(payload, l, accepted);
    m := Finishes(payload, l, m);
  }

  /** A body that is no prefix, and then the rest, in the same download. */
  lemma BodyThenRest(payload: Bytes, l: Lane, accepted: Lane) returns (m: Lane)
    requires Reaches(payload, l, accepted) && accepted.phase.Accepted? && accepted.partial.None?
    requires var Accepted(size, at, left, body, clean) := accepted.phase;
      size == |payload| && left > 0 && !(body <= payload) && |body| < |payload|
    ensures Reaches(payload, l, m) && Wrong(payload, m)
  {
    hide Reaches;
    m := ReceivesCut(payload, l, accepted);
    Then(payload, l, m, Ask);
    m := Next(m, Ask);
    m := FillsUp(payload, l, m);
  }

  /** A body that is no prefix; the download is given up, and the item queued again without a size. */
  lemma BodyThenAgain(payload: Bytes, l: Lane, accepted: Lane) returns (m: Lane)
    requires Reaches(payload, l, accepted) && accepted.phase.Accepted? && accepted.partial.None?
    requires !(accepted.phase.body <= payload) && |accepted.phase.body| < |payload|
    requires !IsReady(accepted)
    ensures Follows(payload, l, m, true) && Wrong(payload, m)
  {
    hide Reaches, Follows;
    var q := ReceivesCut(payload, l, accepted);
    Then(payload, l, q, GiveUp);
    q := Next(q, GiveUp);
    var item := NewRow("", "", [], [], 0);
    var again := Next(q, Enqueue(item));
    ReachesFollows(payload, l, q, true);
    EnqueueFollows(payload, q, item);
    FollowsJoin(payload, l, q, again, true);
    m := ReachesRequest(payload, again);
    m := FillsUp(payload, again, m);
    ReachesFollows(payload, again, m, true);
    FollowsJoin(payload, l, again, m, true);
  }

  /** What an accepted body leads to when the partial it should continue is gone. */
  lemma AcceptedCorrupts(payload: Bytes, l: Lane, accepted: Lane, again: bool) returns (m: Lane)
    requires Reaches(payload, l, accepted) && accepted.phase.Accepted? && accepted.partial.None? && !IsReady(accepted)
    requires var Accepted(size, at, left, body, clean) := accepted.phase;
      && 0 < at < |payload| && Continues(payload, at, body, clean)
      && ((clean && Stranded(payload, size, at, 1, false))
          || (!(body <= payload) && (again || (size == |payload| && left > 0))))
    ensures Follows(payload, l, m, again) && Wrong(payload, m)
  {
    hide Reaches, Follows;
    var Accepted(size, at, left, body, clean) := accepted.phase;
    if clean && Stranded(payload, size, at, 1, false) {
      m := TailAlone(payload, l, accepted);
      ReachesFollows(payload, l, m, again);
    } else if again {
      m := BodyThenAgain(payload, l, accepted);
    } else {
      m := BodyThenRest(payload, l, accepted);
      ReachesFollows(payload, l, m, again);
    }
  }

  /** A request with a stale offset is answered with the tail. */
  lemma AskedCorrupts(payload: Bytes, l: Lane, asked: Lane, again: bool) returns (m: Lane)
    requires Reaches(payload, l, asked) && asked.phase.Asked? && asked.partial.None? && !IsReady(asked)
    requires var Asked(size, at, left) := asked.phase; Stranded(payload, size, at, left + 1, again)
    ensures Follows(payload, l, m, again) && Wrong(payload, m)
  {
    m := HearsTail(payload, l, asked);
    hide Reaches, Follows, Wrong;
    m := AcceptedCorrupts(payload, l, m, again);
  }

  lemma PoisedCorrupts(payload: Bytes, l: Lane, poised: Lane, again: bool) returns (m: Lane)
    requires Reaches(payload, l, poised) && poised.phase.Poised? && poised.partial.None? && !IsReady(poised)
    requires var Poised(size, at, left) := poised.phase; Stranded(payload, size, at, left, again)
    ensures Follows(payload, l, m, again) && Wrong(payload, m)
  {
    Then(payload, l, poised, Ask);
    m := Next(poised, Ask);
    hide Reaches, Follows, Wrong, Next, Stranded;
    m := AskedCorrupts(payload, l, m, again);
  }

  lemma FailingCorrupts(payload: Bytes, l: Lane, failing: Lane, again: bool) returns (m: Lane)
    requires Reaches(payload, l, failing) && failing.phase.Failing? && failing.partial.None? && !IsReady(failing)
    requires var Failing(size, at, left) := failing.phase; Stranded(payload, size, at, left, again)
    ensures Follows(payload, l, m, again) && Wrong(payload, m)
  {
    Then(payload, l, failing, Retry);
    m := Next(failing, Retry);
    hide Reaches, Follows, Wrong, Next, Stranded;
    m := PoisedCorrupts(payload, l, m, again);
  }

  /** An unlinked file receives up to `cut` and is lost with the offset that counts it. */
  lemma StreamingCorrupts(payload: Bytes, l: Lane, streaming: Lane, cut: nat, again: bool) returns (m: Lane)
    requires Reaches(payload, l, streaming) && streaming.phase.Streaming? && streaming.partial.None?
    requires !IsReady(streaming)
    requires var Streaming(size, at, left, rest, clean) := streaming.phase;
      at <= cut <= at + |rest| && Stranded(payload, size, cut, left, again)
    ensures Follows(payload, l, m, again) && Wrong(payload, m)
  {
    hide Reaches, Follows, Wrong, Stranded, Honest;
    m := streaming;
    var n := cut - m.phase.startAt;
    if n > 0 {
      Then(payload, l, m, Chunk(n, false));
      m := Next(m, Chunk(n, false));
    }
    Then(payload, l, m, Interrupt(false));
    m := Next(m, Interrupt(false));
    hide Next;
    m := FailingCorrupts(payload, l, m, again);
  }

  lemma {:induction false} ExposedCorrupts(payload: Bytes, l: Lane, again: bool)
    requires Sound(payload, l) && Exposed(payload, l, again)
    ensures Corrupts(payload, l, again)
  {
    var c := Unlinked(l);
    Stays(payload, c);
    var m := c;
    assert !IsReady(c);
    match l.phase
    case Located(size, at) =>
      Then(payload, c, c, StartRow(2, false));
      hide Reaches, Follows, Stranded;
      m := PoisedCorrupts(payload, c, Next(c, StartRow(2, false)), again);
    case Poised(size, at, left) => m := PoisedCorrupts(payload, c, c, again);
    case Asked(size, at, left) => m := AskedCorrupts(payload, c, c, again);
    case Accepted(size, at, left, body, clean) =>
      if Stranded(payload, size, at, left, again) {
        Then(payload, c, c, Open(false));
        hide Reaches, Follows, Stranded;
        m := FailingCorrupts(payload, c, Next(c, Open(false)), again);
      } else {
        m := AcceptedCorrupts(payload, c, c, again);
      }
    case Streaming(size, at, left, rest, clean) =>
      var cut :| at <= cut <= at + |rest| && Stranded(payload, size, cut, left, again);
      m := StreamingCorrupts(payload, c, c, cut, again);
    case Failing(size, at, left) => m := FailingCorrupts(payload, c, c, again);
    assert Follows(payload, c, m, again) && Wrong(payload, m);
  }

  // ---- no run corrupts otherwise ----

  lemma MoreTries(payload: Bytes, size: int, at: nat, tries: nat, more: nat, again: bool)
    requires Stranded(payload, size, at, tries, again) && tries <= more
    ensures Stranded(payload, size, at, more, again)
  {
    hide Repeats;
  }

  /** A declared size that the payload does not have: whatever has the payload's length is turned down. */
  predicate Misfit(payload: Bytes, size: int) { size > 0 && size != |payload| }

  /** Wrong bytes on disk that this download cannot finish with, and no other will find. */
  predicate Barred(payload: Bytes, size: int, left: nat, w: Bytes, again: bool) {
    !again && |w| <= |payload| && (left == 0 || Misfit(payload, size))
  }

  /**
   * After the unlink, a download that has lost its partial and has no way to finish wrongly: with
   * nothing on disk it is not stranded; what it has on disk since is turned down by the size check,
   * or is a prefix of the payload although its offset is ahead, until the next attempt measures it.
   */
  ghost predicate Astray(payload: Bytes, l: Lane, again: bool) {
    && (l.final.Some? ==> l.final.value == payload)
    && (l.row.Some? ==> again && l.row.value.status != Ready && l.row.value.localPath.None?)
    && match l.phase
       case Idle => !again
       case Located(size, at) => l.partial.None? && !Stranded(payload, size, at, 2, again)
       case Poised(size, at, left) =>
         if l.partial.None? then !Stranded(payload, size, at, left, again)
         else at == |l.partial.value| && Barred(payload, size, left, l.partial.value, again)
       case Asked(size, at, left) =>
         if l.partial.None? then !Stranded(payload, size, at, left + 1, again)
         else at == |l.partial.value| && Barred(payload, size, left + 1, l.partial.value, again)
       case Accepted(size, at, left, body, clean) =>
         && Continues(payload, at, body, clean)
         && if l.partial.None? then (at > 0 ==> at < |payload|) && !Exposed(payload, l, again)
            else (at == 0 || at == |l.partial.value|) && Barred(payload, size, left + 1, l.partial.value, again)
       case Streaming(size, at, left, rest, clean) =>
         && Continues(payload, at, rest, clean)
         && if l.partial.None? then !Exposed(payload, l, again)
            else Behind(payload, size, at, left, l.partial.value, rest, clean, again)
       case Drained(size, at, left) =>
         if l.partial.None? then at == |payload|
         else Refused(size, l.partial) && Harmless(payload, size, left, l.partial.value, again)
       case Failing(size, at, left) =>
         if l.partial.None? then !Stranded(payload, size, at, left, again)
         else Barred(payload, size, left, l.partial.value, again)
       case Fetched(size) =>
         Refused(size, l.partial) && (l.partial.Some? ==> Harmless(payload, size, 0, l.partial.value, again))
       case Doomed(_) => !again
       case Measured(_, _) => l.partial.None?
       case _ => false
  }

  /** The size check turns it down. */
  predicate Refused(size: int, partial: Option<Bytes>) { partial.Some? ==> size > 0 && |partial.value| != size }

  predicate Harmless(payload: Bytes, size: int, left: nat, w: Bytes, again: bool) {
    w <= payload || Barred(payload, size, left, w, again)
  }

  /** Streaming wrong bytes in step, or the bytes of an offset that is ahead of the new file. */
  predicate Behind(payload: Bytes, size: int, at: nat, left: nat, w: Bytes, rest: Bytes, clean: bool, again: bool) {
    || (at == |w| && Barred(payload, size, left + 1, w, again))
    || (at > |w|
        && (clean ==> size > 0 && size + at != |payload| + |w|)
        && (w + rest <= payload || Barred(payload, size, left, w + rest, again)))
  }

  ghost predicate Mended(payload: Bytes, l: Lane, again: bool) { Sound(payload, l) || Astray(payload, l, again) }

  /** What an honest answer says about its body and about where the file ends. */
  lemma HonestMeans(payload: Bytes, at: nat, r: Response)
    requires Honest(payload, at, r) && r.Reply?
    ensures r.code == 200 ==> Continues(payload, 0, r.body, r.clean)
    ensures r.code == 206 ==> at < |payload| && Continues(payload, at, r.body, r.clean)
    ensures r.code == 416 ==> |payload| <= at
  {
    hide ContentRangeTotal;
  }

  lemma RestContinues(payload: Bytes, at: nat, rest: Bytes, clean: bool, n: nat)
    requires Continues(payload, at, rest, clean) && n <= |rest|
    ensures Continues(payload, at + n, rest[n..], clean)
  {
    assert payload[at..][n..] == payload[at + n..];
  }

  lemma RestFits(payload: Bytes, at: nat, rest: Bytes, clean: bool)
    requires Continues(payload, at, rest, clean)
    ensures at + |rest| <= |payload| && (clean ==> at + |rest| == |payload|)
  {
  }

  /** Where the payload repeats, what follows the offset is also how it begins. */
  lemma TailIsHead(payload: Bytes, at: nat, body: Bytes)
    requires at <= |payload| && Repeats(payload, at) && body <= payload[at..]
    ensures body <= payload
  {
    assert body == payload[at..][..|body|] == payload[..|payload| - at][..|body|] == payload[..|body|];
  }

  /** An answer to a stale request. */
  lemma AnswerIsKept(payload: Bytes, size: int, at: nat, left: nat, body: Bytes, clean: bool, l: Lane, again: bool)
    requires !Stranded(payload, size, at, left + 1, again) && 0 < at < |payload| && Continues(payload, at, body, clean)
    requires l.phase == Accepted(size, at, left, body, clean)
    ensures !Exposed(payload, l, again)
  {
    if Repeats(payload, at) {
      TailIsHead(payload, at, body);
    }
    hide Repeats, Continues;
  }

  lemma AstrayHeard(payload: Bytes, l: Lane, r: Response, again: bool)
    requires l.phase.Asked? && Astray(payload, l, again)
    requires r.Reply? && r.code == 200 ==> l.phase.startAt == 0 && Continues(payload, 0, r.body, r.clean)
    requires r.Reply? && r.code == 206 ==>
      l.phase.startAt < |payload| && Continues(payload, l.phase.startAt, r.body, r.clean)
    requires r.Reply? && r.code == 416 ==> |payload| <= l.phase.startAt
    ensures Mended(payload, Heard(l, r), again)
  {
    hide ContentRangeTotal, Continues, Repeats;
    var Asked(size, at, left) := l.phase;
    if r.Reply? && r.code == 206 && at > 0 && l.partial.None? && Heard(l, r).phase.Accepted? {
      AnswerIsKept(payload, size, at, left, r.body, r.clean, Heard(l, r), again);
      hide Exposed;
    }
  }

  lemma AstrayHears(payload: Bytes, l: Lane, ev: Event, again: bool)
    requires Astray(payload, l, again) && Lawful(payload, l, ev) && ev.Hear?
    ensures Mended(payload, Next(l, ev), again)
  {
    hide Astray, Mended, Heard, Honest, Continues;
    if ev.r.Reply? {
      HonestMeans(payload, l.phase.startAt, ev.r);
    }
    AstrayHeard(payload, l, ev.r, again);
  }

  lemma AstraySweeps(payload: Bytes, l: Lane, ev: Event, again: bool)
    requires Astray(payload, l, again) && Lawful(payload, l, ev) && ev.Sweep?
    ensures Mended(payload, Next(l, ev), again)
  {
    HonestMeans(payload, l.phase.startAt, ev.r);
    hide Honest, Continues, Repeats, Heard;
  }

  lemma AstrayOpens(payload: Bytes, l: Lane, ev: Event, again: bool)
    requires Astray(payload, l, again) && Lawful(payload, l, ev) && ev.Open?
    ensures Mended(payload, Next(l, ev), again)
  {
    var body := l.phase.body;
    RestFits(payload, l.phase.startAt, body, l.phase.clean);
    assert [] + body == body;
    hide Honest, Continues, Repeats, Heard;
  }

  /** More of the body written, whole or in part, to a file that is behind or wrong. */
  lemma BehindMore(payload: Bytes, size: int, at: nat, left: nat, w: Bytes, rest: Bytes, clean: bool, n: nat,
                   again: bool)
    requires Behind(payload, size, at, left, w, rest, clean, again) && n <= |rest|
    requires at + |rest| <= |payload|
    ensures Behind(payload, size, at + n, left, w + rest[..n], rest[n..], clean, again)
    ensures Harmless(payload, size, left, w + rest[..n], again)
  {
    assert (w + rest[..n]) + rest[n..] == w + rest;
    assert w + rest[..n] <= w + rest;
    hide Misfit;
  }

  /** With the partial unlinked, writing moves the offset alone, and fewer offsets are still to come. */
  lemma OrphanReceives(payload: Bytes, l: Lane, ev: Event, again: bool)
    requires Astray(payload, l, again) && Lawful(payload, l, ev) && (ev.Chunk? || ev.ShortWrite?) && l.partial.None?
    ensures Mended(payload, Next(l, ev), again)
  {
    var Streaming(size, at, left, rest, clean) := l.phase;
    RestContinues(payload, at, rest, clean, if ev.Chunk? then ev.n else ev.kept);
    hide Honest, Continues, Heard, Stranded, Sound, Behind;
  }

  lemma AstrayReceives(payload: Bytes, l: Lane, ev: Event, again: bool)
    requires Astray(payload, l, again) && Lawful(payload, l, ev) && (ev.Chunk? || ev.ShortWrite?) && l.partial.Some?
    ensures Mended(payload, Next(l, ev), again)
  {
    var Streaming(size, at, left, rest, clean) := l.phase;
    var n := if ev.Chunk? then ev.n else ev.kept;
    RestFits(payload, at, rest, clean);
    RestContinues(payload, at, rest, clean, n);
    BehindMore(payload, size, at, left, l.partial.value, rest, clean, n, again);
    hide Honest, Continues, Heard, Stranded, Behind;
  }

  lemma AstrayEnds(payload: Bytes, l: Lane, ev: Event, again: bool)
    requires Astray(payload, l, again) && Lawful(payload, l, ev) && (ev.Interrupt? || ev.BodyEnds? || ev.Sync?)
    ensures Mended(payload, Next(l, ev), again)
  {
    if l.phase.Streaming? {
      RestFits(payload, l.phase.startAt, l.phase.rest, l.phase.clean);
      if l.partial.Some? {
        assert l.partial.value <= l.partial.value + l.phase.rest;
      }
    }
    hide Honest, Continues, Repeats, Heard;
  }

  lemma AstrayRest(payload: Bytes, l: Lane, ev: Event, again: bool)
    requires Astray(payload, l, again) && Lawful(payload, l, ev) && (Unasked(ev) || (again && ev.Enqueue?))
    requires !ev.Hear? && !ev.Sweep? && !ev.Open? && !ev.Chunk? && !ev.ShortWrite?
    requires !ev.Interrupt? && !ev.BodyEnds? && !ev.Sync?
    ensures Mended(payload, Next(l, ev), again)
  {
    hide Honest, Continues, Repeats, Heard;
  }

  lemma {:induction false} MendedStep(payload: Bytes, l: Lane, ev: Event, again: bool)
    requires Mended(payload, l, again) && Lawful(payload, l, ev) && (Unasked(ev) || (again && ev.Enqueue?))
    ensures Mended(payload, Next(l, ev), again)
  {
    hide Honest, Next, Enabled, Sound, Astray;
    if Sound(payload, l) {
      StepKeepsSound(payload, l, ev);
    } else if ev.Hear? {
      AstrayHears(payload, l, ev, again);
    } else if ev.Sweep? {
      AstraySweeps(payload, l, ev, again);
    } else if ev.Open? {
      AstrayOpens(payload, l, ev, again);
    } else if (ev.Chunk? || ev.ShortWrite?) && l.partial.None? {
      OrphanReceives(payload, l, ev, again);
    } else if ev.Chunk? || ev.ShortWrite? {
      AstrayReceives(payload, l, ev, again);
    } else if ev.Interrupt? || ev.BodyEnds? || ev.Sync? {
      AstrayEnds(payload, l, ev, again);
    } else {
      AstrayRest(payload, l, ev, again);
    }
  }

  lemma AllowedTail(evs: seq<Event>, again: bool)
    requires Allowed(evs, again) && evs != []
    ensures Allowed(evs[1..], again) && (Unasked(evs[0]) || (again && evs[0].Enqueue?))
  {
    assert forall ev | ev in evs[1..] :: ev in evs;
    assert evs[0] in evs;
  }

  lemma {:induction false} PlaysMended(payload: Bytes, l: Lane, evs: seq<Event>, again: bool)
    requires Mended(payload, l, again) && LawfulEvents(payload, l, evs) && Allowed(evs, again)
    ensures Mended(payload, Play(payload, l, evs), again)
    decreases |evs|
  {
    hide Mended, Enabled, Honest, Next, Allowed, Unasked;
    if evs != [] {
      AllowedTail(evs, again);
      MendedStep(payload, l, evs[0], again);
      PlaysMended(payload, Next(l, evs[0]), evs[1..], again);
    }
  }

  lemma MendedIsWhole(payload: Bytes, m: Lane, again: bool)
    requires Mended(payload, m, again)
    ensures !Wrong(payload, m)
  {
  }

  lemma UnexposedIsMended(payload: Bytes, l: Lane, again: bool)
    requires Sound(payload, l) && (again || l.row.None?) && !Exposed(payload, l, again)
    ensures Mended(payload, Unlinked(l), again)
  {
    hide Repeats;
  }

  lemma {:induction false} UnexposedIsSafe(payload: Bytes, l: Lane, again: bool)
    requires Sound(payload, l) && (again || l.row.None?) && !Exposed(payload, l, again)
    ensures !Corrupts(payload, l, again)
  {
    var c := Unlinked(l);
    UnexposedIsMended(payload, l, again);
    hide Mended, Wrong, Play, LawfulEvents, Allowed, Unlinked, Sound, Exposed;
    forall m | Follows(payload, c, m, again) ensures !Wrong(payload, m) {
      var evs :| LawfulEvents(payload, c, evs) && Allowed(evs, again) && Play(payload, c, evs) == m;
      PlaysMended(payload, c, evs, again);
      MendedIsWhole(payload, m, again);
    }
  }

  /**
   * Wherever a worker stands when Cancel unlinks the partial of an item whose row it has just
   * deleted, some run from there records a wrong file as finished exactly when the worker is exposed.
   */
  lemma {:induction false} UnlinkCorruptsIff(payload: Bytes, l: Lane)
    requires Sound(payload, l) && l.row.None?
    ensures Corrupts(payload, l, false) <==> Exposed(payload, l, false)
  {
    hide Sound, Exposed, Corrupts;
    if Exposed(payload, l, false) {
      ExposedCorrupts(payload, l, false);
    } else {
      UnexposedIsSafe(payload, l, false);
    }
  }

  /** The same when the item may have been, and may be, queued again: whatever its row says. */
  lemma {:induction false} UnlinkCorruptsRequeuedIff(payload: Bytes, l: Lane)
    requires Sound(payload, l)
    ensures Corrupts(payload, l, true) <==> Exposed(payload, l, true)
  {
    hide Sound, Exposed, Corrupts;
    if Exposed(payload, l, true) {
      ExposedCorrupts(payload, l, true);
    } else {
      UnexposedIsSafe(payload, l, true);
    }
  }
}

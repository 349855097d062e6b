/**
 * The resumable download of one item, as a step machine over everything that can happen to
 * it: each read, write, statement and answer of Engine.Download and fetchOnce, and the things
 * that come from outside (a crash, the stale reset, Queue, Cancel's two effects, eviction).
 */
module Lane {
  import opened Basics
  import opened Runes
  import opened Items
  import opened Remote

  /**
   * Where a worker inside Download stands. `size` is the row's size_bytes as first loaded,
   * `startAt` the offset variable, `left` the attempts not yet begun.
   */
  datatype Phase =
    | Idle                                                                 // no worker
    | Loaded(size: int)
    | Located(size: int, startAt: nat)                                     // partial stat'ed
    | Poised(size: int, startAt: nat, left: nat)                           // head of the retry loop
    | Asked(size: int, startAt: nat, left: nat)                            // request sent
    | Accepted(size: int, startAt: nat, left: nat, body: Bytes, clean: bool)
    | Streaming(size: int, startAt: nat, left: nat, rest: Bytes, clean: bool)
    | Drained(size: int, startAt: nat, left: nat)                          // io.EOF seen, not synced
    | Failing(size: int, startAt: nat, left: nat)                          // retryable error
    | Doomed(size: int)                                                    // permanent error
    | Fetched(size: int)                                                   // fetchOnce returned nil
    | Measured(size: int, finalSize: nat)
    | Moved(size: int, finalSize: nat)                                     // renamed, not recorded

  /**
   * One item: its row, its two files by content, and the worker. `home` is its final path, as
   * last computed. A worker streaming with no partial on disk writes to an unlinked file.
   */
  datatype Lane = Lane(home: Str, row: Option<Row>, partial: Option<Bytes>, final: Option<Bytes>, phase: Phase)

  datatype Event =
    // a worker's own steps
    | Begin
    | Refuse(dbOk: bool)          // resolve, layout or the server said no: markError, if it lands
    | GiveUp                      // return without touching the row: cancelled, mkdir or statement failed
    | Locate(home: Str, there: Option<Bytes>)  // the final path, from fresh metadata, and what lies there
    | StartRow(attempts: nat, hit: bool)       // markDownloading, which hits no row once it is deleted
    | Ask
    | Hear(r: Response)
    | Sweep(r: Response, removed: bool)  // a 200 to a ranged request: remove the partial
    | Open(ok: bool)
    | Chunk(n: nat, flushed: bool)
    | ShortWrite(n: nat, kept: nat)
    | Interrupt(flushed: bool)
    | BodyEnds(flushed: bool)
    | Sync(ok: bool)
    | Retry
    | Exhaust(dbOk: bool)
    | Measure(dbOk: bool)
    | Move(ok: bool, dbOk: bool)
    | Record(item: Row, now: int)
    | RecordFails
    // the world around it
    | Crash
    | Reset
    | Enqueue(item: Row)
    | Delete                      // Cancel's DELETE, which does not look at the status again
    | Unlink                      // Cancel's os.Remove of the partial
    | Evict

  function Offset(partial: Option<Bytes>): nat {
    if partial.Some? then |partial.value| else 0
  }

  function OnRow(row: Option<Row>, f: Row -> Row): Option<Row> {
    if row.Some? then Some(f(row.value)) else None
  }

  function Rejected(l: Lane, dbOk: bool): Lane {
    l.(row := if dbOk then OnRow(l.row, r => MarkError(r)) else l.row, phase := Idle)
  }

  function Flushed(l: Lane, flushed: bool, at: nat): Option<Row> {
    if flushed then OnRow(l.row, r => FlushProgress(r, at)) else l.row
  }

  /** Whether an event can occur where the item stands, leaving aside what servers may answer. */
  predicate Enabled(l: Lane, ev: Event) {
    var p := l.phase;
    match ev
    case Begin => p.Idle? && l.row.Some? && l.row.value.status != Ready
    case Refuse(_) => p.Loaded? || p.Doomed?
    case GiveUp => p.Loaded? || p.Located? || p.Poised? || p.Failing?
    case Locate(_, _) => p.Loaded?
    case StartRow(_, _) => p.Located?
    case Ask => p.Poised? && p.left > 0
    case Hear(r) => p.Asked? && !(r.Reply? && r.code == 200 && p.startAt > 0)
    case Sweep(r, _) => p.Asked? && r.Reply? && r.code == 200 && p.startAt > 0
    case Open(_) => p.Accepted?
    case Chunk(n, _) => p.Streaming? && 0 < n <= |p.rest|
    case ShortWrite(n, kept) => p.Streaming? && kept <= n <= |p.rest|
    case Interrupt(_) => p.Streaming?
    case BodyEnds(_) => p.Streaming? && p.rest == []
    case Sync(_) => p.Drained?
    case Retry => p.Failing?
    case Exhaust(_) => p.Poised? && p.left == 0
    case Measure(_) => p.Fetched?
    case Move(ok, _) => p.Measured? && (ok ==> l.partial.Some?)
    case Record(item, _) => p.Moved? && item == NewRow(item.source, item.key, item.title, item.container, item.size)
    case RecordFails => p.Moved?
    case Crash => true
    case Reset => p.Idle?
    case Enqueue(item) => item == NewRow(item.source, item.key, item.title, item.container, item.size)
    case Delete => l.row.Some?
    case Unlink => NothingToLose(p)   // the code asks for nothing; CancelRace has the other phases
    case Evict => l.row.Some?
  }

  /** No worker stands by what the partial on disk holds. */
  predicate NothingToLose(p: Phase) {
    match p
    case Idle => true
    case Loaded(_) => true
    case Located(_, startAt) => startAt == 0
    case Poised(_, startAt, _) => startAt == 0
    case Asked(_, startAt, _) => startAt == 0
    case Accepted(_, startAt, _, _, _) => startAt == 0
    case Failing(_, startAt, _) => startAt == 0
    case Doomed(_) => true
    case Moved(_, _) => true
    case _ => false
  }

  /** What fetchOnce does with an answer, up to the point where it would open the file. */
  function Heard(l: Lane, r: Response): Lane
    requires l.phase.Asked?
  {
    var Asked(size, startAt, left) := l.phase;
    match r
    case Unreachable => l.(phase := Failing(size, startAt, left))
    case Reply(code, contentRange, body, clean) =>
      if code == 200 then
        l.(phase := Accepted(size, startAt, left, body, clean))
      else if code == 206 then
        var total := ContentRangeTotal(contentRange);
        if total.Some? && size > 0 && total.value != size then l.(phase := Doomed(size))
        else l.(phase := Accepted(size, startAt, left, body, clean))
      else if code == 416 then
        if l.partial.None? then l.(phase := Doomed(size))
        else if size > 0 && |l.partial.value| != size then l.(phase := Doomed(size))
        else l.(phase := Fetched(size))
      else if 400 <= code < 500 then
        l.(phase := Doomed(size))
      else
        l.(phase := Failing(size, startAt, left))
  }

  function Next(l: Lane, ev: Event): Lane
    requires Enabled(l, ev)
  {
    var p := l.phase;
    match ev
    case Begin => l.(phase := Loaded(l.row.value.size))
    case Refuse(dbOk) => Rejected(l, dbOk)
    case GiveUp => l.(phase := Idle)
    case Locate(home, there) => l.(home := home, final := there, phase := Located(p.size, Offset(l.partial)))
    case StartRow(attempts, hit) =>
      l.(row := if hit then OnRow(l.row, r => MarkDownloading(r, p.startAt)) else l.row,
         phase := Poised(p.size, p.startAt, attempts))
    case Ask => l.(phase := Asked(p.size, p.startAt, p.left - 1))
    case Hear(r) => Heard(l, r)
    case Sweep(r, removed) =>
      if removed then l.(partial := None, phase := Accepted(p.size, 0, p.left, r.body, r.clean))
      else l.(phase := Failing(p.size, p.startAt, p.left))
    case Open(ok) =>
      if !ok then l.(phase := Failing(p.size, p.startAt, p.left))
      else
        // O_TRUNC or O_APPEND, O_CREATE
        var kept := if p.startAt == 0 || l.partial.None? then [] else l.partial.value;
        l.(partial := Some(kept), phase := Streaming(p.size, p.startAt, p.left, p.body, p.clean))
    case Chunk(n, flushed) =>
      l.(partial := Written(l.partial, p.rest[..n]), row := Flushed(l, flushed, p.startAt + n),
         phase := p.(startAt := p.startAt + n, rest := p.rest[n..]))
    case ShortWrite(n, kept) =>
      l.(partial := Written(l.partial, p.rest[..kept]), phase := Failing(p.size, p.startAt, p.left))
    case Interrupt(flushed) =>
      l.(row := Flushed(l, flushed, p.startAt), phase := Failing(p.size, p.startAt, p.left))
    case BodyEnds(flushed) =>
      l.(row := Flushed(l, flushed, p.startAt),
         phase := if p.clean then Drained(p.size, p.startAt, p.left) else Failing(p.size, p.startAt, p.left))
    case Sync(ok) =>
      l.(phase := if ok then Fetched(p.size) else Failing(p.size, p.startAt, p.left))
    case Retry =>
      l.(phase := Poised(p.size, if l.partial.Some? then |l.partial.value| else p.startAt, p.left))
    case Exhaust(dbOk) => Rejected(l, dbOk)
    case Measure(dbOk) =>
      if l.partial.None? || (p.size > 0 && |l.partial.value| != p.size) then Rejected(l, dbOk)
      else l.(phase := Measured(p.size, |l.partial.value|))
    case Move(ok, dbOk) =>
      if ok then l.(partial := None, final := l.partial, phase := Moved(p.size, p.finalSize)) else Rejected(l, dbOk)
    case Record(item, now) =>
      var r := if l.row.Some? then l.row.value else item;
      l.(row := Some(RecordReady(r, item.title, item.container, l.home, p.finalSize, now)), phase := Idle)
    case RecordFails => l.(phase := Idle)
    case Crash => l.(phase := Idle)
    case Reset => l.(row := OnRow(l.row, r => ResetStale(r)))
    case Enqueue(item) => l.(row := Some(if l.row.Some? then Requeue(l.row.value, item) else item))
    case Delete => l.(row := None)
    case Unlink => l.(partial := None)
    case Evict =>
      l.(row := OnRow(l.row, r => MarkEvicted(r)),
         final := if l.row.value.localPath == Some(l.home) then None else l.final)
  }

  // ---- single steps, spelled out ----

  lemma Locates(l: Lane, home: Str, there: Option<Bytes>)
    requires l.phase.Loaded?
    ensures Enabled(l, Locate(home, there))
    ensures Next(l, Locate(home, there)) ==
      l.(home := home, final := there, phase := Located(l.phase.size, Offset(l.partial)))
  {
  }

  lemma Chunks(l: Lane, n: nat, flushed: bool)
    requires l.phase.Streaming? && 0 < n <= |l.phase.rest|
    ensures Enabled(l, Chunk(n, flushed))
    ensures Next(l, Chunk(n, flushed)) ==
      l.(partial := Written(l.partial, l.phase.rest[..n]), row := Flushed(l, flushed, l.phase.startAt + n),
         phase := l.phase.(startAt := l.phase.startAt + n, rest := l.phase.rest[n..]))
  {
  }

  lemma WritesShort(l: Lane, n: nat, kept: nat)
    requires l.phase.Streaming? && kept <= n <= |l.phase.rest|
    ensures Enabled(l, ShortWrite(n, kept))
    ensures Next(l, ShortWrite(n, kept)) ==
      l.(partial := Written(l.partial, l.phase.rest[..kept]),
         phase := Failing(l.phase.size, l.phase.startAt, l.phase.left))
  {
  }

  lemma Records(l: Lane, item: Row, now: int)
    requires l.phase.Moved? && item == NewRow(item.source, item.key, item.title, item.container, item.size)
    ensures Enabled(l, Record(item, now))
    ensures Next(l, Record(item, now)) ==
      l.(row := Some(RecordReady(if l.row.Some? then l.row.value else item, item.title, item.container, l.home,
                                 l.phase.finalSize, now)),
         phase := Idle)
  {
  }

  /** A write through the open descriptor; an unlinked file shows nothing of it. */
  function Written(partial: Option<Bytes>, more: Bytes): Option<Bytes> {
    if partial.Some? then Some(partial.value + more) else None
  }

  /** An event that can occur when the server honours RFC 7233 for this payload. */
  ghost predicate Possible(payload: Bytes, l: Lane, ev: Event) {
    && Enabled(l, ev)
    && (ev.Hear? ==> Honest(payload, l.phase.startAt, ev.r))
    && (ev.Sweep? ==> Honest(payload, l.phase.startAt, ev.r))
  }

  /** A new final path holds nothing, or an earlier download of the item. */
  ghost predicate Lawful(payload: Bytes, l: Lane, ev: Event) {
    Possible(payload, l, ev) && (ev.Locate? && ev.there.Some? ==> ev.there.value == payload)
  }

  /** What must hold for a download to be resumed from here, worker or no worker. */
  ghost predicate Recoverable(payload: Bytes, l: Lane) {
    && (l.partial.Some? ==> l.partial.value <= payload)
    && (l.final.Some? ==> l.final.value == payload)
    && (l.row.Some? ==>
      && (l.row.value.localPath.Some? <==> l.row.value.status == Ready)
      && (l.row.value.status == Ready ==>
        && l.row.value.localPath == Some(l.home)
        && l.final == Some(payload)
        && l.row.value.done == |payload|))
  }

  /** `startAt` tells the truth about the partial on disk. */
  ghost predicate InStep(l: Lane, startAt: nat) {
    startAt == Offset(l.partial)
  }

  /** A body accepted at `startAt` continues the payload from there. */
  ghost predicate Continues(payload: Bytes, startAt: nat, rest: Bytes, clean: bool) {
    && startAt <= |payload|
    && rest <= payload[startAt..]
    && (clean ==> rest == payload[startAt..])
  }

  ghost predicate PhaseOk(payload: Bytes, l: Lane) {
    match l.phase
    case Idle => true
    case Loaded(_) => true
    case Located(_, startAt) => InStep(l, startAt)
    case Poised(_, startAt, _) => InStep(l, startAt)
    case Asked(_, startAt, _) => InStep(l, startAt)
    case Accepted(_, startAt, _, body, clean) =>
      && (startAt > 0 ==> InStep(l, startAt) && startAt < |payload|)
      && Continues(payload, startAt, body, clean)
    case Streaming(_, startAt, _, rest, clean) =>
      l.partial.Some? && InStep(l, startAt) && Continues(payload, startAt, rest, clean)
    case Drained(_, startAt, _) => l.partial == Some(payload) && startAt == |payload|
    case Failing(_, startAt, _) => l.partial.None? ==> startAt == 0
    case Doomed(_) => true
    case Fetched(_) => l.partial == Some(payload)
    case Measured(size, finalSize) =>
      l.partial == Some(payload) && finalSize == |payload| && (size > 0 ==> size == finalSize)
    case Moved(size, finalSize) =>
      l.final == Some(payload) && finalSize == |payload| && (size > 0 ==> size == finalSize)
  }

  /** While a worker holds the item its row is not 'ready'. */
  ghost predicate Sound(payload: Bytes, l: Lane) {
    && Recoverable(payload, l)
    && PhaseOk(payload, l)
    && (!l.phase.Idle? && l.row.Some? ==> l.row.value.status != Ready)
  }

  lemma WholePrefix(payload: Bytes, b: Bytes)
    requires b <= payload && |b| == |payload|
    ensures b == payload
  {
    assert b == payload[..|b|] == payload;
  }

  lemma ReceivingKeepsSound(payload: Bytes, l: Lane, ev: Event)
    requires Sound(payload, l) && Lawful(payload, l, ev) && (ev.Chunk? || ev.ShortWrite?)
    ensures Sound(payload, Next(l, ev))
  {
    ChunkContinues(payload, l.partial.value, l.phase.rest, if ev.Chunk? then ev.n else ev.kept);
  }

  lemma HearingKeepsSound(payload: Bytes, l: Lane, ev: Event)
    requires Sound(payload, l) && Lawful(payload, l, ev) && ev.Hear?
    ensures Sound(payload, Next(l, ev))
  {
    if ev.r.Reply? && ev.r.code == 416 && l.partial.Some? {
      WholePrefix(payload, l.partial.value);
    }
  }

  lemma EndingKeepsSound(payload: Bytes, l: Lane, ev: Event)
    requires Sound(payload, l) && Lawful(payload, l, ev) && ev.BodyEnds?
    ensures Sound(payload, Next(l, ev))
  {
    if |payload| <= |l.partial.value| {
      WholePrefix(payload, l.partial.value);
    } else {
      assert |payload[l.phase.startAt..]| > 0;
    }
  }

  /** The events that come from outside the worker. */
  predicate Outside(ev: Event) {
    ev.Crash? || ev.Reset? || ev.Enqueue? || ev.Delete? || ev.Unlink? || ev.Evict?
  }

  lemma OutsideKeepsSound(payload: Bytes, l: Lane, ev: Event)
    requires Sound(payload, l) && Lawful(payload, l, ev) && Outside(ev)
    ensures Sound(payload, Next(l, ev))
  {
    hide Honest, ContentRangeTotal, Continues;
  }

  /** A worker's steps up to the request, and the opening of the file. */
  predicate Preparing(ev: Event) {
    ev.Begin? || ev.Refuse? || ev.GiveUp? || ev.Locate? || ev.StartRow? || ev.Ask? || ev.Sweep? || ev.Open?
  }

  lemma PreparingKeepsSound(payload: Bytes, l: Lane, ev: Event)
    requires Sound(payload, l) && Lawful(payload, l, ev) && Preparing(ev)
    ensures Sound(payload, Next(l, ev))
  {
    hide ContentRangeTotal;
  }

  lemma ClosingKeepsSound(payload: Bytes, l: Lane, ev: Event)
    requires Sound(payload, l) && Lawful(payload, l, ev) && !Outside(ev) && !Preparing(ev)
    requires !ev.BodyEnds? && !ev.Hear? && !ev.Chunk? && !ev.ShortWrite?
    ensures Sound(payload, Next(l, ev))
  {
    hide Honest, ContentRangeTotal;
  }

  /** Every step of every process keeps an item sound. */
  lemma StepKeepsSound(payload: Bytes, l: Lane, ev: Event)
    requires Sound(payload, l) && Lawful(payload, l, ev)
    ensures Sound(payload, Next(l, ev))
  {
    hide Next, Honest, ContentRangeTotal, Sound, Enabled;
    if Outside(ev) {
      OutsideKeepsSound(payload, l, ev);
    } else if Preparing(ev) {
      PreparingKeepsSound(payload, l, ev);
    } else if ev.BodyEnds? {
      EndingKeepsSound(payload, l, ev);
    } else if ev.Hear? {
      HearingKeepsSound(payload, l, ev);
    } else if ev.Chunk? || ev.ShortWrite? {
      ReceivingKeepsSound(payload, l, ev);
    } else {
      ClosingKeepsSound(payload, l, ev);
    }
  }

  /** A progress flush writes what is on disk: bytes_done is then the length of the partial. */
  lemma FlushTellsTruth(payload: Bytes, l: Lane, ev: Event)
    requires Sound(payload, l) && Lawful(payload, l, ev) && l.row.Some?
    requires (ev.Chunk? || ev.Interrupt? || ev.BodyEnds?) && ev.flushed
    ensures var m := Next(l, ev);
      && m.partial.Some? && m.row.Some? && m.row.value.done == |m.partial.value|
      && m.row == Some(l.row.value.(done := |m.partial.value|))
  {
    hide Honest, ContentRangeTotal;
  }

  lemma ChunkContinues(payload: Bytes, got: Bytes, rest: Bytes, n: nat)
    requires got <= payload && rest <= payload[|got|..] && n <= |rest|
    ensures got + rest[..n] <= payload
    ensures rest[n..] <= payload[|got| + n..]
    ensures rest == payload[|got|..] ==> rest[n..] == payload[|got| + n..]
  {
    assert payload == got + payload[|got|..];
    assert payload[|got|..][n..] == payload[|got| + n..];
  }
}

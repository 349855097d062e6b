/**
 * The download engine as the program runs it, on what one call of Download can reach: the
 * item's row, its partial and its finished file. Every effect is also a step of the machine in
 * Lane, so what is proved there about all runs holds between any two statements here.
 */
module Engine {
  import opened Basics
  import opened Runes
  import opened Items
  import opened Remote
  import opened Lane
  import opened Completion

  /** How one attempt ends. */
  datatype Fetch = Complete | Permanent | Transient

  /** How Download returns. */
  datatype Outcome =
    | NotFound
    | WrongSource
    | AlreadyReady
    | Completed
    | Refused(marked: bool)    // an error Download reports through markError, and whether that landed
    | Abandoned                // returned without touching the row: cancelled, mkdir or a statement failed

  /** Every answer this server gives is one RFC 7233 allows for the file it serves. */
  ghost predicate Faithful(payload: Bytes, server: (nat, nat) -> Response) {
    forall n, offset :: Honest(payload, offset, server(n, offset))
  }

  /** The stated total of a 206 contradicts the declared size. */
  predicate WrongTotal(r: Response, size: int)
    requires r.Reply?
  {
    var total := ContentRangeTotal(r.contentRange);
    r.code == 206 && size > 0 && total.Some? && total.value != size
  }

  /** An answer after which no retry is made, whatever is on disk: auth lost, item gone, another file. */
  predicate Fatal(r: Response, size: int) {
    r.Reply? && ((400 <= r.code <= 499 && r.code != 416) || WrongTotal(r, size))
  }

  /** An answer after which Download may give up at once: one of those, or a 416 that does not fit the partial. */
  predicate GivesUp(r: Response, size: int) { Fatal(r, size) || (r.Reply? && r.code == 416) }

  /** An answer that leaves nothing to ask for: the file to its end, or that it ends where the partial does. */
  predicate Helpful(r: Response, at: nat) {
    r.Reply? && (((r.code == 200 || r.code == 206) && r.clean) || (r.code == 416 && at > 0))
  }

  /** An answer worth a retry: nothing came back, or the server is in trouble. */
  predicate Hiccup(r: Response) { r.Unreachable? || r.code >= 500 }

  /** History h' continues h with steps of a worker alone. */
  predicate WorkedOn(h: seq<Event>, h': seq<Event>) {
    h <= h' && forall i | |h| <= i < |h'| :: !Outside(h'[i])
  }

  class OneItem {
    const sourceName: string
    const home: Str                          // the path Final chose
    const retryAttempts: nat
    const server: (nat, nat) -> Response     // serial number of the request, offset asked for
    const fate: nat -> bool                  // whether the n-th local operation succeeds, or is not cancelled
    ghost const payload: Bytes
    ghost const origin: Lane

    var row: Option<Row>
    var partial: Option<Bytes>
    var final: Option<Bytes>
    var requests: nat
    var tries: nat
    ghost var phase: Phase
    ghost var history: seq<Event>

    ghost function Now(): Lane
      reads this
    {
      Lane(home, row, partial, final, phase)
    }

    /** The recorded events are a run of the machine from the origin to lane l. */
    ghost predicate Reached(l: Lane)
      reads `history
    {
      && Faithful(payload, server) && retryAttempts > 0 && Sound(payload, origin)
      && LawfulEvents(payload, origin, history)
      && Play(payload, origin, history) == l
    }

    ghost predicate Valid()
      reads this
    {
      Reached(Now())
    }

    /** An item nobody has queued yet, in an engine built with these options; New's default is five attempts. */
    constructor (sourceName: string, home: Str, attempts: int, server: (nat, nat) -> Response, fate: nat -> bool,
                 ghost payload: Bytes)
      requires Faithful(payload, server)
      ensures Valid() && Now() == Lane(home, None, None, None, Idle) && history == []
      ensures this.sourceName == sourceName && this.payload == payload
      ensures this.server == server && this.fate == fate && retryAttempts == if attempts > 0 then attempts else 5
    {
      this.sourceName, this.home := sourceName, home;
      retryAttempts := if attempts <= 0 then 5 else attempts;
      this.server, this.fate, this.payload := server, fate, payload;
      origin := Lane(home, None, None, None, Idle);
      row, partial, final, requests, tries, phase, history := None, None, None, 0, 0, Idle, [];
    }

    /** Records that the effects since `before` are one step of the machine. */
    ghost method Step(before: Lane, ev: Event)
      requires Reached(before) && Lawful(payload, before, ev)
      requires Next(before, ev) == Lane(home, row, partial, final, Next(before, ev).phase)
      modifies `phase, `history
      ensures Valid() && history == old(history) + [ev] && phase == Next(before, ev).phase
    {
      PlayMore(payload, origin, history, ev);
      phase := Next(before, ev).phase;
      history := history + [ev];
    }

    /**
     * Queue: insert the row, or refresh the one that is there; an item without id or place is refused,
     * a statement may fail.
     */
    method Queue(key: string, title: Str, container: Str, size: int, placed: bool) returns (ok: bool)
      requires Valid()
      modifies `row, `tries, `phase, `history
      ensures Valid() && phase == old(phase)
      ensures key == "" || !placed ==> !ok
      ensures Calm() && key != "" && placed ==> ok
      ensures !ok ==> row == old(row) && history == old(history)
      ensures ok && old(row).None? ==> row == Some(Row(sourceName, key, title, container, size, 0, Queued, None, 0))
      ensures ok && old(row).Some? ==>
        var status := if old(row).value.status == Errored then Queued else old(row).value.status;
        row == Some(old(row).value.(title := title, container := container, size := size, status := status))
    {
      if key == "" || !placed {
        return false;
      }
      var commits := Try();
      if !commits {
        return false;
      }
      var item := NewRow(sourceName, key, title, container, size);
      ghost var before := Now();
      row := Some(if row.Some? then Requeue(row.value, item) else item);
      Step(before, Enqueue(item));
      ok := true;
    }

    /** ResetStaleDownloads, as far as it concerns this item. */
    method ResetStaleDownloads()
      requires Valid() && phase.Idle?
      modifies `row, `phase, `history
      ensures Valid() && phase.Idle?
      ensures old(row).None? || old(row).value.status != Downloading ==> row == old(row)
      ensures old(row).Some? && old(row).value.status == Downloading ==> row == Some(old(row).value.(status := Queued))
    {
      ghost var before := Now();
      row := if row.Some? then Some(ResetStale(row.value)) else None;
      Step(before, Reset);
    }

    /** Every state the item passes through is sound. */
    lemma ValidIsSound()
      requires Valid()
      ensures Sound(payload, Now())
    {
      PlayKeepsSound(payload, origin, history);
    }

    lemma StreamingHasFile()
      requires Valid() && phase.Streaming?
      ensures partial.Some?
    {
      ValidIsSound();
    }

    /** Nothing goes wrong on this side, and nobody cancels. */
    ghost predicate Calm() { forall n :: fate(n) }

    /** A statement, a file operation or a look at the context: did it go well? */
    method Try() returns (ok: bool)
      modifies `tries
      ensures ok == fate(old(tries)) && (Calm() ==> ok)
    {
      ok := fate(tries);
      tries := tries + 1;
    }

    /** http.Client.Do with the Range header fetchOnce sets. */
    method Send(offset: nat) returns (r: Response)
      requires Valid()
      modifies `requests
      ensures Honest(payload, offset, r) && r == server(old(requests), offset) && requests == old(requests) + 1
    {
      r := server(requests, offset);
      requests := requests + 1;
    }

    /** The bytes_done update, when it is due and the statement lands. */
    method Flush(done: nat, go: bool)
      modifies `row
      ensures row == if go then OnRow(old(row), r => FlushProgress(r, done)) else old(row)
    {
      if go && row.Some? {
        row := Some(FlushProgress(row.value, done));
      }
    }

    /** markError, whose own failure Download ignores. */
    method MarkFailed(dbOk: bool)
      modifies `row
      ensures row == if dbOk then OnRow(old(row), r => MarkError(r)) else old(row)
    {
      if dbOk && row.Some? {
        row := Some(MarkError(row.value));
      }
    }

    /** The body has stopped: a last flush, and after io.EOF the sync. */
    method EndBody(startAt: nat, size: int, clean: bool, ghost left: nat) returns (out: Fetch)
      requires Valid() && phase == Streaming(size, startAt, left, [], clean)
      modifies `row, `tries, `phase, `history
      ensures Valid() && WorkedOn(old(history), history)
      ensures out.Complete? ==> phase == Fetched(size)
      ensures out.Transient? ==> phase == Failing(size, startAt, left)
      ensures !out.Permanent? && (Calm() && clean ==> out.Complete?) && (!clean ==> out.Transient?)
    {
      hide Reached, Honest, Heard, Sound;
      ghost var before := Now();
      var flush: bool := *;
      Flush(startAt, flush);
      Step(before, BodyEnds(flush));
      if !clean {
        return Transient;
      }
      before := Now();
      var synced := Try();
      Step(before, Sync(synced));
      out := if synced then Complete else Transient;
    }

    /** One read and its write: the bytes taken, or None after a short write. */
    method Append(startAt: nat, size: int, rest: Bytes, clean: bool, ghost left: nat, flush: bool)
      returns (taken: Option<nat>)
      requires Valid() && phase == Streaming(size, startAt, left, rest, clean) && rest != []
      modifies `row, `partial, `tries, `phase, `history
      ensures Valid() && WorkedOn(old(history), history)
      ensures taken.Some? ==> 1 <= taken.value <= |rest|
      ensures taken.Some? ==> phase == Streaming(size, startAt + taken.value, left, rest[taken.value..], clean)
      ensures Calm() ==> taken.Some?
      ensures taken.None? ==> phase == Failing(size, startAt, left)
    {
      hide Reached, Honest, Heard, Sound, Next, Enabled;
      ghost var before := Now();
      StreamingHasFile();
      var n: int := *;
      n := if 1 <= n <= |rest| then n else |rest|;
      var written := Try();
      if !written {
        var kept: int := *;
        kept := if 0 <= kept <= n then kept else n;
        partial := Some(partial.value + rest[..kept]);
        WritesShort(before, n, kept);
        Step(before, ShortWrite(n, kept));
        return None;
      }
      partial := Some(partial.value + rest[..n]);
      Flush(startAt + n, flush);
      Chunks(before, n, flush);
      Step(before, Chunk(n, flush));
      taken := Some(n);
    }

    /** The read loop of fetchOnce: append each chunk until the body ends, then sync. */
    method ReadBody(start: nat, size: int, body: Bytes, clean: bool, ghost left: nat) returns (out: Fetch, startAt: nat)
      requires Valid() && phase == Streaming(size, start, left, body, clean)
      modifies `row, `partial, `tries, `phase, `history
      ensures Valid() && WorkedOn(old(history), history)
      ensures out.Complete? ==> phase == Fetched(size)
      ensures out.Transient? ==> phase == Failing(size, startAt, left)
      ensures !out.Permanent? && (Calm() && clean ==> out.Complete?) && (!clean ==> out.Transient?)
    {
      hide Reached, Honest, Heard, Sound;
      var rest := body;
      startAt := start;
      while true
        invariant Valid() && WorkedOn(old(history), history)
        invariant phase == Streaming(size, startAt, left, rest, clean)
        decreases |rest|
      {
        ghost var before := Now();
        var flush: bool := *;
        var going := Try();
        if !going {
          Flush(startAt, flush);
          Step(before, Interrupt(flush));
          return Transient, startAt;
        }
        if rest == [] {
          out := EndBody(startAt, size, clean, left);
          return;
        }
        var n := Append(startAt, size, rest, clean, left, flush);
        if n.None? {
          return Transient, startAt;
        }
        startAt, rest := startAt + n.value, rest[n.value..];
      }
    }

    /** The switch on the status code: None when the body is to be written, else how the attempt ends. */
    method OnStatus(r: Response, start: nat, size: int, ghost left: nat) returns (over: Option<Fetch>, startAt: nat)
      requires Valid() && phase == Asked(size, start, left) && Honest(payload, start, r)
      modifies `partial, `tries, `phase, `history
      ensures Valid() && WorkedOn(old(history), history)
      ensures match over
        case None => r.Reply? && phase == Accepted(size, startAt, left, r.body, r.clean)
        case Some(Complete) => phase == Fetched(size)
        case Some(Permanent) => phase == Doomed(size)
        case Some(Transient) => phase == Failing(size, startAt, left)
      // What each code leads to.
      ensures r.Unreachable? ==> over == Some(Transient)
      ensures r.Reply? && r.code == 200 ==>
        || (over == Some(Transient) && start > 0 && partial == old(partial) && !Calm())
        || (over.None? && startAt == 0 && partial == if start > 0 then None else old(partial))
      ensures r.Reply? && r.code == 206 ==>
        startAt == start && over == if WrongTotal(r, size) then Some(Permanent) else None
      ensures r.Reply? && r.code == 416 ==>
        over == if partial.Some? && (size <= 0 || |partial.value| == size) then Some(Complete) else Some(Permanent)
      ensures r.Reply? && 400 <= r.code <= 499 && r.code != 416 ==> over == Some(Permanent)
      ensures r.Reply? && r.code != 200 && r.code != 206 && !(400 <= r.code <= 499) ==> over == Some(Transient)
      ensures !(r.Reply? && r.code == 200) ==> partial == old(partial)
    {
      hide Reached, Honest;
      ghost var before := Now();
      startAt := start;
      if r.Reply? && r.code == 200 && startAt > 0 {
        var removed := Try();
        if removed {
          partial, startAt := None, 0;
        }
        Step(before, Sweep(r, removed));
        return if removed then None else Some(Transient), startAt;
      }
      Step(before, Hear(r));
      if r.Unreachable? {
        return Some(Transient), startAt;
      }
      match r.code
      case 200 =>
        over := None;
      case 206 =>
        var total := ContentRangeTotal(r.contentRange);
        over := if total.Some? && size > 0 && total.value != size then Some(Permanent) else None;
      case 416 =>
        over := if partial.None? || (size > 0 && |partial.value| != size) then Some(Permanent) else Some(Complete);
      case _ =>
        over := if 400 <= r.code < 500 then Some(Permanent) else Some(Transient);
    }

    /** os.OpenFile with O_CREATE, and with O_TRUNC or O_APPEND by the offset. */
    method OpenPartial(startAt: nat, size: int, r: Response, ghost left: nat) returns (opens: bool)
      requires Valid() && r.Reply? && phase == Accepted(size, startAt, left, r.body, r.clean)
      modifies `partial, `tries, `phase, `history
      ensures Valid() && WorkedOn(old(history), history)
      ensures Calm() ==> opens
      ensures partial == if opens && (startAt == 0 || old(partial).None?) then Some([]) else old(partial)
      ensures phase == if opens then Streaming(size, startAt, left, r.body, r.clean) else Failing(size, startAt, left)
    {
      hide Reached, Honest, Heard, Sound;
      ghost var before := Now();
      opens := Try();
      if opens && (startAt == 0 || partial.None?) {
        partial := Some([]);
      }
      Step(before, Open(opens));
    }

    /** fetchOnce, once the server has answered: the switch on the code, the file, the body. */
    method OnAnswer(r: Response, start: nat, size: int, ghost left: nat) returns (out: Fetch, startAt: nat)
      requires Valid() && phase == Asked(size, start, left) && Honest(payload, start, r)
      modifies `row, `partial, `tries, `phase, `history
      ensures Valid() && WorkedOn(old(history), history)
      ensures out.Complete? ==> phase == Fetched(size)
      ensures out.Permanent? ==> phase == Doomed(size)
      ensures out.Transient? ==> phase == Failing(size, startAt, left)
      // Which answers end the download for good, and which never do.
      ensures (Fatal(r, size) ==> out.Permanent?) && (Hiccup(r) ==> out.Transient?)
      ensures out.Permanent? ==> GivesUp(r, size)
      ensures out.Complete? ==> r.Reply? && (r.code == 200 || r.code == 206 || r.code == 416)
      ensures Calm() && Helpful(r, start) && SizeFits(size) ==> out.Complete?
    {
      hide Reached, Honest, Heard, Sound, SizeFits;
      StandsBy(start, size, left);
      HelpfulFits(r, start, size);
      var over;
      over, startAt := OnStatus(r, start, size, left);
      if over.Some? {
        return over.value, startAt;
      }
      var opens := OpenPartial(startAt, size, r, left);
      if !opens {
        return Transient, startAt;
      }
      out, startAt := ReadBody(startAt, size, r.body, r.clean, left);
    }

    /** fetchOnce: one request, and what its answer makes of the partial. */
    method FetchOnce(start: nat, size: int, ghost left: nat) returns (out: Fetch, startAt: nat)
      requires Valid() && phase == Poised(size, start, left) && left > 0
      modifies `row, `partial, `requests, `tries, `phase, `history
      ensures Valid() && WorkedOn(old(history), history) && requests == old(requests) + 1
      ensures out.Complete? ==> phase == Fetched(size)
      ensures out.Permanent? ==> phase == Doomed(size)
      ensures out.Transient? ==> phase == Failing(size, startAt, left - 1)
      // Which answers end the download for good, and which never do.
      ensures var r := server(old(requests), start);
        && (Fatal(r, size) ==> out.Permanent?)
        && (Hiccup(r) ==> out.Transient?)
        && (out.Permanent? ==> GivesUp(r, size))
        && (out.Complete? ==> r.Reply? && (r.code == 200 || r.code == 206 || r.code == 416))
        && (Calm() && Helpful(r, start) && SizeFits(size) ==> out.Complete?)
    {
      hide Reached, Honest, Heard, Sound, SizeFits, Fatal, Hiccup, GivesUp, Helpful;
      Step(Now(), Ask);
      var r := Send(start);
      out, startAt := OnAnswer(r, start, size, left - 1);
    }

    /** After a failed attempt: stop on a permanent error or when cancelled, else back off and stat again. */
    method AfterFailure(out: Fetch, failedAt: nat, size: int, ghost left: nat)
      returns (over: Option<Outcome>, startAt: nat)
      requires Valid() && !out.Complete?
      requires phase == if out.Permanent? then Doomed(size) else Failing(size, failedAt, left)
      modifies `row, `tries, `phase, `history
      ensures Valid() && WorkedOn(old(history), history)
      ensures over.None? ==> phase == Poised(size, startAt, left)
      ensures over.Some? ==> phase.Idle? && (over.value.Refused? || over.value.Abandoned?)
      ensures out.Permanent? <==> over.Some? && over.value.Refused?
      ensures Calm() ==> over.None? || over == Some(Refused(true))
      ensures over == Some(Refused(true)) && row.Some? ==> row.value.status == Errored
    {
      hide Reached, Honest, Heard, Sound;
      startAt := failedAt;
      ghost var before := Now();
      if out.Permanent? {
        var dbOk := Try();
        MarkFailed(dbOk);
        Step(before, Refuse(dbOk));
        return Some(Refused(dbOk)), startAt;
      }
      var going := Try();
      if !going {
        Step(before, GiveUp);
        return Some(Abandoned), startAt;
      }
      if partial.Some? {
        startAt := |partial.value|;
      }
      Step(before, Retry);
      over := None;
    }

    predicate GaveUp(n: nat, at: nat, size: int) { GivesUp(server(n, at), size) }

    /** The server is unreachable or in trouble from this request on. */
    ghost predicate HiccupsFrom(n: nat) { forall m, at | n <= m :: Hiccup(server(m, at)) }

    predicate HelpsAt(n: nat, at: nat) { Helpful(server(n, at), at) }

    /** After k answers that a retry may follow comes one that helps. */
    ghost predicate HelpsAfter(n: nat, k: nat, size: int) {
      && (forall m, at | n <= m < n + k :: !GaveUp(m, at, size))
      && (forall m, at | m == n + k :: HelpsAt(m, at))
    }

    /** No size is declared, or the payload's own. */
    ghost predicate SizeFits(size: int) { size <= 0 || size == |payload| }

    /** When a request is out the offset is the partial's length. */
    lemma StandsBy(start: nat, size: int, left: nat)
      requires Valid() && phase == Asked(size, start, left)
      ensures start == Offset(partial) && (partial.Some? ==> partial.value <= payload)
    {
      ValidIsSound();
    }

    /** An answer that helps contradicts neither a size that fits nor a partial it is told of. */
    lemma HelpfulFits(r: Response, at: nat, size: int)
      requires Honest(payload, at, r) && at == Offset(partial) && (partial.Some? ==> partial.value <= payload)
      ensures Helpful(r, at) && SizeFits(size) ==>
        && !WrongTotal(r, size)
        && (r.code == 416 ==> partial.Some? && (size <= 0 || |partial.value| == size))
    {
      hide ContentRangeTotal;
    }

    /** One turn of the retry loop: a look at the context, a request, and what follows a failure. */
    method Attempt(start: nat, size: int, ghost left: nat) returns (done: bool, over: Option<Outcome>, startAt: nat)
      requires Valid() && phase == Poised(size, start, left + 1)
      modifies `row, `partial, `requests, `tries, `phase, `history
      ensures Valid() && WorkedOn(old(history), history)
      ensures requests == old(requests) + if over == Some(Abandoned) && requests == old(requests) then 0 else 1
      ensures done ==> over.None? && phase == Fetched(size)
      ensures !done && over.None? ==> phase == Poised(size, startAt, left)
      ensures over.Some? ==> phase.Idle? && (over.value.Refused? || over.value.Abandoned?)
      ensures over.Some? && over.value.Refused? ==> GaveUp(old(requests), start, size)
      ensures over == Some(Refused(true)) && row.Some? ==> row.value.status == Errored
      ensures Calm() ==> over.None? || over == Some(Refused(true))
      ensures HiccupsFrom(old(requests)) ==> !done && (over.None? || over == Some(Abandoned))
      ensures Calm() && HelpsAt(old(requests), start) && SizeFits(size) ==> done
      ensures Calm() && !GaveUp(old(requests), start, size) ==> over.None?
    {
      hide Reached, Honest, Heard, Sound, Fatal, Hiccup, GivesUp, Helpful, SizeFits;
      done, over, startAt := false, None, start;
      var going := Try();
      if !going {
        Step(Now(), GiveUp);
        return false, Some(Abandoned), start;
      }
      ghost var first := requests;
      assert HiccupsFrom(first) ==> Hiccup(server(first, start));
      var out;
      out, startAt := FetchOnce(start, size, left + 1);
      if out.Complete? {
        return true, None, startAt;
      }
      over, startAt := AfterFailure(out, startAt, size, left);
    }

    /** Download's retry loop: None once fetchOnce has succeeded, else how Download returns. */
    method Attempts(start: nat, size: int) returns (over: Option<Outcome>)
      requires Valid() && phase == Poised(size, start, retryAttempts)
      modifies `row, `partial, `requests, `tries, `phase, `history
      ensures Valid() && WorkedOn(old(history), history)
      ensures requests <= old(requests) + retryAttempts
      ensures over.None? ==> requests > old(requests) && phase == Fetched(size)
      // Unless it is cancelled, it gives up early only on an answer that no retry follows.
      ensures over.Some? && over.value.Refused? ==>
        || requests == old(requests) + retryAttempts
        || (requests > old(requests) && exists m, at :: m + 1 == requests && GaveUp(m, at, size))
      ensures HiccupsFrom(old(requests)) && over != Some(Abandoned) ==>
        over.Some? && requests == old(requests) + retryAttempts
      // Undisturbed, it gets the file from the first answer that helps, if its attempts last that long.
      ensures Calm() ==> over.None? || over == Some(Refused(true))
      ensures forall k: nat | k < retryAttempts && Calm() && SizeFits(size) && HelpsAfter(old(requests), k, size) ::
        over.None? && requests <= old(requests) + k + 1
      ensures over.Some? ==> phase.Idle? && (over.value.Refused? || over.value.Abandoned?)
      ensures over == Some(Refused(true)) && row.Some? ==> row.value.status == Errored
    {
      hide Reached, Honest, Heard, Sound, GaveUp, HelpsAt, SizeFits, HiccupsFrom, HelpsAfter;
      ghost var first := requests;
      var startAt: nat := start;
      for attempt := 0 to retryAttempts
        invariant Valid() && WorkedOn(old(history), history)
        invariant phase == Poised(size, startAt, retryAttempts - attempt)
        invariant requests == first + attempt
        invariant forall k: nat |
          k < retryAttempts && Calm() && SizeFits(size) && HelpsAfter(first, k, size) :: attempt <= k
      {
        var done;
        if HiccupsFrom(first) {
          MoreHiccups(first, requests);
        }
        ghost var asked := startAt;
        forall k: nat | HelpsAfter(first, k, size) && attempt <= k
          ensures if attempt == k then HelpsAt(first + attempt, asked) else !GaveUp(first + attempt, asked, size)
        {
          HelpsNow(first, k, size, attempt, asked);
        }
        done, over, startAt := Attempt(startAt, size, retryAttempts - attempt - 1);
        assert over.Some? && over.value.Refused? ==> GaveUp(first + attempt, asked, size);
        if done || over.Some? {
          return;
        }
      }
      var dbOk := Try();
      ghost var before := Now();
      MarkFailed(dbOk);
      Step(before, Exhaust(dbOk));
      over := Some(Refused(dbOk));
    }

    lemma HelpsNow(n: nat, k: nat, size: int, i: nat, at: nat)
      requires HelpsAfter(n, k, size) && i <= k
      ensures if i == k then HelpsAt(n + i, at) else !GaveUp(n + i, at, size)
    {
    }

    lemma MoreHiccups(n: nat, m: nat)
      requires HiccupsFrom(n) && n <= m
      ensures HiccupsFrom(m)
    {
    }

    lemma FetchedWhole()
      requires Valid() && phase.Fetched?
      ensures partial == Some(payload)
    {
      ValidIsSound();
    }

    /** The integrity check on the finished partial. */
    method CheckSize(size: int) returns (over: Option<Outcome>)
      requires Valid() && phase == Fetched(size)
      modifies `row, `tries, `phase, `history
      ensures Valid() && WorkedOn(old(history), history)
      ensures over.None? <==> size <= 0 || size == |payload|
      ensures over.None? ==> phase == Measured(size, |payload|) && partial == Some(payload) && row == old(row)
      ensures over.Some? ==> phase.Idle? && over.value.Refused? && (Calm() ==> over.value.marked)
      ensures over == Some(Refused(true)) && row.Some? ==> row.value.status == Errored
    {
      hide Reached, Honest, Heard, Sound;
      var dbOk := Try();
      FetchedWhole();
      ghost var before := Now();
      if partial.None? || (size > 0 && |partial.value| != size) {
        MarkFailed(dbOk);
        over := Some(Refused(dbOk));
      } else {
        over := None;
      }
      Step(before, Measure(dbOk));
    }

    /** The atomic rename of the checked partial. */
    method Rename(size: int) returns (over: Option<Outcome>)
      requires Valid() && phase == Measured(size, |payload|) && partial == Some(payload)
      modifies `row, `partial, `final, `tries, `phase, `history
      ensures Valid() && WorkedOn(old(history), history)
      ensures over.None? ==>
        phase == Moved(size, |payload|) && partial.None? && final == Some(payload) && row == old(row)
      ensures over.Some? ==> phase.Idle? && over.value.Refused? && partial == old(partial) && final == old(final)
      ensures Calm() ==> over.None?
      ensures over == Some(Refused(true)) && row.Some? ==> row.value.status == Errored
    {
      hide Reached, Honest, Heard, Sound;
      var renamed := Try();
      var dbOk := Try();
      ghost var before := Now();
      if renamed {
        partial, final := None, partial;
        over := None;
      } else {
        MarkFailed(dbOk);
        over := Some(Refused(dbOk));
      }
      Step(before, Move(renamed, dbOk));
    }

    /** The end of Download: size check, rename, RecordReady. */
    method Publish(size: int, title: Str, container: Str, now: int) returns (res: Outcome)
      requires Valid() && phase == Fetched(size)
      modifies `row, `partial, `final, `tries, `phase, `history
      ensures Valid() && phase.Idle? && WorkedOn(old(history), history)
      ensures res.Completed? || res.Refused? || res.Abandoned?
      ensures res.Completed? ==>
        && row.Some? && row.value.status == Ready && row.value.localPath == Some(home)
        && final == Some(payload) && partial.None?
        && row.value.size == row.value.done == |payload| && row.value.completedAt == now
        && row.value.title == title && row.value.container == container
        && (size > 0 ==> size == |payload|)
      ensures Calm() ==> res == if size <= 0 || size == |payload| then Completed else Refused(true)
      ensures res == Refused(true) && row.Some? ==> row.value.status == Errored
      ensures final == old(final) || final == Some(payload)
    {
      hide Reached, Honest, Heard, Sound;
      var over := CheckSize(size);
      if over.Some? {
        return over.value;
      }
      var finalSize := |partial.value|;
      over := Rename(size);
      if over.Some? {
        return over.value;
      }
      var recorded := Store(size, finalSize, title, container, now);
      res := if recorded then Completed else Abandoned;
    }

    /** RecordReady, for the file just renamed. */
    method Store(ghost size: int, finalSize: nat, title: Str, container: Str, now: int) returns (ok: bool)
      requires Valid() && phase == Moved(size, finalSize)
      modifies `row, `tries, `phase, `history
      ensures Valid() && WorkedOn(old(history), history) && phase == Idle
      ensures (Calm() ==> ok) && (!ok ==> row == old(row))
      ensures ok ==>
        && row.Some? && row.value.status == Ready && row.value.localPath == Some(home)
        && row.value.size == row.value.done == finalSize && row.value.completedAt == now
        && row.value.title == title && row.value.container == container
    {
      hide Reached, Honest, Sound;
      ok := Try();
      ghost var before := Now();
      if !ok {
        Step(before, RecordFails);
        return;
      }
      var item := NewRow(sourceName, "", title, container, 0);
      row := Some(RecordReady(if row.Some? then row.value else item, title, container, home, finalSize, now));
      Records(before, item, now);
      hide Next, Enabled;
      Step(before, Record(item, now));
    }

    /** What lies at the final path when a download computes it. */
    lemma FinalIsWhole()
      requires Valid()
      ensures final.Some? ==> final.value == payload
    {
      ValidIsSound();
    }

    /** The start of Download: URL and layout, directories, the stat that sets startAt, the row's status. */
    method Prepare() returns (over: Option<Outcome>, startAt: nat)
      requires Valid() && phase.Idle? && row.Some? && row.value.status != Ready
      modifies `row, `tries, `phase, `history
      ensures Valid() && WorkedOn(old(history), history) && row.Some?
      ensures over.None? ==>
        && phase == Poised(old(row).value.size, startAt, retryAttempts) && startAt == Offset(partial)
        && row == Some(old(row).value.(status := Downloading, done := startAt))
      ensures over.Some? ==> phase.Idle? && (over.value.Refused? || (over.value == Abandoned && row == old(row)))
      ensures Calm() ==> over.None?
      ensures over == Some(Refused(true)) ==> row.value.status == Errored
    {
      hide Reached, Honest, Heard, Sound;
      Step(Now(), Begin);
      var located := Try();
      var prepared := Try();
      startAt := if partial.Some? then |partial.value| else 0;
      ghost var before := Now();
      if !located {      // the URL does not resolve, or the layout has no place for the item
        var dbOk := NotLocated(old(row).value.size);
        return Some(Refused(dbOk)), startAt;
      }
      if !prepared {     // no directory to write into
        Step(before, GiveUp);
        return Some(Abandoned), startAt;
      }
      FinalIsWhole();
      Locates(before, home, final);
      Step(before, Locate(home, final));
      var marked := MarkStarted(phase.size, startAt);
      over := if marked then None else Some(Abandoned);
    }

    /** The URL does not resolve, or the layout has no place for the item: markError. */
    method NotLocated(ghost size: int) returns (dbOk: bool)
      requires Valid() && phase == Loaded(size) && row.Some?
      modifies `row, `tries, `phase, `history
      ensures Valid() && WorkedOn(old(history), history) && phase == Idle && row.Some?
      ensures (Calm() ==> dbOk) && (dbOk ==> row.value.status == Errored) && (!dbOk ==> row == old(row))
    {
      hide Reached, Honest, Heard, Sound;
      ghost var before := Now();
      dbOk := Try();
      MarkFailed(dbOk);
      Step(before, Refuse(dbOk));
    }

    /** markDownloading. */
    method MarkStarted(ghost size: int, startAt: nat) returns (marked: bool)
      requires Valid() && phase == Located(size, startAt) && row.Some?
      modifies `row, `tries, `phase, `history
      ensures Valid() && WorkedOn(old(history), history)
      ensures Calm() ==> marked
      ensures row == if marked then Some(old(row).value.(status := Downloading, done := startAt)) else old(row)
      ensures phase == if marked then Poised(size, startAt, retryAttempts) else Idle
    {
      hide Reached, Honest, Heard, Sound;
      ghost var before := Now();
      marked := Try();
      if marked {
        row := Some(MarkDownloading(row.value, startAt));
        Step(before, StartRow(retryAttempts, true));
      } else {
        Step(before, GiveUp);
      }
    }

    /** Download: reconcile with the disk, retry, check the size, rename, record. */
    method Download(title: Str, container: Str, now: int) returns (res: Outcome)
      requires Valid() && phase.Idle?
      modifies `row, `partial, `final, `requests, `tries, `phase, `history
      ensures Valid() && phase.Idle? && WorkedOn(old(history), history)
      ensures res.NotFound? <==> old(row).None?
      ensures res.WrongSource? <==> old(row).Some? && old(row).value.source != sourceName
      ensures res.AlreadyReady? <==>
        old(row).Some? && old(row).value.source == sourceName && old(row).value.status == Ready
      ensures res.NotFound? || res.WrongSource? || res.AlreadyReady? ==>
        row == old(row) && partial == old(partial) && final == old(final)
      ensures res.Completed? ==>
        && row.Some? && row.value.status == Ready && row.value.localPath == Some(home)
        && final == Some(payload) && partial.None?
        && row.value.size == row.value.done == |payload| && row.value.completedAt == now
        && row.value.title == title && row.value.container == container
        && (old(row).value.size > 0 ==> old(row).value.size == |payload|)
      // A server in trouble costs every attempt, and nothing but attempts.
      ensures HiccupsFrom(old(requests)) ==>
        && !res.Completed? && final == old(final)
        && (res.Refused? && requests > old(requests) ==> requests == old(requests) + retryAttempts)
      // Undisturbed, it completes with the first answer that helps, or says on the row why not.
      ensures Calm() && !res.NotFound? && !res.WrongSource? && !res.AlreadyReady? ==>
        && (res.Completed? || res == Refused(true))
        && (!SizeFits(old(row).value.size) ==> res.Refused?)
        && (forall k: nat |
              k < retryAttempts && SizeFits(old(row).value.size) && HelpsAfter(old(requests), k, old(row).value.size) ::
              res.Completed? && requests <= old(requests) + k + 1)
      ensures res == Refused(true) && row.Some? ==> row.value.status == Errored
      ensures final == old(final) || final == Some(payload)
    {
      hide Reached, HiccupsFrom, HelpsAfter, Honest, Heard, Sound;
      if row.None? {
        return NotFound;
      }
      if row.value.source != sourceName {
        return WrongSource;
      }
      if row.value.status == Ready {
        return AlreadyReady;
      }
      var size := row.value.size;
      var over, startAt := Prepare();
      if over.None? {
        over := Attempts(startAt, size);
      }
      if over.Some? {
        return over.value;
      }
      res := Publish(size, title, container, now);
    }
  }
}

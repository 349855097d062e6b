/** The remote server: what one GET can come back with, and which answers RFC 7233 permits. */
module Remote {
  import opened Basics
  import opened Text

  newtype Byte = x: int | 0 <= x < 256
  type Bytes = seq<Byte>

  /**
   * The outcome of one request. `body` is what the reader hands over before it stops, and
   * `clean` says whether it stopped with io.EOF or with a read error.
   */
  datatype Response =
    | Unreachable
    | Reply(code: int, contentRange: string, body: Bytes, clean: bool)

  ghost predicate DeliversFrom(payload: Bytes, start: nat, r: Response)
    requires r.Reply?
  {
    && start <= |payload|
    && r.body <= payload[start..]
    && (r.clean ==> r.body == payload[start..])
  }

  /**
   * RFC 7233 for a file that does not change: a 200 carries the whole file (section 3.1), a
   * 206 starts at the requested offset, which lies before the end (sections 2.1 and 4.1), and
   * states the true length or none (section 4.2), a 416 answers only an offset at or past the
   * end (section 4.4). Nothing is
   * asked of the other codes, nor of where a body breaks off.
   */
  ghost predicate Honest(payload: Bytes, offset: nat, r: Response) {
    r.Reply? ==>
      && (r.code == 200 ==> DeliversFrom(payload, 0, r))
      && (r.code == 206 ==>
        && offset < |payload| && DeliversFrom(payload, offset, r)
        && (ContentRangeTotal(r.contentRange).Some? ==> ContentRangeTotal(r.contentRange).value == |payload|))
      && (r.code == 416 ==> |payload| <= offset)
  }

  /** parseContentRangeTotal: the number after the first slash, if it is one. */
  function ContentRangeTotal(h: string): Option<int> {
    match AfterSlash(h)
    case None => None
    case Some(tail) => if tail == "*" then None else ParseInt(Trim(tail))
  }

  function AfterSlash(h: string): Option<string> {
    if h == [] then None else if h[0] == '/' then Some(h[1..]) else AfterSlash(h[1..])
  }

  /** A Content-Range value with the given range text and total (section 4.2 of RFC 7233). */
  function ContentRange(range: string, total: nat): string {
    "bytes " + range + "/" + Itoa(total)
  }

  lemma {:induction false} AfterFirstSlash(before: string, tail: string)
    requires '/' !in before
    ensures AfterSlash(before + "/" + tail) == Some(tail)
  {
    if before == [] {
      assert before + "/" + tail == "/" + tail;
    } else {
      assert (before + "/" + tail)[1..] == before[1..] + "/" + tail;
      AfterFirstSlash(before[1..], tail);
    }
  }

  /** A well-formed header gives back the total it was written with, for every int64 total. */
  lemma ContentRangeRoundTrip(range: string, total: nat)
    requires '/' !in range && total <= MAX_INT64
    ensures ContentRangeTotal(ContentRange(range, total)) == Some(total)
  {
    assert '/' !in "bytes " + range;
    AfterFirstSlash("bytes " + range, Itoa(total));
    assert "bytes " + range + "/" + Itoa(total) == ("bytes " + range) + "/" + Itoa(total);
    ParsePrinted(total);
    TrimKeeps(Itoa(total));
    assert Itoa(total)[0] != '*';
  }

  /** The length-unknown form is not mistaken for a number. */
  lemma UnknownTotal(range: string)
    requires '/' !in range
    ensures ContentRangeTotal("bytes " + range + "/*") == None
  {
    assert '/' !in "bytes " + range;
    AfterFirstSlash("bytes " + range, "*");
    assert "bytes " + range + "/*" == ("bytes " + range) + "/" + "*";
  }

  /** Where a header has its first slash, and that it has one. */
  lemma {:induction false} FirstSlash(h: string) returns (before: string)
    requires AfterSlash(h).Some?
    ensures '/' !in before && h == before + "/" + AfterSlash(h).value
  {
    if h[0] == '/' {
      before := "";
      assert h == "/" + h[1..] == "" + "/" + h[1..];
    } else {
      before := FirstSlash(h[1..]);
      assert h == [h[0]] + h[1..] == [h[0]] + before + "/" + AfterSlash(h).value;
      before := [h[0]] + before;
    }
  }

  lemma NumeralTrimmed(s: string)
    requires Numeral(s)
    ensures Trimmed(s) && s != "*" && s != ""
  {
    var d := if s[0] == '-' || s[0] == '+' then s[1..] else s;
    assert d[|d| - 1] == s[|s| - 1];
    assert s[0] == d[0] || s[0] == '-' || s[0] == '+';
  }

  /** A header states a total exactly when what follows its first slash is one int64 numeral among blanks. */
  lemma {:induction false} StatesTotalIff(h: string, n: int)
    ensures ContentRangeTotal(h) == Some(n) <==>
      exists before: string, lead: string, numeral: string, rest: string :: States(h, n, before, lead, numeral, rest)
    ensures forall before: string, lead: string, numeral: string, rest: string ::
      States(h, n, before, lead, numeral, rest) <==>
        && h == before + "/" + (lead + numeral + rest) && '/' !in before && Blank(lead) && Blank(rest)
        && Numeral(numeral) && NumeralValue(numeral) == n && -0x8000_0000_0000_0000 <= n <= 0x7FFF_FFFF_FFFF_FFFF
  {
    hide Trim, Numeral, NumeralValue, Blank, Trimmed;
    if ContentRangeTotal(h) == Some(n) {
      var before := FirstSlash(h);
      var tail := AfterSlash(h).value;
      var lead, rest := TrimSplits(tail);
      assert States(h, n, before, lead, Trim(tail), rest);
    }
    if before: string, lead: string, numeral: string, rest: string :| States(h, n, before, lead, numeral, rest) {
      AfterFirstSlash(before, lead + numeral + rest);
      NumeralTrimmed(numeral);
      TrimFinds(lead, numeral, rest);
      if lead + numeral + rest == "*" {
        StarAlone(lead, numeral, rest);
      }
    }
  }

  lemma StarAlone(lead: string, numeral: string, rest: string)
    requires numeral != "" && lead + numeral + rest == "*"
    ensures numeral == "*"
  {
    assert |lead| == 0 && |rest| == 0;
  }

  predicate States(h: string, n: int, before: string, lead: string, numeral: string, rest: string) {
    && h == before + "/" + (lead + numeral + rest) && '/' !in before && Blank(lead) && Blank(rest)
    && Numeral(numeral) && NumeralValue(numeral) == n && MIN_INT64 <= n <= MAX_INT64
  }
}

/** Size strings such as "10G": what they mean, and the parser that reads them. */
module Size {
  import opened Basics
  import opened Text

  datatype SizeError = NotASize | NegativeSize | TooLarge

  const KIB := 0x400
  const MIB := 0x10_0000
  const GIB := 0x4000_0000
  const TIB := 0x100_0000_0000

  function UpperChar(c: char): char {
    if 'a' <= c <= 'z' then (c as int - 32) as char else c
  }

  /** strings.ToUpper; no other rune's upper case is a digit, a sign or a unit letter. */
  function Upper(s: string): (r: string)
    ensures |r| == |s| && forall i | 0 <= i < |s| :: r[i] == UpperChar(s[i])
  {
    seq(|s|, i requires 0 <= i < |s| => UpperChar(s[i]))
  }

  predicate HasSuffix(s: string, suffix: string) {
    |s| >= |suffix| && s[|s| - |suffix|..] == suffix
  }

  function TrimSuffix(s: string, suffix: string): string {
    if HasSuffix(s, suffix) then s[..|s| - |suffix|] else s
  }

  /** The unit a size ends in: its letters and what they multiply by. */
  function UnitOf(s: string): (string, int) {
    if HasSuffix(s, "TB") then ("TB", TIB)
    else if HasSuffix(s, "GB") then ("GB", GIB)
    else if HasSuffix(s, "MB") then ("MB", MIB)
    else if HasSuffix(s, "KB") then ("KB", KIB)
    else if HasSuffix(s, "T") then ("T", TIB)
    else if HasSuffix(s, "G") then ("G", GIB)
    else if HasSuffix(s, "M") then ("M", MIB)
    else if HasSuffix(s, "K") then ("K", KIB)
    else ("", 1)
  }

  /** The checks on the number, and the product. */
  function Scale(n: int, unit: int): Result<int, SizeError> {
    if n < 0 then Err(NegativeSize)
    else if unit > 1 && n > TruncDiv(MAX_INT64, unit) then Err(TooLarge)
    else Ok(Wrap64(n * unit))
  }

  function Read(digits: string, unit: int): Result<int, SizeError> {
    match ParseInt(Trim(digits))
    case None => Err(NotASize)
    case Some(n) => Scale(n, unit)
  }

  /** The result of ParseSize. */
  function SizeOf(raw: string): Result<int, SizeError> {
    var s := Trim(Upper(raw));
    if s == "" || s == "0" then Ok(0) else Read(TrimSuffix(s, UnitOf(s).0), UnitOf(s).1)
  }

  /** ParseSize. */
  method ParseSize(raw: string) returns (r: Result<int, SizeError>)
    ensures r == SizeOf(raw)
  {
    hide Trim, Upper, HasSuffix, ParseInt, TruncDiv, Wrap64;
    var s := Trim(Upper(raw));
    if s == "" || s == "0" {
      return Ok(0);
    }
    ghost var core := s;
    var mult := 1;
    if HasSuffix(s, "TB") {
      mult := TIB;
      s := TrimSuffix(s, "TB");
    } else if HasSuffix(s, "GB") {
      mult := GIB;
      s := TrimSuffix(s, "GB");
    } else if HasSuffix(s, "MB") {
      mult := MIB;
      s := TrimSuffix(s, "MB");
    } else if HasSuffix(s, "KB") {
      mult := KIB;
      s := TrimSuffix(s, "KB");
    } else if HasSuffix(s, "T") {
      mult := TIB;
      s := TrimSuffix(s, "T");
    } else if HasSuffix(s, "G") {
      mult := GIB;
      s := TrimSuffix(s, "G");
    } else if HasSuffix(s, "M") {
      mult := MIB;
      s := TrimSuffix(s, "M");
    } else if HasSuffix(s, "K") {
      mult := KIB;
      s := TrimSuffix(s, "K");
    } else {
      NoSuffix(s);
    }
    assert s == TrimSuffix(core, UnitOf(core).0) && mult == UnitOf(core).1;
    hide UnitOf, TrimSuffix;
    s := Trim(s);
    var n := ParseInt(s);
    if n.None? {
      return Err(NotASize);
    }
    if n.value < 0 {
      return Err(NegativeSize);
    }
    if mult > 1 && n.value > TruncDiv(MAX_INT64, mult) {
      return Err(TooLarge);
    }
    r := Ok(Wrap64(n.value * mult));
  }

  lemma NoSuffix(s: string)
    ensures TrimSuffix(s, "") == s
  {
  }

  // ---- what a size string means, said without the parser ----

  /** The names of a unit, in capitals; bytes have none. */
  predicate Names(letters: string, unit: int) {
    || (letters == "" && unit == 1)
    || ((letters == "K" || letters == "KB") && unit == KIB)
    || ((letters == "M" || letters == "MB") && unit == MIB)
    || ((letters == "G" || letters == "GB") && unit == GIB)
    || ((letters == "T" || letters == "TB") && unit == TIB)
  }

  /**
   * raw writes n of these units: a decimal numeral, then the unit's letters in either case, with
   * blanks anywhere around.
   */
  ghost predicate Written(raw: string, n: int, unit: int) {
    exists before: string, numeral: string, gap: string, letters: string, after: string ::
      WrittenAs(raw, n, unit, before, numeral, gap, letters, after)
  }

  ghost predicate WrittenAs(raw: string, n: int, unit: int,
                            before: string, numeral: string, gap: string, letters: string, after: string) {
    && Upper(raw) == before + numeral + gap + letters + after
    && Blank(before) && Blank(gap) && Blank(after)
    && Numeral(numeral) && NumeralValue(numeral) == n
    && Names(letters, unit)
  }

  lemma NumeralEnds(s: string)
    requires Numeral(s)
    ensures Trimmed(s) && IsDigit(s[|s| - 1])
  {
    var d := if s[0] == '-' || s[0] == '+' then s[1..] else s;
    assert d[|d| - 1] == s[|s| - 1];
    assert s[0] == d[0] || s[0] == '-' || s[0] == '+';
  }

  lemma SuffixOfJoined(a: string, suffix: string, s: string)
    requires s == a + suffix
    ensures HasSuffix(s, suffix) && TrimSuffix(s, suffix) == a
  {
  }

  lemma SuffixOne(s: string, c: char)
    ensures HasSuffix(s, [c]) <==> s != "" && s[|s| - 1] == c
  {
    assert s != "" ==> s[|s| - 1..] == [s[|s| - 1]];
  }

  lemma SuffixTwo(s: string, c: char, d: char)
    ensures HasSuffix(s, [c, d]) <==> |s| >= 2 && s[|s| - 2] == c && s[|s| - 1] == d
  {
    assert |s| >= 2 ==> s[|s| - 2..] == [s[|s| - 2], s[|s| - 1]];
  }

  /** UnitOf looks at the last two characters only. */
  function UnitByEnds(c: char, d: char): (string, int) {
    if d == 'B' && c == 'T' then ("TB", TIB)
    else if d == 'B' && c == 'G' then ("GB", GIB)
    else if d == 'B' && c == 'M' then ("MB", MIB)
    else if d == 'B' && c == 'K' then ("KB", KIB)
    else if d == 'T' then ("T", TIB)
    else if d == 'G' then ("G", GIB)
    else if d == 'M' then ("M", MIB)
    else if d == 'K' then ("K", KIB)
    else ("", 1)
  }

  lemma UnitByEndsIs(s: string)
    requires s != ""
    ensures UnitOf(s) == UnitByEnds(if |s| >= 2 then s[|s| - 2] else ' ', s[|s| - 1])
  {
    SuffixTwo(s, 'T', 'B');
    SuffixTwo(s, 'G', 'B');
    SuffixTwo(s, 'M', 'B');
    SuffixTwo(s, 'K', 'B');
    SuffixOne(s, 'T');
    SuffixOne(s, 'G');
    SuffixOne(s, 'M');
    SuffixOne(s, 'K');
    hide HasSuffix;
  }

  /** The unit read off the end is the one written there, provided something else stands before its letters. */
  lemma {:induction false} UnitFound(head: string, letters: string, unit: int)
    requires Names(letters, unit)
    requires head != "" && var c := head[|head| - 1]; IsSpace(c) || IsDigit(c)
    ensures UnitOf(head + letters) == (letters, unit)
  {
    var s := head + letters;
    UnitByEndsIs(s);
    hide UnitOf;
    var c := head[|head| - 1];
    if letters == "" {
      assert s == head;
    } else if |letters| == 1 {
      assert s[|s| - 1] == letters[0] && s[|s| - 2] == c;
    } else {
      assert s[|s| - 1] == letters[1] && s[|s| - 2] == letters[0];
    }
  }

  lemma RegroupCore(before: string, numeral: string, gap: string, letters: string, after: string)
    ensures before + numeral + gap + letters + after == before + (numeral + gap + letters) + after
    ensures letters == "" ==> before + numeral + gap + letters + after == before + numeral + (gap + after)
  {
  }

  lemma BlankJoin(a: string, b: string)
    requires Blank(a) && Blank(b)
    ensures Blank(a + b)
  {
  }

  /** What stands before the letters; without letters the gap belongs to the blanks that follow. */
  function Head(numeral: string, gap: string, letters: string): string {
    if letters == "" then numeral else numeral + gap
  }

  /** What is left of a size string once the blanks around it are gone. */
  function Core(numeral: string, gap: string, letters: string): string { Head(numeral, gap, letters) + letters }

  lemma CoreEnds(numeral: string, gap: string, letters: string, unit: int)
    requires Numeral(numeral) && Blank(gap) && Names(letters, unit)
    ensures var head, core := Head(numeral, gap, letters), Core(numeral, gap, letters);
      && head != "" && Trimmed(core) && core != ""
      && (IsDigit(head[|head| - 1]) || IsSpace(head[|head| - 1]))
  {
    NumeralEnds(numeral);
    HeadEnds(numeral, gap);
    var core := Core(numeral, gap, letters);
    assert core[0] == numeral[0];
    assert letters != "" ==> core[|core| - 1] == letters[|letters| - 1];
    assert letters == "" ==> core == numeral;
  }

  lemma HeadEnds(numeral: string, gap: string)
    requires numeral != "" && IsDigit(numeral[|numeral| - 1]) && Blank(gap)
    ensures var head := numeral + gap; IsDigit(head[|head| - 1]) || IsSpace(head[|head| - 1])
  {
    assert gap != "" ==> (numeral + gap)[|numeral + gap| - 1] == gap[|gap| - 1];
  }

  lemma {:induction false} CoreFound(raw: string, n: int, unit: int,
                                     before: string, numeral: string, gap: string, letters: string, after: string)
    requires WrittenAs(raw, n, unit, before, numeral, gap, letters, after)
    ensures Trim(Upper(raw)) == Core(numeral, gap, letters)
  {
    CoreEnds(numeral, gap, letters, unit);
    RegroupCore(before, numeral, gap, letters, after);
    BlankJoin(gap, after);
    hide Upper, Numeral, NumeralValue, Blank, Names, Trim, Trimmed;
    if letters == "" {
      assert Core(numeral, gap, letters) == numeral;
      TrimFinds(before, numeral, gap + after);
    } else {
      TrimFinds(before, Core(numeral, gap, letters), after);
    }
  }

  lemma {:induction false} CoreRead(numeral: string, gap: string, letters: string, unit: int)
    requires Numeral(numeral) && Blank(gap) && Names(letters, unit)
    ensures var s := Core(numeral, gap, letters);
      UnitOf(s) == (letters, unit) && Trim(TrimSuffix(s, letters)) == numeral
  {
    hide UnitOf, TrimSuffix, Trim, Names, IsSpace, IsDigit;
    NumeralEnds(numeral);
    CoreEnds(numeral, gap, letters, unit);
    hide Numeral, Trimmed, Blank;
    var head := Head(numeral, gap, letters);
    UnitFound(head, letters, unit);
    SuffixOfJoined(head, letters, Core(numeral, gap, letters));
    if letters == "" {
      TrimKeeps(numeral);
    } else {
      assert [] + numeral + gap == head;
      TrimFinds([], numeral, gap);
    }
  }

  lemma ZeroIsZero()
    ensures Numeral("0") && NumeralValue("0") == 0
  {
    assert Value("0"[..0]) == 0;
  }

  /** The overflow test is exact: it refuses a product exactly when it is no int64, so nothing wraps. */
  lemma ScaleExact(n: int, unit: int)
    requires MIN_INT64 <= n <= MAX_INT64 && (unit == 1 || unit == KIB || unit == MIB || unit == GIB || unit == TIB)
    ensures Scale(n, unit) ==
      if n < 0 then Err(NegativeSize) else if n * unit > MAX_INT64 then Err(TooLarge) else Ok(n * unit)
  {
  }

  /** A written size parses to the number it means, or is refused because that number is negative or no int64. */
  lemma {:induction false} WrittenParses(raw: string, n: int, unit: int)
    requires Written(raw, n, unit)
    ensures SizeOf(raw) ==
      if !(MIN_INT64 <= n <= MAX_INT64) then Err(NotASize)
      else if n < 0 then Err(NegativeSize)
      else if n * unit > MAX_INT64 then Err(TooLarge)
      else Ok(n * unit)
  {
    hide Upper, Trim, Blank, UnitOf, TrimSuffix, Value, Scale, Core, SizeOf, IsDigit, IsSpace;
    var before: string, numeral: string, gap: string, letters: string, after: string :|
      WrittenAs(raw, n, unit, before, numeral, gap, letters, after);
    CoreFound(raw, n, unit, before, numeral, gap, letters, after);
    CoreRead(numeral, gap, letters, unit);
    if MIN_INT64 <= n <= MAX_INT64 {
      ScaleExact(n, unit);
    }
    CoreEnds(numeral, gap, letters, unit);
    var s := Core(numeral, gap, letters);
    if s == "0" {
      CoreZero(numeral, gap, letters, unit);
    }
    hide Names, Written;
    SizeByCore(raw, s, letters, unit, numeral);
  }

  lemma CoreZero(numeral: string, gap: string, letters: string, unit: int)
    requires Numeral(numeral) && Names(letters, unit) && Core(numeral, gap, letters) == "0"
    ensures NumeralValue(numeral) == 0
  {
    LettersAreNoDigit(Head(numeral, gap, letters), letters, unit);
    assert numeral + "" == numeral;
    ZeroIsZero();
  }

  lemma LettersAreNoDigit(head: string, letters: string, unit: int)
    requires Names(letters, unit)
    ensures letters == "" || head + letters != "0"
  {
    if letters != "" {
      var s := head + letters;
      assert s[|s| - 1] == letters[|letters| - 1];
    }
  }

  lemma SizeByCore(raw: string, s: string, letters: string, unit: int, numeral: string)
    requires Trim(Upper(raw)) == s && s != "" && UnitOf(s) == (letters, unit) && Trim(TrimSuffix(s, letters)) == numeral
    ensures SizeOf(raw) == if s == "0" then Ok(0) else
      match ParseInt(numeral) case None => Err(NotASize) case Some(n) => Scale(n, unit)
  {
  }

  /** What a size string may mean: nothing at all is zero, and a written size is its exact product. */
  ghost predicate Means(raw: string, v: int) {
    || (Blank(Upper(raw)) && v == 0)
    || exists n: int, unit: int :: Written(raw, n, unit) && 0 <= n && v == n * unit && v <= MAX_INT64
  }

  lemma {:induction false} ParsedMeans(raw: string)
    requires SizeOf(raw).Ok?
    ensures Means(raw, SizeOf(raw).value)
  {
    var s := Trim(Upper(raw));
    var before, after := TrimSplits(Upper(raw));
    TrimBlank(Upper(raw));
    hide Trim, Upper, Blank, Value;
    if s == "" {
    } else if s == "0" {
      ZeroIsZero();
      Ends(before, "0", after);
      assert WrittenAs(raw, 0, 1, before, "0", "", "", after);
      assert Written(raw, 0, 1) && 0 == 0 * 1;
    } else {
      ReadIsWritten(raw, before, s, after);
    }
  }

  lemma BlankIsZero(raw: string)
    requires Blank(Upper(raw))
    ensures SizeOf(raw) == Ok(0)
  {
    TrimBlank(Upper(raw));
  }

  lemma UnitGrows(n: int, unit: int)
    requires 0 <= n && 1 <= unit
    ensures n <= n * unit
  {
    assert 0 <= n * (unit - 1);
  }

  lemma FittingParses(raw: string, n: int, unit: int)
    requires Written(raw, n, unit) && 0 <= n && n * unit <= MAX_INT64
    ensures SizeOf(raw) == Ok(n * unit)
  {
    hide SizeOf, Written;
    UnitAtLeastOne(raw, n, unit);
    UnitGrows(n, unit);
    WrittenParses(raw, n, unit);
  }

  /** ParseSize succeeds on exactly the sizes that fit, and always with the exact product: nothing ever wraps. */
  lemma {:induction false} ParseSizeIff(raw: string, v: int)
    ensures SizeOf(raw) == Ok(v) <==> Means(raw, v)
  {
    hide SizeOf, Written, Blank, Upper;
    if SizeOf(raw) == Ok(v) {
      ParsedMeans(raw);
    }
    if Means(raw, v) {
      if Blank(Upper(raw)) && v == 0 {
        BlankIsZero(raw);
      } else {
        var n: int, unit: int :| Written(raw, n, unit) && 0 <= n && v == n * unit && v <= MAX_INT64;
        FittingParses(raw, n, unit);
      }
    }
  }

  lemma UnitAtLeastOne(raw: string, n: int, unit: int)
    requires Written(raw, n, unit)
    ensures unit >= 1
  {
  }

  lemma Ends(before: string, core: string, after: string)
    ensures before + core + "" + "" + after == before + core + after
    ensures Blank("")
  {
  }

  lemma {:induction false} ReadIsWritten(raw: string, before: string, s: string, after: string)
    requires Upper(raw) == before + s + after && Blank(before) && Blank(after)
    requires Read(TrimSuffix(s, UnitOf(s).0), UnitOf(s).1).Ok?
    ensures exists n: int, unit: int ::
      && Written(raw, n, unit) && 0 <= n
      && Read(TrimSuffix(s, UnitOf(s).0), UnitOf(s).1) == Ok(n * unit) && n * unit <= MAX_INT64
  {
    var letters, unit := UnitOf(s).0, UnitOf(s).1;
    var t := TrimSuffix(s, letters);
    UnitSplits(s);
    var lead, gap := TrimSplits(t);
    var numeral := Trim(t);
    var n := NumeralValue(numeral);
    ScaleExact(n, unit);
    BlankJoin(before, lead);
    Reassemble(before, lead, numeral, gap, letters, after);
    hide Trim, UnitOf, TrimSuffix, Upper, Blank, Value, Scale;
    assert WrittenAs(raw, n, unit, before + lead, numeral, gap, letters, after);
    assert Written(raw, n, unit);
  }

  lemma UnitSplits(s: string)
    ensures var (letters, unit) := UnitOf(s); s == TrimSuffix(s, letters) + letters && Names(letters, unit)
  {
    SuffixSplits(s, "");
    SuffixSplits(s, UnitOf(s).0);
    hide HasSuffix, TrimSuffix;
    assert HasSuffix(s, UnitOf(s).0);
  }

  lemma SuffixSplits(s: string, suffix: string)
    ensures HasSuffix(s, suffix) ==> s == TrimSuffix(s, suffix) + suffix
    ensures HasSuffix(s, "")
  {
  }

  lemma Reassemble(before: string, lead: string, numeral: string, gap: string, letters: string, after: string)
    ensures before + (lead + numeral + gap + letters) + after == before + lead + numeral + gap + letters + after
  {
  }

  lemma PrintedPlain(n: nat)
    ensures var s := Itoa(n); Upper(s) == s && AllDigits(s) && s != ""
  {
    assert forall i | 0 <= i < |Digits(n)| :: IsDigit(Digits(n)[i]);
  }

  lemma ParsedNumeral(s: string, n: int)
    requires ParseInt(s) == Some(n)
    ensures Numeral(s) && NumeralValue(s) == n
  {
  }

  /** ParseSize reads back what strconv prints, for every byte count there is. */
  lemma {:induction false} SizeReadsPrinted(n: int)
    requires 0 <= n <= MAX_INT64
    ensures SizeOf(Itoa(n)) == Ok(n) && Trim(Itoa(n)) == Itoa(n)
  {
    hide Itoa, Digits, Upper, Trim, Numeral, NumeralValue, ParseInt, SizeOf, AllDigits;
    ParsePrinted(n);
    PrintedPlain(n);
    var s := Itoa(n);
    TrimKeeps(s);
    ParsedNumeral(s, n);
    Ends("", s, "");
    assert "" + s + "" == s;
    assert WrittenAs(s, n, 1, "", s, "", "", "");
    assert Written(s, n, 1);
    WrittenParses(s, n, 1);
  }

  /** A printed number and a unit in either case is that many bytes, or too large for an int64. */
  lemma {:induction false} SizeWithUnit(n: int, letters: string, factor: int)
    requires 0 <= n <= MAX_INT64
    requires
      || (factor == 1024 && letters in ["K", "KB", "k", "kb"])
      || (factor == 1024 * 1024 && letters in ["M", "MB", "m", "mb"])
      || (factor == 1024 * 1024 * 1024 && letters in ["G", "GB", "g", "gb"])
      || (factor == 1024 * 1024 * 1024 * 1024 && letters in ["T", "TB", "t", "tb"])
    ensures SizeOf(Itoa(n) + letters) == if n * factor <= MAX_INT64 then Ok(n * factor) else Err(TooLarge)
  {
    LettersName(letters, factor);
    hide *;
    NamedSize(n, letters, factor);
  }

  lemma {:induction false} NamedSize(n: int, letters: string, factor: int)
    requires 0 <= n <= MAX_INT64 && Names(Upper(letters), factor)
    ensures SizeOf(Itoa(n) + letters) == if n * factor <= MAX_INT64 then Ok(n * factor) else Err(TooLarge)
  {
    hide Itoa, Digits, Trim, Numeral, NumeralValue, ParseInt, SizeOf, AllDigits, Upper, Names;
    ParsePrinted(n);
    PrintedPlain(n);
    var s, up := Itoa(n), Upper(letters);
    ParsedNumeral(s, n);
    UpperOf(s, letters);
    Around(s, up);
    assert WrittenAs(s + letters, n, factor, "", s, "", up, "");
    assert Written(s + letters, n, factor);
    WrittenParses(s + letters, n, factor);
  }

  lemma Around(s: string, up: string)
    ensures "" + s + "" + up + "" == s + up && Blank("")
  {
  }

  lemma UpperOf(a: string, b: string)
    ensures Upper(a + b) == Upper(a) + Upper(b)
  {
  }

  lemma LettersName(letters: string, factor: int)
    requires
      || (factor == 1024 && letters in ["K", "KB", "k", "kb"])
      || (factor == 1024 * 1024 && letters in ["M", "MB", "m", "mb"])
      || (factor == 1024 * 1024 * 1024 && letters in ["G", "GB", "g", "gb"])
      || (factor == 1024 * 1024 * 1024 * 1024 && letters in ["T", "TB", "t", "tb"])
    ensures Names(Upper(letters), factor)
  {
    assert Upper("K") == "K" == Upper("k") && Upper("KB") == "KB" == Upper("kb");
    assert Upper("M") == "M" == Upper("m") && Upper("MB") == "MB" == Upper("mb");
    assert Upper("G") == "G" == Upper("g") && Upper("GB") == "GB" == Upper("gb");
    assert Upper("T") == "T" == Upper("t") && Upper("TB") == "TB" == Upper("tb");
  }
}

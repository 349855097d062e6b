/** The string helpers of Go's strings, unicode and strconv packages that the program leans on. */
module Text {
  import opened Basics

  /** unicode.IsSpace. */
  predicate IsSpace(c: char) {
    || '\t' <= c <= '\r'
    || c == ' ' || c == '\U{85}' || c == '\U{A0}' || c == '\U{1680}'
    || '\U{2000}' <= c <= '\U{200A}'
    || c == '\U{2028}' || c == '\U{2029}' || c == '\U{202F}' || c == '\U{205F}' || c == '\U{3000}'
  }

  predicate Blank(s: string) {
    forall i | 0 <= i < |s| :: IsSpace(s[i])
  }

  /** Neither end of s is white space. */
  predicate Trimmed(s: string) {
    s != [] ==> !IsSpace(s[0]) && !IsSpace(s[|s| - 1])
  }

  function TrimLeft(s: string): (r: string)
    ensures r != [] ==> !IsSpace(r[0])
    ensures |r| <= |s| && r == s[|s| - |r|..] && Blank(s[..|s| - |r|])
  {
    if s != [] && IsSpace(s[0]) then TrimLeft(s[1..]) else s
  }

  function TrimRight(s: string): (r: string)
    ensures r != [] ==> !IsSpace(r[|r| - 1])
    ensures r <= s && Blank(s[|r|..])
  {
    if s != [] && IsSpace(s[|s| - 1]) then
      var r := TrimRight(s[..|s| - 1]);
      BlankMore(s, |r|);
      r
    else s
  }

  lemma BlankMore(s: string, n: nat)
    requires n < |s| && Blank(s[..|s| - 1][n..]) && IsSpace(s[|s| - 1])
    ensures Blank(s[n..])
  {
    hide IsSpace;
    assert s[n..] == s[..|s| - 1][n..] + [s[|s| - 1]];
  }

  /** strings.TrimSpace. */
  function Trim(s: string): (r: string)
    ensures Trimmed(r)
    ensures |r| <= |s|
  {
    var l := TrimLeft(s);
    var r := TrimRight(l);
    assert r != [] ==> r[0] == l[0];
    r
  }

  /** The white space Trim takes off, given back. */
  lemma TrimSplits(s: string) returns (l: string, r: string)
    ensures s == l + Trim(s) + r && Blank(l) && Blank(r)
  {
    var t := TrimLeft(s);
    l := s[..|s| - |t|];
    r := t[|TrimRight(t)|..];
    Rejoin(s, |l|, TrimRight(t));
  }

  lemma Rejoin(s: string, n: nat, core: string)
    requires n <= |s| && core <= s[n..]
    ensures s == s[..n] + core + s[n..][|core|..]
  {
  }

  /** Trim finds the core of any text, however it was padded. */
  lemma {:induction false} TrimFinds(l: string, core: string, r: string)
    requires Blank(l) && Blank(r) && Trimmed(core)
    ensures Trim(l + core + r) == core
  {
    assert l + core + r == l + (core + r);
    TrimLeftDrops(l, core + r);
    if core == [] {
      assert core + r == r == r + [];
      TrimLeftDrops(r, []);
    } else {
      assert (core + r)[0] == core[0];
      TrimRightDrops(core, r);
    }
  }

  lemma TrimLeftDrops(l: string, s: string)
    requires Blank(l)
    ensures TrimLeft(l + s) == TrimLeft(s)
  {
    hide IsSpace;
    if l == [] {
      assert l + s == s;
    } else {
      BlankEnds(l);
      hide Blank;
      assert (l + s)[0] == l[0] && (l + s)[1..] == l[1..] + s;
      TrimLeftDrops(l[1..], s);
    }
  }

  lemma BlankEnds(l: string)
    requires Blank(l) && l != []
    ensures IsSpace(l[0]) && Blank(l[1..]) && IsSpace(l[|l| - 1]) && Blank(l[..|l| - 1])
  {
    hide IsSpace;
    assert forall i | 0 <= i < |l[1..]| :: l[1..][i] == l[i + 1];
  }

  lemma TrimRightDrops(s: string, r: string)
    requires Blank(r)
    ensures TrimRight(s + r) == TrimRight(s)
  {
    hide IsSpace;
    if r == [] {
      assert s + r == s;
    } else {
      BlankEnds(r);
      hide Blank;
      assert (s + r)[|s + r| - 1] == r[|r| - 1] && (s + r)[..|s + r| - 1] == s + r[..|r| - 1];
      TrimRightDrops(s, r[..|r| - 1]);
    }
  }

  /** Trimming what is trimmed already changes nothing. */
  lemma TrimKeeps(s: string)
    requires Trimmed(s)
    ensures Trim(s) == s
  {
  }

  lemma TrimBlank(s: string)
    ensures Trim(s) == [] <==> Blank(s)
  {
    var l, r := TrimSplits(s);
    if Blank(s) {
      TrimFinds(s, [], []);
      assert s == s + [] + [];
    } else {
      var i :| 0 <= i < |s| && !IsSpace(s[i]);
      assert |l| <= i < |l| + |Trim(s)|;
    }
  }

  // ---- decimal numerals ----

  predicate IsDigit(c: char) { '0' <= c <= '9' }

  predicate AllDigits(s: string) {
    forall i | 0 <= i < |s| :: IsDigit(s[i])
  }

  /** The number a digit string stands for. */
  function Value(s: string): nat
    requires AllDigits(s)
  {
    if s == [] then 0 else 10 * Value(s[..|s| - 1]) + (s[|s| - 1] as int - '0' as int)
  }

  /** A numeral as strconv reads it: an optional sign, then at least one digit. */
  predicate Numeral(s: string) {
    s != [] && var d := if s[0] == '-' || s[0] == '+' then s[1..] else s; d != [] && AllDigits(d)
  }

  function NumeralValue(s: string): int
    requires Numeral(s)
  {
    if s[0] == '-' then 0 - Value(s[1..]) else if s[0] == '+' then Value(s[1..]) else Value(s)
  }

  /** strconv.ParseInt(s, 10, 64) and, on a 64-bit host, strconv.Atoi. */
  function ParseInt(s: string): Option<int> {
    if Numeral(s) && MIN_INT64 <= NumeralValue(s) <= MAX_INT64 then Some(NumeralValue(s)) else None
  }

  function Digits(n: nat): (s: string)
    ensures s != [] && AllDigits(s)
  {
    if n < 10 then [('0' as int + n) as char] else Digits(n / 10) + [('0' as int + n % 10) as char]
  }

  /** strconv.Itoa and strconv.FormatInt(n, 10). */
  function Itoa(n: int): string {
    if n < 0 then "-" + Digits(-n) else Digits(n)
  }

  lemma {:induction false} ValueOfDigits(n: nat)
    ensures Value(Digits(n)) == n
  {
    if n >= 10 {
      ValueOfDigits(n / 10);
      var s := Digits(n);
      assert s[..|s| - 1] == Digits(n / 10);
    }
  }

  /** Printing and parsing undo each other for every int64. */
  lemma ParsePrinted(n: int)
    requires MIN_INT64 <= n <= MAX_INT64
    ensures ParseInt(Itoa(n)) == Some(n)
    ensures Trimmed(Itoa(n)) && Itoa(n) != []
  {
    var m := if n < 0 then -n else n;
    ValueOfDigits(m);
    if n < 0 {
      assert Itoa(n)[1..] == Digits(m);
      assert Numeral(Itoa(n)) && NumeralValue(Itoa(n)) == n;
    } else {
      assert Numeral(Itoa(n)) && NumeralValue(Itoa(n)) == n;
    }
  }
}

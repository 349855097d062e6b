/** Go strings as the decoder sees them: runes, and bytes that belong to no rune. */
module Runes {

  /**
   * One step of Go's `range` over a string. A byte that starts no valid UTF-8 sequence is a
   * step of its own; every byte string splits into such steps in exactly one way.
   */
  datatype Sym = Rune(c: char) | Stray(b: int)

  type Str = seq<Sym>

  function Lit(s: string): (r: Str)
    ensures |r| == |s|
    ensures forall i | 0 <= i < |s| :: r[i] == Rune(s[i])
  {
    if s == [] then [] else [Rune(s[0])] + Lit(s[1..])
  }

  /** The UTF-8 encoding of a rune (RFC 3629, section 3). */
  function Encode(c: char): (bytes: seq<int>)
    ensures 1 <= |bytes| <= 4
  {
    var n := c as int;
    if n < 0x80 then [n]
    else if n < 0x800 then [0xC0 + n / 0x40, 0x80 + n % 0x40]
    else if n < 0x1_0000 then [0xE0 + n / 0x1000, 0x80 + n / 0x40 % 0x40, 0x80 + n % 0x40]
    else [0xF0 + n / 0x4_0000, 0x80 + n / 0x1000 % 0x40, 0x80 + n / 0x40 % 0x40, 0x80 + n % 0x40]
  }

  function Width(x: Sym): (w: nat)
    ensures 1 <= w <= 4
  {
    if x.Rune? then |Encode(x.c)| else 1
  }

  /** len(s): the number of bytes. */
  function Len(s: Str): (n: nat)
    ensures |s| <= n
  {
    if s == [] then 0 else Width(s[0]) + Len(s[1..])
  }
}

/** Bytes, little-endian words and the result type shared by every other module. */
module Bytes {

  type Byte = b: int | 0 <= b < 256
  type U16 = w: int | 0 <= w < 0x1_0000
  type U32 = d: int | 0 <= d < 0x1_0000_0000

  datatype Option<+T> = None | Some(value: T)

  /** A value, or the refusal the source returns as an error. */
  datatype Result<+T> = Ok(value: T) | Err

  /** The low sixteen bits of an integer, as a Go conversion to uint16 keeps them. */
  function Low16(v: int): (w: U16) { v % 0x1_0000 }

  function Le16(v: U16): (s: seq<Byte>)
    ensures |s| == 2
  {
    [v % 256, v / 256]
  }

  function Le32(v: U32): (s: seq<Byte>)
    ensures |s| == 4
  {
    [v % 256, v / 256 % 256, v / 0x1_0000 % 256, v / 0x100_0000]
  }

  function Word16(s: seq<Byte>): (v: U16)
    requires |s| >= 2
  {
    s[0] as int + 256 * s[1] as int
  }

  function Word32(s: seq<Byte>): (v: U32)
    requires |s| >= 4
  {
    s[0] as int + 256 * s[1] as int + 0x1_0000 * s[2] as int + 0x100_0000 * s[3] as int
  }

  lemma Word16OfLe16(v: U16)
    ensures Word16(Le16(v)) == v
  {
  }

  lemma Word32OfLe32(v: U32)
    ensures Word32(Le32(v)) == v
  {
    var a, b, c := v / 256, v / 0x1_0000, v / 0x100_0000;
    assert b == a / 256;
    assert c == b / 256;
    assert v == v % 256 + 256 * a && a == a % 256 + 256 * b && b == b % 256 + 256 * c;
  }

  function Pow2(n: nat): (p: nat)
    ensures p >= 1
  {
    if n == 0 then 1 else 2 * Pow2(n - 1)
  }

  /** n copies of one byte. */
  function Fill(n: nat, b: Byte): (s: seq<Byte>)
    ensures |s| == n && forall i :: 0 <= i < n ==> s[i] == b
  {
    seq(n, _ => b)
  }

  lemma SliceOfSlice(s: seq<Byte>, a: nat, n: nat, b: nat, m: nat)
    requires a + n <= |s| && b + m <= n
    ensures s[a..a + n][b..b + m] == s[a + b..a + b + m]
  {
    var outer, inner := s[a..a + n], s[a + b..a + b + m];
    assert forall i :: 0 <= i < m ==> outer[b..b + m][i] == inner[i];
  }

  lemma JoinSlices(s: seq<Byte>, a: nat, b: nat, c: nat)
    requires a <= b <= c <= |s|
    ensures s[a..b] + s[b..c] == s[a..c]
  {
  }

  function Min(a: int, b: int): (m: int)
    ensures m <= a && m <= b && (m == a || m == b)
  {
    if a < b then a else b
  }

  function Max(a: int, b: int): int { if a > b then a else b }
}

/** Flash memory: erasing sets every bit, and writing can only clear bits. */
module Flash {
  import opened Bytes

  const ERASED: Byte := 0xff

  /** The bits both numbers have, of the lowest n. */
  function BothBits(a: nat, b: nat, n: nat): (r: nat)
    decreases n
  {
    if n == 0 then 0 else (if a % 2 == 1 && b % 2 == 1 then 1 else 0) + 2 * BothBits(a / 2, b / 2, n - 1)
  }

  function Ones(n: nat): nat { if n == 0 then 0 else 1 + 2 * Ones(n - 1) }

  lemma {:induction false} BothBitsOfOnes(b: nat, n: nat)
    requires b <= Ones(n)
    ensures BothBits(Ones(n), b, n) == b
    decreases n
  {
    if n > 0 {
      assert Ones(n) / 2 == Ones(n - 1) && Ones(n) % 2 == 1;
      BothBitsOfOnes(b / 2, n - 1);
    }
  }

  lemma {:induction false} BothBitsAtMost(a: nat, b: nat, n: nat)
    ensures BothBits(a, b, n) <= b
    decreases n
  {
    if n > 0 {
      BothBitsAtMost(a / 2, b / 2, n - 1);
    }
  }

  /** What a byte of flash holds after b is written over a. */
  function Write1(a: Byte, b: Byte): (r: Byte)
    ensures a == ERASED ==> r == b
  {
    BothBitsAtMost(a, b, 8);
    assert Ones(8) == 255 by { assert Ones(4) == 15; assert Ones(6) == 63; }
    BothBitsOfOnes(b, 8);
    BothBits(a, b, 8)
  }

  lemma {:induction false} BothBitsSwap(a: nat, b: nat, n: nat)
    ensures BothBits(a, b, n) == BothBits(b, a, n)
    decreases n
  {
    if n > 0 {
      BothBitsSwap(a / 2, b / 2, n - 1);
    }
  }

  /** Writing a byte with every bit set changes nothing. */
  lemma WriteErased(a: Byte)
    ensures Write1(a, ERASED) == a
  {
    BothBitsSwap(a, ERASED, 8);
    assert Write1(ERASED, a) == BothBits(ERASED, a, 8);
  }

  /** What flash holds after data is written over was. */
  function WriteOver(was: seq<Byte>, data: seq<Byte>): (r: seq<Byte>)
    requires |was| == |data|
    ensures |r| == |data| && forall i :: 0 <= i < |data| ==> r[i] == Write1(was[i], data[i])
  {
    seq(|data|, i requires 0 <= i < |data| => Write1(was[i], data[i]))
  }

  lemma WriteOverErased(data: seq<Byte>)
    ensures WriteOver(Fill(|data|, ERASED), data) == data
  {
  }

  /** A stretch replaced by other bytes. */
  function Replace(s: seq<Byte>, at: nat, data: seq<Byte>): (r: seq<Byte>)
    requires at + |data| <= |s|
    ensures |r| == |s|
    ensures forall i :: 0 <= i < |s| ==> r[i] == if at <= i < at + |data| then data[i - at] else s[i]
  {
    s[..at] + data + s[at + |data|..]
  }
}

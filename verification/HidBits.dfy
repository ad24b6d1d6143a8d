/**
 Reading a field out of a report: bits are packed low bit first, so a field set to a value reads back
 as that value, and setting it changes no other field of the report.
 */
module HidBits {
  import opened Bytes
  import opened HidDescriptor

  type Bit = b: int | 0 <= b < 2

  // ---- One byte

  /** Bit i of a number: shift right i times and take the lowest. */
  function BitOf(n: nat, i: nat): Bit {
    if i == 0 then n % 2 else BitOf(n / 2, i - 1)
  }

  /** A number with its bit i set to v. */
  function WithBitOf(n: nat, i: nat, v: Bit): (r: nat)
    decreases i
  {
    if i == 0 then n / 2 * 2 + v else n % 2 + 2 * WithBitOf(n / 2, i - 1, v)
  }

  lemma {:induction false} BitOfWithBit(n: nat, i: nat, v: Bit, j: nat)
    ensures BitOf(WithBitOf(n, i, v), j) == if i == j then v else BitOf(n, j)
    decreases i
  {
    if i > 0 && j > 0 {
      BitOfWithBit(n / 2, i - 1, v, j - 1);
    }
  }

  lemma {:induction false} WithBitFits(n: nat, i: nat, v: Bit, width: nat)
    requires n < Pow2(width) && i < width
    ensures WithBitOf(n, i, v) < Pow2(width)
    decreases i
  {
    if i > 0 {
      WithBitFits(n / 2, i - 1, v, width - 1);
    }
  }

  /** A byte with its bit i set to v. */
  function ByteWith(b: Byte, i: nat, v: Bit): (r: Byte)
    requires i < 8
    ensures forall j: nat :: BitOf(r, j) == if i == j then v else BitOf(b, j)
  {
    assert Pow2(8) == 256 by { assert Pow2(3) == 8; assert Pow2(6) == 64; }
    WithBitFits(b, i, v, 8);
    assert forall j: nat :: BitOf(WithBitOf(b, i, v), j) == (if i == j then v else BitOf(b, j)) by {
      forall j: nat { BitOfWithBit(b, i, v, j); }
    }
    WithBitOf(b, i, v)
  }

  // ---- One report

  /** Bit p of a report; past its end there is nothing to read. */
  function BitAt(report: seq<Byte>, p: nat): Bit {
    if p / 8 < |report| then BitOf(report[p / 8], p % 8) else 0
  }

  /** A report with its bit p set to v. */
  function WithBit(report: seq<Byte>, p: nat, v: Bit): (r: seq<Byte>)
    requires p < 8 * |report|
    ensures |r| == |report|
    ensures forall q: nat :: BitAt(r, q) == if q == p then v else BitAt(report, q)
  {
    hide BitOf, ByteWith;
    assert forall q: nat :: q == p <==> q / 8 == p / 8 && q % 8 == p % 8;
    report[p / 8 := ByteWith(report[p / 8], p % 8, v)]
  }

  /** The number the size bits from a position on spell, low bit first. */
  function Value(report: seq<Byte>, at: nat, size: nat): (v: nat)
    ensures v < Pow2(size)
    decreases size
  {
    if size == 0 then 0 else BitAt(report, at) + 2 * Value(report, at + 1, size - 1)
  }

  /** A report whose size bits from a position on spell the low bits of v. */
  function WithValue(report: seq<Byte>, at: nat, size: nat, v: nat): (r: seq<Byte>)
    requires at + size <= 8 * |report|
    ensures |r| == |report|
    decreases size
  {
    if size == 0 then report else WithValue(WithBit(report, at, v % 2), at + 1, size - 1, v / 2)
  }

  /** Setting a run of bits leaves every bit outside it. */
  lemma {:induction false} BitOutside(report: seq<Byte>, at: nat, size: nat, v: nat, p: nat)
    requires at + size <= 8 * |report| && (p < at || at + size <= p)
    ensures BitAt(WithValue(report, at, size, v), p) == BitAt(report, p)
    decreases size
  {
    hide WithBit, BitAt;
    if size > 0 {
      BitOutside(WithBit(report, at, v % 2), at + 1, size - 1, v / 2, p);
    }
  }

  lemma {:induction false} ValueOutside(report: seq<Byte>, at: nat, size: nat, v: nat, p: nat, n: nat)
    requires at + size <= 8 * |report| && (p + n <= at || at + size <= p)
    ensures Value(WithValue(report, at, size, v), p, n) == Value(report, p, n)
    decreases n
  {
    hide WithValue, BitAt;
    if n > 0 {
      BitOutside(report, at, size, v, p);
      ValueOutside(report, at, size, v, p + 1, n - 1);
    }
  }

  lemma {:induction false} ValueSet(report: seq<Byte>, at: nat, size: nat, v: nat)
    requires at + size <= 8 * |report| && v < Pow2(size)
    ensures Value(WithValue(report, at, size, v), at, size) == v
    decreases size
  {
    hide WithBit, BitAt;
    if size > 0 {
      var next := WithBit(report, at, v % 2);
      ValueSet(next, at + 1, size - 1, v / 2);
      BitOutside(next, at + 1, size - 1, v / 2, at);
    }
  }

  /** Bit 0 of a byte is its lowest, and a run of bits is read lowest first, on into the next byte. */
  lemma LowestFirst()
    ensures Value([2, 0], 0, 2) == 2 && Value([0x80, 1], 7, 2) == 3 && Value([0x80, 2], 7, 3) == 5
  {
    assert BitAt([2, 0], 0) == 0 && BitAt([2, 0], 1) == 1;
    assert BitOf(0x80, 7) == 1 && BitOf(1, 0) == 1 && BitOf(2, 0) == 0 && BitOf(2, 1) == 1;
    assert BitAt([0x80, 1], 7) == 1 && BitAt([0x80, 1], 8) == 1;
    assert BitAt([0x80, 2], 7) == 1 && BitAt([0x80, 2], 8) == 0 && BitAt([0x80, 2], 9) == 1;
    hide BitAt, BitOf;
    assert Value([0x80, 1], 9, 0) == 0 && Value([0x80, 2], 10, 0) == 0 && Value([2, 0], 2, 0) == 0;
  }

  // ---- Reading it

  lemma {:induction false} NothingPastTheEnd(report: seq<Byte>, at: nat, size: nat)
    requires at >= 8 * |report|
    ensures Value(report, at, size) == 0
    decreases size
  {
    if size > 0 {
      NothingPastTheEnd(report, at + 1, size - 1);
    }
  }

  /** After i bits, v is what they spell and the rest counts weight times as much. */
  ghost predicate ReadSoFar(report: seq<Byte>, at: nat, size: nat, i: nat, v: nat, weight: nat) {
    i <= size && Value(report, at, size) == v + weight * Value(report, at + i, size - i)
  }

  /** A number with one more bit, which counts weight. */
  function WithNext(v: nat, bit: Bit, weight: nat): nat {
    if bit == 1 then v + weight else v
  }

  lemma ReadNothing(report: seq<Byte>, at: nat, size: nat)
    ensures ReadSoFar(report, at, size, 0, 0, 1)
  {
  }

  lemma TakeBit(report: seq<Byte>, at: nat, size: nat, i: nat, v: nat, weight: nat)
    requires i < size && ReadSoFar(report, at, size, i, v, weight)
    ensures ReadSoFar(report, at, size, i + 1, WithNext(v, BitAt(report, at + i), weight), 2 * weight)
  {
    hide BitAt, Pow2;
    var bit, rest := BitAt(report, at + i), Value(report, at + i + 1, size - i - 1);
    assert weight * (bit + 2 * rest) == weight * bit + 2 * weight * rest;
  }

  lemma ReadAll(report: seq<Byte>, at: nat, size: nat, i: nat, v: nat, weight: nat)
    requires ReadSoFar(report, at, size, i, v, weight) && (i == size || at + i >= 8 * |report|)
    ensures v == Value(report, at, size)
  {
    if i < size {
      NothingPastTheEnd(report, at + i, size - i);
    }
  }

  /** What the source's bit reader returns: nothing for a field it cannot hold in thirty-two bits. */
  function Extracted(report: seq<Byte>, at: nat, size: nat): nat {
    if size == 0 || size > 32 then 0 else Value(report, at, size)
  }

  /**
   A field that begins before the report, as one misplaced by an overflow can: reading it panics, for a
   negative index or a negative shift, unless the report is empty and the reader stops before either.
   */
  predicate Panics(report: seq<Byte>, bitOffset: int, bitSize: nat) {
    1 <= bitSize <= 32 && bitOffset < 0 && (bitOffset <= -8 || report != [])
  }

  /** The source's bit reader: it adds one bit at a time and stops at the end of a short report. */
  method ExtractBits(report: seq<Byte>, bitOffset: int, bitSize: nat) returns (r: Result<nat>)
    ensures r.Err? <==> Panics(report, bitOffset, bitSize)
    ensures r.Ok? ==> r.value == if bitOffset < 0 then 0 else Extracted(report, bitOffset, bitSize)
  {
    if bitSize == 0 || bitSize > 32 { return Ok(0); }
    if bitOffset < 0 {
      return if bitOffset > -8 && report == [] then Ok(0) else Err;
    }
    var v := ExtractFrom(report, bitOffset, bitSize);
    return Ok(v);
  }

  method ExtractFrom(report: seq<Byte>, bitOffset: nat, bitSize: nat) returns (v: nat)
    ensures v == Value(report, bitOffset, bitSize)
  {
    ReadNothing(report, bitOffset, bitSize);
    hide Value, Pow2, ReadSoFar, WithNext;
    v := 0;
    var weight: nat := 1;
    for i := 0 to bitSize
      invariant ReadSoFar(report, bitOffset, bitSize, i, v, weight)
    {
      var bitPos := bitOffset + i;
      if bitPos / 8 >= |report| {
        ReadAll(report, bitOffset, bitSize, i, v, weight);
        return;
      }
      TakeBit(report, bitOffset, bitSize, i, v, weight);
      v, weight := WithNext(v, BitOf(report[bitPos / 8], bitPos % 8), weight), 2 * weight;
    }
    ReadAll(report, bitOffset, bitSize, bitSize, v, weight);
  }

  // ---- Fields

  /** Where slot s of a field starts: a field has one slot, or count of them when it is an array. */
  function SlotAt(f: Field, s: nat): int { f.bitOffset + s * f.bitSize }

  lemma SlotInField(f: Field, s: nat)
    requires s < f.count
    ensures SlotAt(f, s) + f.bitSize <= f.bitOffset + f.Width()
  {
    assert s * f.bitSize + f.bitSize == (s + 1) * f.bitSize;
    assert (s + 1) * f.bitSize <= f.count * f.bitSize;
  }

  lemma SlotsOrdered(f: Field, s: nat, t: nat)
    requires s < t
    ensures SlotAt(f, s) + f.bitSize <= SlotAt(f, t)
  {
    assert s * f.bitSize + f.bitSize == (s + 1) * f.bitSize;
    assert (s + 1) * f.bitSize <= t * f.bitSize;
  }

  /** Two slots of one report, if they are not the same slot, share no bit. */
  lemma SlotsShareNoBit(fields: seq<Field>, j: nat, s: nat, k: nat, t: nat)
    requires WellPlaced(fields) && j < |fields| && s < fields[j].count && OtherSlot(fields, j, s, k, t)
    ensures || SlotAt(fields[j], s) + fields[j].bitSize <= SlotAt(fields[k], t)
            || SlotAt(fields[k], t) + fields[k].bitSize <= SlotAt(fields[j], s)
  {
    hide WellPlaced, SlotAt, Field.Width;
    SlotInField(fields[j], s);
    SlotInField(fields[k], t);
    if j < k {
      FieldsShareNoBit(fields, j, k);
      SlotAfterStart(fields[k], t);
    } else if k < j {
      FieldsShareNoBit(fields, k, j);
      SlotAfterStart(fields[j], s);
    } else if s < t {
      SlotsOrdered(fields[j], s, t);
    } else {
      SlotsOrdered(fields[j], t, s);
    }
  }

  lemma SlotAfterStart(f: Field, s: nat)
    ensures f.bitOffset <= SlotAt(f, s)
  {
  }

  /** Another slot of the same report: of another field, or of the same array. */
  ghost predicate OtherSlot(fields: seq<Field>, j: nat, s: nat, k: nat, t: nat)
    requires j < |fields|
  {
    k < |fields| && t < fields[k].count && (k, t) != (j, s) && fields[k].reportID == fields[j].reportID
  }

  /** What a report says in a slot. */
  function Reading(report: seq<Byte>, f: Field, s: nat): nat
    requires f.bitOffset >= 0
  {
    SlotAfterStart(f, s);
    Extracted(report, SlotAt(f, s), f.bitSize)
  }

  lemma FieldsStartInReport(fields: seq<Field>, k: nat)
    requires WellPlaced(fields) && k < |fields|
    ensures fields[k].bitOffset >= 0
  {
    assert fields[k].bitOffset == Place(fields, k);
  }

  /** Of two reports, the second reads v in slot s of field j and like the first in every other slot. */
  ghost predicate OnlySlotChanged(fields: seq<Field>, j: nat, s: nat, v: nat, before: seq<Byte>, after: seq<Byte>)
    requires j < |fields| && forall k :: 0 <= k < |fields| ==> fields[k].bitOffset >= 0
  {
    && Reading(after, fields[j], s) == v
    && forall k: nat, t: nat :: OtherSlot(fields, j, s, k, t) ==> Reading(after, fields[k], t) == Reading(before, fields[k], t)
  }

  /**
   For every descriptor that parses and declares no more bits than a Go int counts: setting a slot of
   one to thirty-two bits makes it read back as the value set, and every other slot of that report
   reads as before.
   */
  lemma SetSlotReadsBack(desc: seq<Byte>, fields: seq<Field>, report: seq<Byte>, j: nat, s: nat, v: nat)
    requires ParseFrom(desc, 0, START) == Ok(fields) && RoomFor(InputsOf(desc))
    requires j < |fields| && s < fields[j].count && 1 <= fields[j].bitSize <= 32 && v < Pow2(fields[j].bitSize)
    requires SlotAt(fields[j], s) + fields[j].bitSize <= 8 * |report|
    ensures forall k :: 0 <= k < |fields| ==> fields[k].bitOffset >= 0
    ensures SlotAt(fields[j], s) >= 0
    ensures OnlySlotChanged(fields, j, s, v, report, WithValue(report, SlotAt(fields[j], s), fields[j].bitSize, v))
  {
    FieldsFollowOneAnother(desc);
    hide ParseFrom, InputsFrom, RoomFor, SlotAt, WellPlaced, WithValue, Value, Pow2;
    forall k | 0 <= k < |fields|
      ensures fields[k].bitOffset >= 0
    {
      FieldsStartInReport(fields, k);
    }
    SlotAfterStart(fields[j], s);
    var at, size := SlotAt(fields[j], s), fields[j].bitSize;
    ValueSet(report, at, size, v);
    forall k: nat, t: nat | OtherSlot(fields, j, s, k, t)
      ensures Reading(WithValue(report, at, size, v), fields[k], t) == Reading(report, fields[k], t)
    {
      SlotAfterStart(fields[k], t);
      SlotsShareNoBit(fields, j, s, k, t);
      ValueOutside(report, at, size, v, SlotAt(fields[k], t), fields[k].bitSize);
    }
  }
}

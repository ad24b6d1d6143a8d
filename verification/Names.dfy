/**
 Profile and macro names: at most sixteen UTF-16 units, stored high byte first and padded with
 zeros. A name is modelled as its UTF-16 units; a unit that is half of a broken surrogate pair reads
 as U+FFFD, as Go's utf16.Decode gives it.
 */
module Names {
  import opened Bytes

  type Name = seq<U16>

  const NAME_BYTES: nat := 32
  const REPLACEMENT: U16 := 0xfffd

  predicate HighHalf(u: U16) { 0xd800 <= u < 0xdc00 }
  predicate LowHalf(u: U16) { 0xdc00 <= u < 0xe000 }

  /** What a run of stored units reads as: broken surrogates are replaced, everything else is kept. */
  function Readable(units: seq<U16>): (name: Name)
    ensures |name| == |units|
  {
    if units == [] then []
    else if HighHalf(units[0]) && |units| > 1 && LowHalf(units[1]) then units[..2] + Readable(units[2..])
    else if HighHalf(units[0]) || LowHalf(units[0]) then [REPLACEMENT] + Readable(units[1..])
    else [units[0]] + Readable(units[1..])
  }

  /** A name a Go string can hold: its surrogates come in pairs. */
  predicate WellFormed(name: Name) { Readable(name) == name }

  /** A high surrogate is followed by a low one, and a low one follows a high one. */
  predicate PairedAt(name: Name, k: nat)
    requires k < |name|
  {
    && (0xd800 <= name[k] <= 0xdbff ==> k + 1 < |name| && 0xdc00 <= name[k + 1] <= 0xdfff)
    && (0xdc00 <= name[k] <= 0xdfff ==> k > 0 && 0xd800 <= name[k - 1] <= 0xdbff)
  }

  predicate Paired(name: Name) { forall k :: 0 <= k < |name| ==> PairedAt(name, k) }

  lemma {:induction false} PairedIsWellFormed(name: Name)
    ensures WellFormed(name) <==> Paired(name)
  {
    if name == [] {
    } else if HighHalf(name[0]) && |name| > 1 && LowHalf(name[1]) {
      PairedIsWellFormed(name[2..]);
      PairedAfter(name, 2);
      assert Readable(name)[2..] == Readable(name[2..]) && name == name[..2] + name[2..];
    } else if HighHalf(name[0]) || LowHalf(name[0]) {
      assert Readable(name)[0] == REPLACEMENT != name[0];
      assert !PairedAt(name, 0);
    } else {
      PairedIsWellFormed(name[1..]);
      PairedAfter(name, 1);
      assert Readable(name)[1..] == Readable(name[1..]) && name == [name[0]] + name[1..];
    }
  }

  lemma PairedAfter(name: Name, n: nat)
    requires n <= |name|
    requires (n == 1 && !HighHalf(name[0]) && !LowHalf(name[0])) || (n == 2 && HighHalf(name[0]) && LowHalf(name[1]))
    ensures Paired(name[n..]) <==> Paired(name)
  {
    var rest := name[n..];
    forall k | 0 <= k < |rest|
      ensures rest[k] == name[n + k] && (PairedAt(rest, k) <==> PairedAt(name, n + k))
    {
      assert k + 1 < |rest| ==> rest[k + 1] == name[n + k + 1];
      assert k > 0 ==> rest[k - 1] == name[n + k - 1];
    }
    forall k | 0 <= k < |name|
      ensures PairedAt(name, k) <==> k < n || PairedAt(rest, k - n)
    {
      assert k >= n ==> PairedAt(rest, k - n) == PairedAt(name, n + (k - n));
    }
    if Paired(name) {
      forall k | 0 <= k < |rest|
        ensures PairedAt(rest, k)
      {
        assert PairedAt(name, n + k);
      }
    }
  }

  predicate ErasedUnit(u: U16) { u / 256 == 0xff || u % 256 == 0xff }

  /** The units up to the first zero, or None where erased flash is met first. */
  function StoredUnits(raw: seq<Byte>): (units: Option<seq<U16>>)
  {
    if |raw| < 2 then Some([])
    else
      var unit := raw[0] as int * 256 + raw[1];
      if unit == 0 then Some([])
      else if raw[0] == 0xff || raw[1] == 0xff then None
      else
        match StoredUnits(raw[2..])
        case None => None
        case Some(rest) => Some([unit] + rest)
  }

  function DecodeName(raw: seq<Byte>): (name: Name)
    ensures WellFormed(name)
  {
    match StoredUnits(raw)
    case None => []
    case Some(units) =>
      StoredUnitsStorable(raw);
      ReadableUnits(units);
      Readable(units)
  }

  predicate Encodable(name: Name) { |name| <= NAME_BYTES / 2 }

  function UnitBytes(name: Name): (raw: seq<Byte>)
    ensures |raw| == 2 * |name|
  {
    if name == [] then [] else [name[0] / 256, name[0] % 256] + UnitBytes(name[1..])
  }

  function EncodeName(name: Name): (raw: seq<Byte>)
    requires Encodable(name)
    ensures |raw| == NAME_BYTES
  {
    UnitBytes(name) + Fill(NAME_BYTES - 2 * |name|, 0)
  }

  /** A name the stored form can carry: no zero unit, and no byte that reads as erased flash. */
  predicate Storable(name: Name) {
    forall k :: 0 <= k < |name| ==> name[k] != 0 && !ErasedUnit(name[k])
  }

  lemma {:induction false} StoredUnitsOf(name: Name, pad: nat)
    ensures Storable(name) ==> StoredUnits(UnitBytes(name) + Fill(pad, 0)) == Some(name)
    ensures !Storable(name) ==>
              var got := StoredUnits(UnitBytes(name) + Fill(pad, 0));
              got.None? || |got.value| < |name|
  {
    var raw := UnitBytes(name) + Fill(pad, 0);
    if name == [] {
    } else {
      StoredUnitsOf(name[1..], pad);
      assert raw[2..] == UnitBytes(name[1..]) + Fill(pad, 0);
      assert raw[0] == name[0] / 256 && raw[1] == name[0] % 256;
      assert name == [name[0]] + name[1..];
      if Storable(name[1..]) && name[0] != 0 && !ErasedUnit(name[0]) {
        assert forall k :: 0 < k < |name| ==> name[k] == name[1..][k - 1];
      }
      if Storable(name) {
        assert forall k :: 0 <= k < |name| - 1 ==> name[1..][k] == name[k + 1];
      }
    }
  }

  /** A name reads back as it was given exactly when it is storable. */
  lemma NameRoundTrip(name: Name)
    requires Encodable(name) && WellFormed(name)
    ensures DecodeName(EncodeName(name)) == name <==> Storable(name)
  {
    assert name == [] ==> Storable(name);
    hide StoredUnits, UnitBytes, Storable, Readable;
    StoredUnitsOf(name, NAME_BYTES - 2 * |name|);
  }

  lemma {:induction false} ReadableUnits(units: seq<U16>)
    requires Storable(units)
    ensures forall k :: 0 <= k < |units| ==> Readable(units)[k] == units[k] || Readable(units)[k] == REPLACEMENT
    ensures WellFormed(Readable(units))
  {
    if units == [] {
    } else if HighHalf(units[0]) && |units| > 1 && LowHalf(units[1]) {
      assert forall k :: 0 <= k < |units| - 2 ==> units[2..][k] == units[k + 2];
      ReadableUnits(units[2..]);
      var r := Readable(units);
      assert r == units[..2] + Readable(units[2..]);
      assert r[2..] == Readable(units[2..]) && r[0] == units[0] && r[1] == units[1];
      assert r[..2] == units[..2];
    } else {
      assert forall k :: 0 <= k < |units| - 1 ==> units[1..][k] == units[k + 1];
      ReadableUnits(units[1..]);
      var r := Readable(units);
      assert r[1..] == Readable(units[1..]);
    }
  }

  lemma {:induction false} StoredUnitsStorable(raw: seq<Byte>)
    ensures StoredUnits(raw).Some? ==> Storable(StoredUnits(raw).value) && 2 * |StoredUnits(raw).value| <= |raw|
  {
    if |raw| >= 2 {
      StoredUnitsStorable(raw[2..]);
    }
  }

  /**
   What reading a stored name gives: it can be encoded again, and it survives being written back
   exactly when it holds no replacement character, the mark a broken surrogate pair leaves.
   */
  lemma DecodedNameRewrites(raw: seq<Byte>)
    requires |raw| == NAME_BYTES
    ensures Encodable(DecodeName(raw)) && WellFormed(DecodeName(raw))
    ensures DecodeName(EncodeName(DecodeName(raw))) == DecodeName(raw) <==> REPLACEMENT !in DecodeName(raw)
  {
    StoredUnitsStorable(raw);
    match StoredUnits(raw)
    case None =>
      NameRoundTrip([]);
    case Some(units) =>
      ReadableUnits(units);
      var name := Readable(units);
      NameRoundTrip(name);
      if REPLACEMENT in name {
        var k :| 0 <= k < |name| && name[k] == REPLACEMENT;
        assert ErasedUnit(name[k]);
      } else {
        assert forall k :: 0 <= k < |name| ==> name[k] == units[k];
      }
  }

  /** The kth unit of a stored form. */
  function UnitIn(raw: seq<Byte>, k: nat): nat
    requires 2 * k + 1 < |raw|
  {
    raw[2 * k] as int * 256 + raw[2 * k + 1]
  }

  lemma {:induction false} UnitOfBytes(name: Name, k: nat)
    requires k < |name|
    ensures UnitIn(UnitBytes(name), k) == name[k]
  {
    if k > 0 {
      UnitOfBytes(name[1..], k - 1);
      assert UnitBytes(name)[2..] == UnitBytes(name[1..]);
      assert UnitBytes(name)[2 * k] == UnitBytes(name)[2..][2 * (k - 1)] && UnitBytes(name)[2 * k + 1] == UnitBytes(name)[2..][2 * (k - 1) + 1];
    }
  }

  /** A stored form holds the name's units and then zeros. */
  lemma UnitOfName(name: Name, k: nat)
    requires Encodable(name) && k < NAME_BYTES / 2
    ensures UnitIn(EncodeName(name), k) == if k < |name| then name[k] else 0
  {
    if k < |name| {
      UnitOfBytes(name, k);
    }
  }

  /** A name that was read holds no zero unit. */
  lemma DecodedHasNoZero(raw: seq<Byte>)
    ensures forall k :: 0 <= k < |DecodeName(raw)| ==> DecodeName(raw)[k] != 0
  {
    StoredUnitsStorable(raw);
    match StoredUnits(raw)
    case None =>
    case Some(units) => ReadableUnits(units);
  }

  /** Names with the same stored form are as long, but for zeros at an end. */
  lemma NoLonger(a: Name, b: Name)
    requires Encodable(a) && Encodable(b) && EncodeName(a) == EncodeName(b)
    requires forall k :: 0 <= k < |b| ==> b[k] != 0
    ensures |b| <= |a|
  {
    hide EncodeName, UnitIn;
    if |a| < NAME_BYTES / 2 {
      UnitOfName(a, |a|);
      UnitOfName(b, |a|);
    }
  }

  /** Only one name that can be read has the stored form of a storable one. */
  lemma SameStoredName(name: Name, raw: seq<Byte>)
    requires Storable(name) && Encodable(name) && |raw| == NAME_BYTES
    requires Encodable(DecodeName(raw)) && EncodeName(name) == EncodeName(DecodeName(raw))
    ensures name == DecodeName(raw)
  {
    var read := DecodeName(raw);
    DecodedHasNoZero(raw);
    hide DecodeName, EncodeName, UnitIn;
    NoLonger(name, read);
    NoLonger(read, name);
    forall k | 0 <= k < |name|
      ensures name[k] == read[k]
    {
      UnitOfName(name, k);
      UnitOfName(read, k);
    }
  }

  /** A high surrogate alone in a stored name: read as U+FFFD, written back with a byte 0xff, and read as no name. */
  const LONE_SURROGATE: seq<Byte> := [0xd8, 0] + Fill(NAME_BYTES - 2, 0)

  lemma LoneSurrogateLost()
    ensures DecodeName(LONE_SURROGATE) == [REPLACEMENT] && DecodeName(EncodeName([REPLACEMENT])) == []
  {
    var raw := LONE_SURROGATE;
    assert raw[2..] == Fill(NAME_BYTES - 2, 0);
    assert StoredUnits(raw[2..]) == Some([]);
    assert raw[0] == 0xd8 && raw[1] == 0;
    assert StoredUnits(raw) == Some([0xd800] + []);
    assert Readable([0xd800]) == [REPLACEMENT] + Readable([0xd800][1..]);
    var back := EncodeName([REPLACEMENT]);
    assert UnitBytes([REPLACEMENT]) == [0xff, 0xfd] + UnitBytes([REPLACEMENT][1..]);
    assert StoredUnits(back) == None;
  }
}

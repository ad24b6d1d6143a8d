/**
 Macro names of a JP108 keyboard: UTF-16 units, high byte first; a name whose every unit has a zero
 second byte is taken for one an older version stored low byte first.
 */
module JpNames {
  import opened Bytes
  import opened Names

  /** The units stored bytes spell, high byte first; an odd last byte is dropped. */
  function UnitsOf(raw: seq<Byte>): (units: seq<U16>)
    ensures |units| == |raw| / 2
  {
    if |raw| < 2 then [] else [raw[0] as int * 256 + raw[1]] + UnitsOf(raw[2..])
  }

  /** The units before the first zero. */
  function UntilZero(units: seq<U16>): (front: seq<U16>) {
    if units == [] || units[0] == 0 then [] else [units[0]] + UntilZero(units[1..])
  }

  predicate LowFirst(units: seq<U16>) {
    forall k :: 0 <= k < |units| ==> units[k] % 256 == 0 && units[k] / 256 != 0
  }

  function Swapped(units: seq<U16>): (r: seq<U16>)
    ensures |r| == |units|
  {
    seq(|units|, k requires 0 <= k < |units| => units[k] / 256 + 256 * (units[k] % 256))
  }

  function Decode(raw: seq<Byte>): Name {
    var units := UntilZero(UnitsOf(raw));
    if units == [] then [] else Readable(if LowFirst(units) then Swapped(units) else units)
  }

  lemma {:induction false} UnitsOfEncoded(name: Name, pad: nat)
    ensures UntilZero(UnitsOf(UnitBytes(name) + Fill(pad, 0))) == UntilZero(name)
  {
    var raw := UnitBytes(name) + Fill(pad, 0);
    if name == [] {
      assert raw == Fill(pad, 0);
      assert pad >= 2 ==> UnitsOf(raw)[0] == 0;
    } else {
      assert raw[2..] == UnitBytes(name[1..]) + Fill(pad, 0);
      UnitsOfEncoded(name[1..], pad);
      assert raw[0] as int * 256 + raw[1] == name[0];
    }
  }

  lemma {:induction false} UntilZeroIs(name: Name)
    ensures if 0 in name then |UntilZero(name)| < |name| else UntilZero(name) == name
  {
    if name != [] {
      UntilZeroIs(name[1..]);
      assert name == [name[0]] + name[1..];
    }
  }

  /**
   A name reads back as it was given exactly when it has no zero unit and is not one that only looks
   like an old one.
   */
  lemma NameRoundTrip(name: Name, pad: nat)
    requires WellFormed(name)
    ensures Decode(UnitBytes(name) + Fill(pad, 0)) == name <==> 0 !in name && (name == [] || !LowFirst(name))
  {
    UnitsOfEncoded(name, pad);
    UntilZeroIs(name);
    hide UnitsOf, UntilZero, UnitBytes, LowFirst, Swapped, Readable;
    var units := UntilZero(name);
    if units == name && name != [] && LowFirst(name) {
      SwappedDiffers(name);
    }
  }

  lemma SwappedDiffers(units: seq<U16>)
    requires units != [] && LowFirst(units)
    ensures Readable(Swapped(units)) != units
  {
    var s := Swapped(units);
    assert units[0] == 256 * (units[0] / 256);
    assert s[0] == units[0] / 256 < 256;
    assert Readable(s)[0] == s[0];
  }

  /** U+4E00 alone: its units all have a zero low byte, so it is read as U+004E. */
  lemma OneIdeographMisread()
    ensures WellFormed([0x4e00]) && Decode(UnitBytes([0x4e00])) == [0x4e] != [0x4e00]
  {
    var raw := UnitBytes([0x4e00]);
    assert UnitBytes([0x4e00][1..]) == [];
    assert raw == [0x4e, 0];
    assert UnitsOf(raw[2..]) == [];
    assert UnitsOf(raw) == [0x4e00] && UntilZero([0x4e00][1..]) == [];
    assert UntilZero([0x4e00]) == [0x4e00];
    assert Swapped([0x4e00]) == [0x4e];
    assert Readable([0x4e][1..]) == [] && Readable([0x4e]) == [0x4e];
  }
}

/** The record keyboards' layouts, key tables and key assignments. */
module KbTargets {
  import opened Bytes

  /** What differs between the models; everything else about the record is common to them. */
  datatype Layout = Layout(
    macroSlots: nat, macroSlotSize: nat, macroCapacity: nat, macroLimit: nat,
    lights: nat, iso: bool, timers: bool, fewThemes: bool)
  {
    function LightsSize(): nat { LIGHTS_HEAD + 3 * lights + 1 }
  }

  const LIGHTS_HEAD: nat := 9

  const RETRO87 := Layout(10, 4096, 1008, 1008, 91, false, false, false)
  const RETRO87_UK := Layout(10, 4096, 1008, 1008, 92, true, false, false)
  const RETRO68 := Layout(8, 1024, 240, 200, 72, false, true, false)
  const RIVIERA := Layout(8, 1024, 240, 200, 72, false, true, true)

  predicate KnownLayout(l: Layout) { l == RETRO87 || l == RETRO87_UK || l == RETRO68 || l == RIVIERA }

  /** An entry of the key table that is a key; a port button sends nothing until assigned. */
  datatype KeyInfo = KeyInfo(usage: Byte, port: bool)

  const KEY_SLOTS: nat := 120
  const VALUE_FN: U32 := 242
  const VALUE_OFF: U32 := 243

  /** The key at an entry of the key table, if that entry is a key. */
  function KeyAt(l: Layout, i: nat): Option<KeyInfo> {
    var ports := if l.iso then 109 else 108;
    if i < 8 then Some(KeyInfo(0xe0 + i, false))
    else if i == 9 || i == 10 then Some(KeyInfo(0, true))
    else if 12 <= i <= 107 && i != 58 then Some(KeyInfo(i - 8, false))
    else if l.iso && i == 108 then Some(KeyInfo(0x64, false))
    else if ports <= i < ports + 8 then Some(KeyInfo(0, true))
    else None
  }

  /** What a key is assigned to. */
  datatype Target =
    | Default
    | Key(modifier: Byte, key: Byte)
    | Media(usage: U16)
    | Mouse(action: Byte)
    | PlayMacro(slot: int)
    | Off
    | Fn
    | Unknown(rawKind: U32, rawValue: U32)

  const KIND_NONE: U32 := 0
  const KIND_KEY: U32 := 1
  const KIND_MEDIA: U32 := 2
  const KIND_MOUSE: U32 := 3
  const KIND_MACRO: U32 := 4

  const MOUSE_FIRST: Byte := 232
  const MOUSE_LAST: Byte := 241

  predicate Modifier(usage: int) { 0xe0 <= usage <= 0xe7 }

  /** The HID usages that have a name, and so can be sent. */
  predicate NamedUsage(usage: int) {
    0x04 <= usage <= 0x31 || 0x33 <= usage <= 0x63 || usage == 0x65 || 0x68 <= usage <= 0x73 || Modifier(usage)
  }

  predicate MediaKey(usage: int) {
    usage in {234, 233, 226, 205, 182, 181, 394, 402, 547, 112, 111}
  }

  /** A twelve-byte table entry: the key's own code, three more bytes, the target and its kind. */
  function DecodeTarget(l: Layout, entry: seq<Byte>): (t: Target)
    requires |entry| >= 12 && l.macroSlotSize > 0
    ensures t.PlayMacro? ==> 0 <= t.slot < l.macroSlots
  {
    Understood(l, entry[0], Stored(Word32(entry[4..]), Word32(entry[8..])))
  }

  /** A target of kind none or key; None where the value is not one this program understands. */
  function KeyTarget(code: Byte, value: U32, kind: U32): Option<Target> {
    if kind == KIND_NONE && value == code then Some(Default)
    else if value == VALUE_OFF then Some(Off)
    else if value == VALUE_FN then Some(Fn)
    else if Modifier(value) then Some(Key(value, 0))
    else if 4 <= value < 0xe0 then Some(Key(0, value))
    else if value <= 0xffff && Modifier(value % 256) && 4 <= value / 256 < 0xe0 then Some(Key(value % 256, value / 256))
    else None
  }

  datatype Stored = Stored(value: U32, kind: U32)

  /** The target as stored for a key whose own code is `code`; refused where the source refuses it. */
  function Wire(l: Layout, key: KeyInfo, code: Byte, t: Target): Result<Stored>
    requires l.macroSlots * l.macroSlotSize < 0x1_0000_0000
  {
    match t
    case Default => Ok(Stored(code, KIND_NONE))
    case Off => Ok(if key.port then Stored(code, KIND_NONE) else Stored(VALUE_OFF, KIND_KEY))
    case Fn => if l.timers then Err else Ok(Stored(VALUE_FN, KIND_KEY))
    case Key(m, k) =>
      if m != 0 && !Modifier(m) then Err
      else if k != 0 && k != 0x64 && (!NamedUsage(k) || Modifier(k)) then Err
      else if k == 0 && m == 0 then Err
      else if k != 0 && m != 0 then Ok(Stored(k as int * 256 + m as int, KIND_KEY))
      else
        var value: U32 := if k == 0 then m else k;
        Ok(Stored(value, if value == code then KIND_NONE else KIND_KEY))
    case Media(u) => if MediaKey(u) then Ok(Stored(u, KIND_MEDIA)) else Err
    case Mouse(a) => if MOUSE_FIRST <= a <= MOUSE_LAST then Ok(Stored(a, KIND_MOUSE)) else Err
    case PlayMacro(slot) =>
      if 0 <= slot < l.macroSlots then SlotTarget(l, slot) else Err
    case Unknown(_, _) => Err
  }

  function SlotTarget(l: Layout, slot: nat): (r: Result<Stored>)
    requires slot < l.macroSlots && l.macroSlots * l.macroSlotSize < 0x1_0000_0000
    ensures r == Ok(Stored(slot * l.macroSlotSize, KIND_MACRO))
  {
    assert slot * l.macroSlotSize <= l.macroSlots * l.macroSlotSize;
    Ok(Stored(slot * l.macroSlotSize, KIND_MACRO))
  }

  /**
   The form a target reads back in: a key told to be itself is at its default, and a port button
   told to do nothing is at its default too.
   */
  function Normal(key: KeyInfo, code: Byte, t: Target): Target {
    match t
    case Off => if key.port then Default else Off
    case Key(m, k) => if (k == 0 && m == code) || (m == 0 && k == code) then Default else t
    case _ => t
  }

  /** The table entry holding a stored target: the key's own code and the bytes after it are kept. */
  function EntryWith(entry: seq<Byte>, s: Stored): (e: seq<Byte>)
    requires |entry| == 12
    ensures |e| == 12 && e[..4] == entry[..4]
  {
    entry[..4] + Le32(s.value) + Le32(s.kind)
  }

  lemma EntryWords(entry: seq<Byte>, s: Stored)
    requires |entry| == 12
    ensures Word32(EntryWith(entry, s)[4..]) == s.value && Word32(EntryWith(entry, s)[8..]) == s.kind
  {
    var e := EntryWith(entry, s);
    Word32OfLe32(s.value);
    Word32OfLe32(s.kind);
    assert e[4..8] == Le32(s.value) && e[8..] == Le32(s.kind);
    assert e[4..][..4] == e[4..8];
  }

  /** What a stored value and kind read as, for a key whose own code is `code`. */
  function Understood(l: Layout, code: Byte, s: Stored): (t: Target)
    requires l.macroSlotSize > 0
    ensures t.PlayMacro? ==> 0 <= t.slot < l.macroSlots
  {
    var value, kind := s.value, s.kind;
    if (kind == KIND_NONE || kind == KIND_KEY) && KeyTarget(code, value, kind).Some? then
      KeyTarget(code, value, kind).value
    else if kind == KIND_MEDIA && 1 <= value <= 0xffff then Media(value)
    else if kind == KIND_MOUSE && MOUSE_FIRST as int <= value <= MOUSE_LAST as int then Mouse(value)
    else if kind == KIND_MACRO && value % l.macroSlotSize == 0 && value / l.macroSlotSize < l.macroSlots then
      PlayMacro(value / l.macroSlotSize)
    else Unknown(kind, value)
  }

  lemma SlotDivides(slot: nat, size: nat)
    requires size == 4096 || size == 1024
    ensures slot * size % size == 0 && slot * size / size == slot
  {
  }

  lemma KeyUnderstood(l: Layout, key: KeyInfo, code: Byte, m: Byte, k: Byte)
    requires KnownLayout(l) && Wire(l, key, code, Key(m, k)).Ok?
    ensures Understood(l, code, Wire(l, key, code, Key(m, k)).value) == Normal(key, code, Key(m, k))
  {
    if k != 0 && m != 0 {
      var value := k as int * 256 + m as int;
      assert value / 256 == k && value % 256 == m;
    }
  }

  lemma WireUnderstood(l: Layout, key: KeyInfo, code: Byte, t: Target)
    requires KnownLayout(l) && Wire(l, key, code, t).Ok?
    ensures Understood(l, code, Wire(l, key, code, t).value) == Normal(key, code, t)
  {
    match t
    case Key(m, k) => KeyUnderstood(l, key, code, m, k);
    case PlayMacro(slot) => SlotDivides(slot, l.macroSlotSize);
    case _ =>
  }

  /** Every assignment the encoder accepts reads back as its normal form. */
  lemma TargetRoundTrip(l: Layout, key: KeyInfo, entry: seq<Byte>, t: Target)
    requires KnownLayout(l) && |entry| == 12
    requires Wire(l, key, entry[0], t).Ok?
    ensures DecodeTarget(l, EntryWith(entry, Wire(l, key, entry[0], t).value)) == Normal(key, entry[0], t)
  {
    hide Wire, Understood, Normal;
    var s := Wire(l, key, entry[0], t).value;
    EntryWords(entry, s);
    assert EntryWith(entry, s)[0] == entry[..4][0];
    WireUnderstood(l, key, entry[0], t);
  }
}

/** A record keyboard's whole profile: what reading one gives, and what a keyboard without one shows. */
module KbProfile {
  import opened Bytes
  import opened Names
  import opened KbTargets
  import opened KbLighting
  import opened KbCodec
  import KbMacros
  import opened KbDevice

  datatype Profile = Profile(
    inUse: bool, profileOn: bool, fields: Fields, perKey: PerKey, macros: seq<KbMacros.Macro>,
    record: seq<Byte>, lights: seq<Byte>)

  function Played(p: Profile): KbMacros.Played { KbMacros.Played(p.fields.targets, p.macros) }

  // ---- The record of a new profile

  /** Orange, what every theme of a new profile shows. */
  function OrangeByte(j: int): Byte { if j == 0 then 0xff else if j == 1 then 0xa5 else 0 }

  /** A theme section of a new profile: full brightness, speed 8 (stored 3), five lights, orange. */
  function DefaultThemeByte(t: nat, j: nat): Byte
    requires t < THEMES
  {
    var s := SectionOf(t);
    var orangeAt := if t == RIPPLE then s.backdrop else s.colour;
    if j == 0 then 255
    else if j == s.speed then 3
    else if j == s.count then 5
    else if j == s.flag then 1
    else if orangeAt >= 0 && orangeAt <= j < orangeAt + 3 then OrangeByte(j - orangeAt)
    else 0
  }

  function DefaultKeyByte(l: Layout, i: nat, j: nat): Byte {
    match KeyAt(l, i)
    case None => 0
    case Some(key) => if j == 0 || j == 4 then (if key.port then VALUE_OFF else key.usage) else 0
  }

  function InTheme(t: nat, i: nat): bool
    requires t < THEMES
  {
    SectionOf(t).size > 0 && SectionOf(t).offset <= i < SectionOf(t).offset + SectionOf(t).size
  }

  function DefaultLightByte(i: nat, t: nat): Byte
    requires t <= THEMES
    decreases THEMES - t
  {
    if t == THEMES then 0
    else if InTheme(t, i) then DefaultThemeByte(t, i - SectionOf(t).offset)
    else DefaultLightByte(i, t + 1)
  }

  function DefaultByte(l: Layout, current: seq<Byte>, i: nat): Byte
    requires |current| == RECORD_SIZE && i < RECORD_SIZE
  {
    if OFF_PROFILE_ON <= i < OFF_KEYS then current[i]
    else if OFF_KEYS <= i < OFF_LOCKS then DefaultKeyByte(l, (i - OFF_KEYS) / KEY_ENTRY, (i - OFF_KEYS) % KEY_ENTRY)
    else if i == OFF_VOLUME then if l.timers then current[i] else 2
    else if i == OFF_THEME then KEY_RESONANCE
    else if i == OFF_LIGHT_IDLE then 300 % 256
    else if i == OFF_LIGHT_IDLE + 1 then 300 / 256
    else DefaultLightByte(i, 0)
  }

  /** The record a new profile starts as, keeping what a new profile leaves alone. */
  function DefaultRecord(l: Layout, current: seq<Byte>): (r: seq<Byte>)
    requires |current| == RECORD_SIZE
    ensures |r| == RECORD_SIZE
  {
    seq(RECORD_SIZE, i requires 0 <= i < RECORD_SIZE => DefaultByte(l, current, i))
  }

  /** The record a write starts from: the stored one, or the defaults when there is no profile. */
  function Base(l: Layout, record: seq<Byte>): (r: seq<Byte>)
    requires |record| == RECORD_SIZE
    ensures |r| == RECORD_SIZE
  {
    if InUse(record) then record else DefaultRecord(l, record)
  }

  predicate InUse(record: seq<Byte>)
    requires |record| == RECORD_SIZE
  {
    Word32(record) == IN_USE
  }

  /** The macros a reader finds: those in slots some key plays. */
  function HeardMacros(l: Layout, targets: seq<Target>, area: seq<Byte>): (m: seq<KbMacros.Macro>)
    requires KnownLayout(l) && KbMacros.StorageOk(l, area)
    ensures |m| == KbMacros.MACRO_SLOTS_MAX
  {
    seq(KbMacros.MACRO_SLOTS_MAX, s requires 0 <= s < KbMacros.MACRO_SLOTS_MAX =>
      if s < l.macroSlots && KbMacros.FirstPlayer(targets, s).Some? then KbMacros.MacroAt(l, area, s) else KbMacros.EMPTY)
  }

  /** The profile a keyboard with this record, macro storage and colour block shows. */
  function ProfileOf(l: Layout, record: seq<Byte>, area: seq<Byte>, lights: seq<Byte>): Profile
    requires KnownLayout(l) && |record| == RECORD_SIZE && KbMacros.StorageOk(l, area) && BlockOk(l, lights)
  {
    var fields := DecodeFields(l, Base(l, record));
    Profile(InUse(record), record[OFF_PROFILE_ON] == 1, fields, DecodePerKey(l, lights),
            HeardMacros(l, fields.targets, area), record, lights)
  }

  lemma DefaultEntryByte(l: Layout, current: seq<Byte>, i: nat, j: nat)
    requires |current| == RECORD_SIZE && i < KEY_SLOTS && j < KEY_ENTRY
    ensures DefaultRecord(l, current)[OFF_KEYS + i * KEY_ENTRY + j] == DefaultKeyByte(l, i, j)
  {
    hide DefaultLightByte, DefaultKeyByte;
    assert (KEY_ENTRY * i + j) / KEY_ENTRY == i && (KEY_ENTRY * i + j) % KEY_ENTRY == j;
  }

  lemma DefaultKeyEntry(l: Layout, current: seq<Byte>, i: nat)
    requires KnownLayout(l) && |current| == RECORD_SIZE && i < KEY_SLOTS
    ensures DecodeTarget(l, At(DefaultRecord(l, current), KEYS_AT + i)) == Default
  {
    hide DefaultRecord;
    var entry := At(DefaultRecord(l, current), KEYS_AT + i);
    forall j | 0 <= j < KEY_ENTRY
      ensures entry[j] == DefaultKeyByte(l, i, j)
    {
      DefaultEntryByte(l, current, i, j);
    }
    assert forall j :: 0 <= j < 4 ==> entry[4..][j] == entry[4 + j] && entry[8..][j] == entry[8 + j];
  }

  /** A keyboard without a profile is shown with every key as itself and every port button idle. */
  lemma NoProfileShowsDefaults(l: Layout, record: seq<Byte>, area: seq<Byte>, lights: seq<Byte>)
    requires KnownLayout(l) && |record| == RECORD_SIZE && KbMacros.StorageOk(l, area) && BlockOk(l, lights)
    requires !InUse(record)
    ensures var p := ProfileOf(l, record, area, lights);
            !p.inUse && forall i :: 0 <= i < KEY_SLOTS ==> p.fields.targets[i] == Default
  {
    hide DefaultRecord, DecodeTarget, DecodeName, DecodeTheme, ThemeFromWire, LocksOf, At, DecodePerKey, HeardMacros;
    forall i | 0 <= i < KEY_SLOTS
      ensures DecodeFields(l, Base(l, record)).targets[i] == Default
    {
      DefaultKeyEntry(l, record, i);
    }
  }

  // ---- Reading one

  lemma DecodedSlots(l: Layout, shown: seq<Byte>)
    requires KnownLayout(l) && |shown| == RECORD_SIZE
    ensures forall i :: 0 <= i < KEY_SLOTS && DecodeFields(l, shown).targets[i].PlayMacro? ==>
              0 <= DecodeFields(l, shown).targets[i].slot < l.macroSlots
  {
    hide DecodeName, DecodeTarget, DecodeTheme, ThemeFromWire, LocksOf, At;
    forall i | 0 <= i < KEY_SLOTS
      ensures DecodeFields(l, shown).targets[i] == DecodeTarget(l, At(shown, KEYS_AT + i))
    {
    }
  }

  method ReadProfile(k: Keyboard) returns (r: Option<Profile>)
    requires k.Valid()
    ensures r.Some? ==> r.value == ProfileOf(k.layout, k.record, k.macros, k.lights)
    ensures k.sound ==> r.Some?
  {
    hide DecodeFields, Base, DecodePerKey, InUse;
    var l := k.layout;
    var record := ReadChunks(k, RecordArea, 0, RECORD_SIZE);
    if record.None? { return None; }
    var lights := ReadChunks(k, LightsArea, 0, l.LightsSize());
    if lights.None? { return None; }
    assert k.record == k.record[0..RECORD_SIZE] && k.lights == k.lights[0..l.LightsSize()];
    var fields := DecodeFields(l, Base(l, record.value));
    DecodedSlots(l, Base(l, record.value));
    var macros := ReadMacros(k, fields.targets);
    if macros.None? { return None; }
    return Some(Profile(InUse(record.value), record.value[OFF_PROFILE_ON] == 1, fields, DecodePerKey(l, lights.value),
                        macros.value, record.value, lights.value));
  }

  /** Reads the macro of every slot some key plays, each slot once unless it reads as empty. */
  method ReadMacros(k: Keyboard, targets: seq<Target>) returns (r: Option<seq<KbMacros.Macro>>)
    requires k.Valid()
    requires forall i :: 0 <= i < |targets| && targets[i].PlayMacro? ==> 0 <= targets[i].slot < k.layout.macroSlots
    ensures r.Some? ==> r.value == HeardMacros(k.layout, targets, k.macros)
    ensures k.sound ==> r.Some?
  {
    hide KbMacros.MacroAt;
    var l := k.layout;
    var macros := seq(KbMacros.MACRO_SLOTS_MAX, _ => KbMacros.EMPTY);
    for i := 0 to |targets|
      invariant macros == HeardMacros(l, targets[..i], k.macros)
    {
      assert targets[..i + 1][..i] == targets[..i];
      if targets[i].PlayMacro? && macros[targets[i].slot].steps == [] {
        var m := ReadMacro(k, targets[i].slot);
        if m.None? { return None; }
        macros := macros[targets[i].slot := m.value];
      }
    }
    assert targets[..|targets|] == targets;
    return Some(macros);
  }

  /** Reads the macro in a slot; one that holds none reads as an empty macro. */
  method ReadMacro(k: Keyboard, slot: nat) returns (r: Option<KbMacros.Macro>)
    requires k.Valid() && slot < k.layout.macroSlots
    ensures r.Some? ==> r.value == KbMacros.MacroAt(k.layout, k.macros, slot)
    ensures k.sound ==> r.Some?
  {
    hide KbMacros.DecodeMacro, KbMacros.StepCount;
    var l := k.layout;
    KbMacros.SlotFits(l, slot);
    var at := slot * l.macroSlotSize;
    var header := ReadChunks(k, MacroArea, at, KbMacros.HEADER);
    if header.None? { return None; }
    assert header.value == KbMacros.HeaderAt(l, k.macros, slot);
    var count := KbMacros.StepCount(l, header.value);
    if count == 0 { return Some(KbMacros.EMPTY); }
    var steps := ReadChunks(k, MacroArea, at + KbMacros.STEPS_AT, 4 * count);
    if steps.None? { return None; }
    assert steps.value == KbMacros.StepsAt(l, k.macros, slot, count);
    return Some(KbMacros.DecodeMacro(header.value, steps.value));
  }
}

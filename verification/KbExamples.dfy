/** Stored forms as the vendor's application writes them, byte for byte. */
module KbExamples {
  import opened Bytes
  import opened Names
  import opened KbTargets
  import opened KbLighting
  import opened KbCodec
  import opened KbProfile
  import KbMacros

  /** The four layouts: slots, their size, what one holds, how many steps the editor takes, and the lights. */
  lemma Models(l: Layout)
    ensures KnownLayout(l) <==> l == RETRO87 || l == RETRO87_UK || l == RETRO68 || l == RIVIERA
    ensures l == RETRO87 || l == RETRO87_UK ==>
              l.macroSlots == 10 && l.macroSlotSize == 4096 && l.macroCapacity == 1008 && l.macroLimit == 1008 && !l.timers && !l.fewThemes
    ensures l == RETRO68 || l == RIVIERA ==>
              l.macroSlots == 8 && l.macroSlotSize == 1024 && l.macroCapacity == 240 && l.macroLimit == 200 && l.timers && !l.iso
    ensures RETRO87.lights == 91 && RETRO87_UK.lights == 92 && RETRO68.lights == 72 && RIVIERA.lights == 72
    ensures !RETRO87.iso && RETRO87_UK.iso && !RETRO68.fewThemes && RIVIERA.fewThemes
  {
  }

  // ---- The record

  /** Where the settings are: the name, key 12 (A) and the last key, and the single bytes. */
  lemma Places()
    ensures Where(NAME_AT).offset == 0x04 && Where(NAME_AT).length == 32
    ensures Where(KEYS_AT + 12).offset == 0xb8 && Where(KEYS_AT + 119).offset == 0x5bc && Where(KEYS_AT + 119).length == 12
    ensures Where(LOCKS_AT).offset == 0x5c8 && Where(VOLUME_AT).offset == 0x5c9 && Where(THEME_AT).offset == 0x5ca
    ensures Where(SLEEP_AT).offset == 0x26 && Where(LIGHTS_OFF_AT).offset == 0x27
    ensures Where(PER_KEY_AT).offset == 0x5f9 && Where(DYNAMIC_AT).offset == 0x5fa
    ensures Where(THEMES_AT + BREATHING).offset == 0x5da && Where(THEMES_AT + BREATHING).length == 6
  {
  }

  /** The bits of the locks byte: the Windows key beside a bit of no name, Alt+Tab, Alt+F4. */
  lemma LockBits()
    ensures WithLocks(0x80, Locks(true, false, false)) == 0x81
    ensures WithLocks(0, Locks(false, true, false)) == 2 && WithLocks(0, Locks(false, false, true)) == 4
    ensures LocksOf(5) == Locks(true, false, true)
  {
  }

  const A_ENTRY: seq<Byte> := [4, 0, 0, 0, 4, 0, 0, 0, 0, 0, 0, 0]

  /** The A key's entry when it is given Shift+1, nothing, mute, a left click, a macro, or itself. */
  lemma KeyEntries()
    ensures EncodeTarget(RETRO87, 12, A_ENTRY, Key(0xe1, 0x1e)) == Ok([4, 0, 0, 0, 0xe1, 0x1e, 0, 0, 1, 0, 0, 0])
    ensures EncodeTarget(RETRO87, 12, A_ENTRY, Off) == Ok([4, 0, 0, 0, 0xf3, 0, 0, 0, 1, 0, 0, 0])
    ensures EncodeTarget(RETRO87, 12, A_ENTRY, Media(226)) == Ok([4, 0, 0, 0, 0xe2, 0, 0, 0, 2, 0, 0, 0])
    ensures EncodeTarget(RETRO87, 12, A_ENTRY, Mouse(232)) == Ok([4, 0, 0, 0, 0xe8, 0, 0, 0, 3, 0, 0, 0])
    ensures EncodeTarget(RETRO87, 12, A_ENTRY, PlayMacro(2)) == Ok([4, 0, 0, 0, 0, 0x20, 0, 0, 4, 0, 0, 0])
    ensures EncodeTarget(RETRO87, 12, A_ENTRY, Key(0, 4)) == Ok(A_ENTRY)
  {
    hide Le32, EntryWith;
    EntryBytes(A_ENTRY, 0x1ee1, 1, 0xe1, 0x1e);
    EntryBytes(A_ENTRY, 0xf3, 1, 0xf3, 0);
    EntryBytes(A_ENTRY, 226, 2, 0xe2, 0);
    EntryBytes(A_ENTRY, 232, 3, 0xe8, 0);
    EntryBytes(A_ENTRY, 0x2000, 4, 0, 0x20);
    EntryBytes(A_ENTRY, 4, 0, 4, 0);
  }

  lemma EntryBytes(entry: seq<Byte>, value: U32, kind: U32, low: Byte, high: Byte)
    requires |entry| == 12 && value as int == low as int + 256 * high && kind < 5 && entry[1] == entry[2] == entry[3] == 0
    ensures EntryWith(entry, Stored(value, kind)) == [entry[0], 0, 0, 0, low, high, 0, 0, kind, 0, 0, 0]
  {
  }

  /** An entry without a code of its own is filled in: the key's, or a port button's. */
  lemma EmptyEntries()
    ensures EncodeTarget(RETRO87, 13, Fill(12, 0), Off) == Ok([5, 0, 0, 0, 0xf3, 0, 0, 0, 1, 0, 0, 0])
    ensures EncodeTarget(RETRO87, 9, Fill(12, 0), Media(226)) == Ok([0xf3, 0, 0, 0, 0xe2, 0, 0, 0, 2, 0, 0, 0])
  {
    hide Le32, EntryWith;
    EntryBytes(Fill(12, 0)[0 := 5], 0xf3, 1, 0xf3, 0);
    EntryBytes(Fill(12, 0)[0 := 0xf3], 226, 2, 0xe2, 0);
  }

  /** On a French keyboard the key in the A position has Q's code, and is itself when it sends Q. */
  lemma FrenchEntry()
    ensures DecodeTarget(RETRO87_UK, [0x14, 0, 0, 0, 0x14, 0, 0, 0, 0, 0, 0, 0]) == Default
    ensures EncodeTarget(RETRO87_UK, 12, [0x14, 0, 0, 0, 0x14, 0, 0, 0, 0, 0, 0, 0], Key(0, 4))
         == Ok([0x14, 0, 0, 0, 4, 0, 0, 0, 1, 0, 0, 0])
  {
    hide Le32, EntryWith;
    EntryBytes([0x14, 0, 0, 0, 0x14, 0, 0, 0, 0, 0, 0, 0], 4, 1, 4, 0);
  }

  // ---- Lights

  /** Breathing: brightness, speed counted down from ten, a one, then red, green and blue. */
  lemma BreathingStored()
    ensures DecodeTheme(SectionOf(BREATHING), [0xff, 3, 1, 0xff, 0xa5, 0]) == Theme(255, 8, 0, 0, 0xffa500, 0)
    ensures EncodeTheme(SectionOf(BREATHING), [0xff, 3, 1, 0xff, 0xa5, 0], Theme(128, 10, 0, 0, 0x00ff80, 0), Theme(255, 8, 0, 0, 0xffa500, 0))
         == Ok([128, 1, 1, 0x00, 0xff, 0x80])
  {
    var raw: seq<Byte>, e, w := [0xff, 3, 1, 0xff, 0xa5, 0], Theme(128, 10, 0, 0, 0x00ff80, 0), Theme(255, 8, 0, 0, 0xffa500, 0);
    assert raw[0 := 128] == [128, 3, 1, 0xff, 0xa5, 0] && raw[0 := 128][1 := 1] == [128, 1, 1, 0xff, 0xa5, 0];
    assert LightSettings(raw, e, w, 1, -1, -1) == Ok(raw[0 := 128][1 := 1]);
    hide LightSettings;
    var a: seq<Byte>, c: seq<Byte> := [128, 1, 1, 0xff, 0xa5, 0], [128, 1, 1, 0x00, 0xff, 0x80];
    assert PutRgb(a, 3, 0x00ff80) == c && c[2 := 1] == c;
    assert ColourSetting(a, e.color, w.color, 3) == Ok(c) && ColourSetting(c, e.background, w.background, -1) == Ok(c);
  }

  /** A theme's number on the wire: its own, but on a Riviera, where breathing and ripple follow the single colour. */
  lemma ThemeNumbers(l: Layout, theme: int)
    requires KnownLayout(l)
    ensures ThemeToWire(l, theme)
         == if theme < 0 || theme > 7 || (l == RIVIERA && (theme == 4 || theme == 5)) then Err
            else if l == RIVIERA && theme == 6 then Ok(4)
            else if l == RIVIERA && theme == 7 then Ok(5)
            else Ok(theme)
  {
  }

  /** Where a theme has a byte for a chosen colour, an edit stores a one there. */
  lemma ChosenStored(theme: nat, raw: seq<Byte>, e: Theme, w: Theme)
    requires theme < THEMES && |raw| == SectionOf(theme).size && EncodeTheme(SectionOf(theme), raw, e, w).Ok?
    ensures SectionOf(theme).flag == if theme == 3 then 1 else if theme == 2 then 3 else if theme in {1, 6, 7} then 2 else -1
    ensures SectionOf(theme).flag >= 0 ==> EncodeTheme(SectionOf(theme), raw, e, w).value[SectionOf(theme).flag] == 1
  {
    hide LightSettings, ColourSetting;
  }

  /** Every theme's settings in a new profile, one after another from 0x5d0 on. */
  const THEME_BYTES: seq<Byte> := [
    0xff, 1, 0xff, 0xa5, 0,
    0xff, 3,
    0xff, 3, 0,
    0xff, 3, 1, 0xff, 0xa5, 0,
    0xff, 3, 1, 0xff, 0xa5, 0,
    0xff, 3, 1, 0, 0, 0, 0xff, 0xa5, 0,
    0xff, 3, 5, 1, 0, 0, 0, 0xff, 0xa5, 0]

  /** The single settings of a new profile: no locks, volume two, key resonance, three hundred seconds idle, both switches off. */
  lemma NewProfileSettings(current: seq<Byte>)
    requires |current| == RECORD_SIZE
    ensures var r := DefaultRecord(RETRO87, current);
            && r[0x5c8..0x5d0] == [0, 2, 1, 0, 0x2c, 1, 0, 0] && r[0x5f9..] == [0, 0, 0]
  {
    hide DefaultThemeByte, DefaultKeyByte, DefaultLightByte;
    var r := DefaultRecord(RETRO87, current);
    OutOfThemes(0x5c8, 0);
    OutOfThemes(0x5cb, 0);
    OutOfThemes(0x5ce, 0);
    OutOfThemes(0x5cf, 0);
    OutOfThemes(0x5f9, 0);
    OutOfThemes(0x5fa, 0);
    OutOfThemes(0x5fb, 0);
    assert r[0x5c8] == 0 && r[0x5c9] == 2 && r[0x5ca] == 1 && r[0x5cb] == 0;
    assert r[0x5cc] == 0x2c && r[0x5cd] == 1 && r[0x5ce] == 0 && r[0x5cf] == 0;
    assert r[0x5f9] == 0 && r[0x5fa] == 0 && r[0x5fb] == 0;
  }

  lemma {:induction false} OutOfThemes(i: nat, t: nat)
    requires t <= THEMES && (i < 0x5d0 || i >= 0x5f9)
    ensures DefaultLightByte(i, t) == 0
    decreases THEMES - t
  {
    if t < THEMES { OutOfThemes(i, t + 1); }
  }

  lemma NewProfileThemes(current: seq<Byte>)
    requires |current| == RECORD_SIZE
    ensures DefaultRecord(RETRO87, current)[0x5d0..0x5f9] == THEME_BYTES
  {
    var r := DefaultRecord(RETRO87, current);
    forall k | 0 <= k < 41
      ensures r[0x5d0 + k] == THEME_BYTES[k]
    {
      NewThemeByte(k);
      assert DefaultByte(RETRO87, current, 0x5d0 + k) == DefaultLightByte(0x5d0 + k, 0);
    }
  }

  lemma NewThemeByte(k: nat)
    requires k < 41
    ensures DefaultLightByte(0x5d0 + k, 0) == THEME_BYTES[k]
  {
    if k < 16 { EarlyThemeByte(k); } else { LateThemeByte(k); }
  }

  lemma EarlyThemeByte(k: nat)
    requires k < 16
    ensures DefaultLightByte(0x5d0 + k, 0) == THEME_BYTES[k]
  {
    var i := 0x5d0 + k;
    if k < 5 { FirstTheme(i, SINGLE, 0); }
    else if k < 7 { FirstTheme(i, LOOP, 0); }
    else if k < 10 { FirstTheme(i, COLOR_RIPPLE, 0); }
    else { FirstTheme(i, BREATHING, 0); }
    hide DefaultLightByte;
  }

  lemma LateThemeByte(k: nat)
    requires 16 <= k < 41
    ensures DefaultLightByte(0x5d0 + k, 0) == THEME_BYTES[k]
  {
    var i := 0x5d0 + k;
    if k < 22 { FirstTheme(i, RIPPLE, 0); }
    else if k < 31 { FirstTheme(i, KEY_RESONANCE, 0); }
    else { FirstTheme(i, STARLIGHT, 0); }
    hide DefaultLightByte;
  }

  lemma {:induction false} FirstTheme(i: nat, t: nat, m: nat)
    requires m <= t < THEMES && InTheme(t, i)
    ensures DefaultLightByte(i, m) == DefaultThemeByte(t, i - SectionOf(t).offset)
    decreases t - m
  {
    hide DefaultThemeByte;
    if m < t {
      FirstTheme(i, t, m + 1);
    }
  }

  /** What a new profile leaves alone: the profile switch, the byte after it, the timers, and where there are timers the volume. */
  lemma NewProfileKeeps(l: Layout, current: seq<Byte>, i: nat)
    requires KnownLayout(l) && |current| == RECORD_SIZE && i < RECORD_SIZE
    requires 0x24 <= i < 0x28 || (i == 0x5c9 && (l == RETRO68 || l == RIVIERA))
    ensures DefaultRecord(l, current)[i] == current[i]
  {
    hide DefaultLightByte, DefaultKeyByte;
  }

  lemma NewProfileNames(l: Layout, current: seq<Byte>)
    requires |current| == RECORD_SIZE
    ensures DefaultRecord(l, current)[..0x24] == Fill(0x24, 0)
  {
    hide DefaultLightByte, DefaultKeyByte;
    forall i | 0 <= i < 0x24
      ensures DefaultRecord(l, current)[i] == 0
    {
      OutOfThemes(i, 0);
    }
  }

  /** The entries of a new profile: Ctrl, none, a port button, B, the last key, the last port button, none. */
  lemma NewProfileKeys(current: seq<Byte>, j: nat)
    requires |current| == RECORD_SIZE && j < 12
    ensures var r, code := DefaultRecord(RETRO87, current), j == 0 || j == 4;
            && r[0x28 + j] == (if code then 0xe0 else 0) && r[0x28 + 12 * 8 + j] == 0
            && r[0x28 + 12 * 9 + j] == (if code then 0xf3 else 0) && r[0x28 + 12 * 13 + j] == (if code then 5 else 0)
            && r[0x28 + 12 * 107 + j] == (if code then 0x63 else 0) && r[0x28 + 12 * 115 + j] == (if code then 0xf3 else 0)
            && r[0x28 + 12 * 116 + j] == 0
  {
    DefaultEntryByte(RETRO87, current, 0, j);
    DefaultEntryByte(RETRO87, current, 8, j);
    DefaultEntryByte(RETRO87, current, 9, j);
    DefaultEntryByte(RETRO87, current, 13, j);
    DefaultEntryByte(RETRO87, current, 107, j);
    DefaultEntryByte(RETRO87, current, 115, j);
    DefaultEntryByte(RETRO87, current, 116, j);
    hide DefaultRecord;
  }

  // ---- Macros

  /** F1 plays slot three: A down, a tenth of a second, A up, three times with a quarter second between. */
  const TAP := KbMacros.Macro(
    [0x54, 0x61, 0x70],
    [KbMacros.Step(1, 4, 0), KbMacros.Step(3, 0, 100), KbMacros.Step(2, 4, 0)],
    3, 250, 0)

  lemma TapStored()
    ensures KbMacros.EncodeMacro(66, TAP).steps == [1, 4, 0, 0, 3, 0, 100, 0, 2, 4, 0, 0]
    ensures KbMacros.EncodeMacro(66, TAP).header
         == [2, 9, 0x20, 0x20, 0x42, 0, 0x54, 0, 0x61, 0, 0x70] + Fill(26, 0) + [0, 3, 0, 0xfa, 0, 3, 0, 0, 0, 0, 0]
  {
    TapName();
    TapWords();
    TapSteps();
    hide Le16, Le32, KbMacros.NameField, KbMacros.StepsRaw, Low16;
  }

  lemma TapName()
    ensures KbMacros.NameField(TAP.name) == [0, 0x54, 0, 0x61, 0, 0x70] + Fill(26, 0)
  {
    assert UnitBytes([0x70]) == [0, 0x70] + UnitBytes([]);
    assert [0x54, 0x61, 0x70][1..] == [0x61, 0x70] && [0x61, 0x70][1..] == [0x70];
    assert UnitBytes([0x61, 0x70]) == [0, 0x61, 0, 0x70];
  }

  lemma TapWords()
    ensures Le32(KbMacros.IN_USE) == [2, 9, 0x20, 0x20] && Low16(3) == 3 && Low16(250) == 250 && Low16(100) == 100 && Low16(0) == 0
    ensures Le16(3) == [3, 0] && Le16(250) == [0xfa, 0] && Le16(100) == [100, 0] && Le16(0) == [0, 0]
  {
  }

  lemma TapSteps()
    ensures KbMacros.StepsRaw(TAP.steps) == [1, 4, 0, 0, 3, 0, 100, 0, 2, 4, 0, 0]
  {
    TapWords();
    hide Le16, Low16;
    var a, b, c := TAP.steps[0], TAP.steps[1], TAP.steps[2];
    assert TAP.steps[1..] == [b, c] && [b, c][1..] == [c] && [c][1..] == [];
    assert KbMacros.StepsRaw([c]) == [2, 4, 0, 0];
    assert KbMacros.StepsRaw([b, c]) == [3, 0, 100, 0, 2, 4, 0, 0];
  }
}

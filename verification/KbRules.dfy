/** What a record keyboard takes, in plain terms: each setting with its own range, on the models that have it. */
module KbRules {
  import opened Bytes
  import opened Names
  import opened KbTargets
  import opened KbLighting
  import opened KbCodec
  import KbMacros

  // ---- Keys

  /** What a key can be assigned on a model. */
  predicate Sendable(l: Layout, t: Target) {
    match t
    case Default => true
    case Off => true
    case Fn => l == RETRO87 || l == RETRO87_UK
    case Key(m, k) =>
      && (m == 0 || 0xe0 <= m <= 0xe7)
      && (k == 0 || 0x04 <= k <= 0x31 || 0x33 <= k <= 0x65 || 0x68 <= k <= 0x73)
      && (m != 0 || k != 0)
    case Media(u) => u == 234 || u == 233 || u == 226 || u == 205 || u == 182 || u == 181 || u == 394 || u == 402 || u == 547 || u == 112 || u == 111
    case Mouse(a) => 232 <= a <= 241
    case PlayMacro(slot) => 0 <= slot < if l == RETRO87 || l == RETRO87_UK then 10 else 8
    case Unknown(_, _) => false
  }

  lemma WireTakes(l: Layout, key: KeyInfo, code: Byte, t: Target)
    requires KnownLayout(l)
    ensures Wire(l, key, code, t).Ok? <==> Sendable(l, t)
  {
  }

  /** What a value says in an entry for a key: a modifier, a usage, or a modifier below a usage. */
  predicate SaysKey(value: U32) {
    0xe0 <= value <= 0xe7 || 4 <= value < 0xe0 || (0xe0 <= value % 0x100 <= 0xe7 && 4 <= value / 0x100 < 0xe0)
  }

  /** What a stored entry reads as, whatever it holds: by its code, value and kind. */
  lemma EntryReads(l: Layout, code: Byte, value: U32, kind: U32)
    requires KnownLayout(l)
    ensures var t, keys := Understood(l, code, Stored(value, kind)), kind <= 1 && !(kind == 0 && value == code as int);
            && (t.Default? <==> kind == 0 && value == code as int)
            && (t.Off? <==> keys && value == 243)
            && (t.Fn? <==> keys && value == 242)
            && (t.Key? <==> keys && value != 242 && value != 243 && SaysKey(value))
            && (t.Key? ==> value == (if 0xe0 <= value % 0x100 <= 0xe7 then t.modifier as int + 0x100 * t.key as int else t.key as int))
            && (t.Media? <==> kind == 2 && 1 <= value <= 0xffff) && (t.Media? ==> t.usage as int == value)
            && (t.Mouse? <==> kind == 3 && 232 <= value <= 241) && (t.Mouse? ==> t.action as int == value)
  {
  }

  /** An entry plays a macro when its value is the place of one of the model's slots. */
  lemma EntryPlays(l: Layout, code: Byte, value: U32, kind: U32)
    requires KnownLayout(l)
    ensures var t, size, slots := Understood(l, code, Stored(value, kind)), if l == RETRO87 || l == RETRO87_UK then 4096 else 1024,
                                  if l == RETRO87 || l == RETRO87_UK then 10 else 8;
            && (t.PlayMacro? <==> kind == 4 && exists slot: nat :: slot < slots && value == slot * size)
            && (t.PlayMacro? ==> value == t.slot * size)
  {
    var size := l.macroSlotSize;
    if kind == 4 && value % size == 0 { assert value == value / size * size; }
    forall slot: nat | value == slot * size
      ensures value % size == 0 && value / size == slot
    {
      SlotDivides(slot, size);
    }
  }

  /** The entries of the key table that are keys: all but a few up to the port buttons, which the ISO key moves up by one. */
  lemma KeysOfTable(l: Layout, i: nat)
    requires KnownLayout(l)
    ensures KeyAt(l, i).Some? <==> i !in {8, 11, 58} && i < if l == RETRO87_UK then 117 else 116
    ensures KeyAt(l, i).Some? && !KeyAt(l, i).value.port ==>
              KeyAt(l, i).value.usage as int == if i < 8 then 0xe0 + i else if i == 108 then 0x64 else i - 8
    ensures KeyAt(l, i).Some? && KeyAt(l, i).value.port <==> i == 9 || i == 10 || (if l == RETRO87_UK then 109 <= i < 117 else 108 <= i < 116)
  {
  }

  predicate KeyTakes(l: Layout, i: nat, e: Target, w: Target) {
    e == w || (KeyAt(l, i).Some? && Sendable(l, e))
  }

  // ---- Lights

  /** The themes a model has; off has no settings. */
  predicate HasTheme(l: Layout, t: int) { 0 <= t <= 7 && (l == RIVIERA ==> t != LOOP && t != COLOR_RIPPLE) }

  /** Which settings each theme has, and their ranges. */
  predicate ThemeTakes(l: Layout, t: nat, e: Theme, w: Theme) {
    && t != 0 && HasTheme(l, t)
    && (e.brightness == w.brightness || 0 <= e.brightness <= 255)
    && (e.speed == w.speed || (t != SINGLE && 1 <= e.speed <= 10))
    && (e.count == w.count || (t == STARLIGHT && 5 <= e.count <= 100))
    && (e.direction == w.direction || (t == COLOR_RIPPLE && 0 <= e.direction <= 5))
    && (e.color == w.color || (t in {SINGLE, BREATHING, KEY_RESONANCE, STARLIGHT} && e.color <= 0xffffff))
    && (e.background == w.background || (t in {RIPPLE, KEY_RESONANCE, STARLIGHT} && e.background <= 0xffffff))
  }

  lemma LightSettingsTake(raw: seq<Byte>, e: Theme, w: Theme, speed: int, count: int, direction: int)
    requires |raw| > 0 && speed < |raw| && count < |raw| && direction < |raw|
    ensures LightSettings(raw, e, w, speed, count, direction).Ok? <==>
            && (e.brightness == w.brightness || 0 <= e.brightness <= 255)
            && (e.speed == w.speed || (speed >= 0 && 1 <= e.speed <= 10))
            && (e.count == w.count || (count >= 0 && 5 <= e.count <= 100))
            && (e.direction == w.direction || (direction >= 0 && 0 <= e.direction <= 5))
  {
  }

  lemma EncodeThemeTakes(l: Layout, t: nat, raw: seq<Byte>, e: Theme, w: Theme)
    requires KnownLayout(l) && t < THEMES && HasTheme(l, t) && |raw| == SectionOf(t).size
    requires SectionOf(t).size > 0 ==> SectionOk(SectionOf(t))
    ensures EncodeTheme(SectionOf(t), raw, e, w).Ok? <==> ThemeTakes(l, t, e, w)
  {
    var s := SectionOf(t);
    if s.size > 0 {
      LightSettingsTake(raw, e, w, s.speed, s.count, s.direction);
      hide LightSettings;
    }
  }

  /** The per-key colours: their settings and as many colours as the keyboard has lights. */
  lemma PerKeyTakes(l: Layout, block: seq<Byte>, e: PerKey, w: PerKey)
    requires KnownLayout(l) && BlockOk(l, block)
    ensures PerKeyAccepted(l, block, e, w) <==>
            && (e.effect == w.effect || 0 <= e.effect <= 3) && (e.brightness == w.brightness || 0 <= e.brightness <= 255)
            && (e.speed == w.speed || 1 <= e.speed <= 10) && (e.count == w.count || 5 <= e.count <= 100)
            && |e.colors| == (if l == RETRO87 then 91 else if l == RETRO87_UK then 92 else 72)
            && forall i :: 0 <= i < |e.colors| ==> e.colors[i] <= 0xffffff
  {
    if e.effect == w.effect || 0 <= e.effect <= 3 {
      LightSettingsTake(if e.effect != w.effect then block[2 := e.effect] else block, AsTheme(e), AsTheme(w), 3, 4, -1);
    }
    hide LightSettings;
  }

  // ---- Macros

  predicate StepTakes(s: KbMacros.Step) {
    && 0 <= s.millis <= 60000
    && (s.kind == 3
        || ((s.kind == 1 || s.kind == 2)
            && (0x04 <= s.key <= 0x31 || 0x33 <= s.key <= 0x65 || 0x68 <= s.key <= 0x73 || 0xe0 <= s.key <= 0xe7)))
  }

  /** The macros each model can hold. */
  lemma MacroTakes(l: Layout, m: KbMacros.Macro)
    requires KnownLayout(l)
    ensures KbMacros.MacroOk(l, m) <==>
            && 1 <= |m.steps| <= (if l == RETRO87 || l == RETRO87_UK then 1008 else 200)
            && (forall i :: 0 <= i < |m.steps| ==> StepTakes(m.steps[i]))
            && 0 <= m.repeat <= 99 && 0 <= m.interval <= 60000 && |m.name| <= 16
            && (m.mode == 0 || (l != RETRO87 && l != RETRO87_UK && 0 <= m.mode <= 3))
  {
    assert forall i :: 0 <= i < |m.steps| ==> (KbMacros.StepOk(m.steps[i]) <==> StepTakes(m.steps[i]));
    hide KbMacros.StepOk, StepTakes;
  }

  // ---- The whole record

  /** The edit can be stored: a name of one to sixteen units, keys, and every setting in its range where the model has it. */
  predicate EditTakes(l: Layout, e: Fields, w: Fields)
    requires Shaped(e) && Shaped(w)
  {
    && (e.name == w.name || 1 <= |e.name| <= 16)
    && (forall i :: 0 <= i < KEY_SLOTS ==> KeyTakes(l, i, e.targets[i], w.targets[i]))
    && (e.volume == w.volume || 1 <= e.volume <= 5)
    && ((e.sleepMinutes == w.sleepMinutes && e.lightsOffMinutes == w.lightsOffMinutes)
        || ((l == RETRO68 || l == RIVIERA) && e.sleepMinutes in {5, 10, 15, 20, 25, 30} && e.lightsOffMinutes in {5, 10, 15, 20, 25, 30}
            && e.lightsOffMinutes <= e.sleepMinutes))
    && (e.theme == w.theme || HasTheme(l, e.theme))
    && (forall t :: 0 <= t < THEMES ==> e.themes[t] == w.themes[t] || ThemeTakes(l, t, e.themes[t], w.themes[t]))
  }

  /** What one section can store. */
  predicate SectionTakes(l: Layout, e: Fields, w: Fields, n: nat)
    requires Shaped(e) && Shaped(w) && n < SECTIONS
  {
    if n == NAME_AT then e.name == w.name || 1 <= |e.name| <= 16
    else if n < LOCKS_AT then KeyTakes(l, n - KEYS_AT, e.targets[n - KEYS_AT], w.targets[n - KEYS_AT])
    else if THEMES_AT <= n < DYNAMIC_AT then
      e.themes[n - THEMES_AT] == w.themes[n - THEMES_AT] || ThemeTakes(l, n - THEMES_AT, e.themes[n - THEMES_AT], w.themes[n - THEMES_AT])
    else if n == VOLUME_AT then e.volume == w.volume || 1 <= e.volume <= 5
    else if n == SLEEP_AT || n == LIGHTS_OFF_AT then
      (e.sleepMinutes == w.sleepMinutes && e.lightsOffMinutes == w.lightsOffMinutes)
      || ((l == RETRO68 || l == RIVIERA) && e.sleepMinutes in {5, 10, 15, 20, 25, 30} && e.lightsOffMinutes in {5, 10, 15, 20, 25, 30}
          && e.lightsOffMinutes <= e.sleepMinutes)
    else n == THEME_AT ==> e.theme == w.theme || HasTheme(l, e.theme)
  }

  lemma KeySectionTakes(l: Layout, i: nat, at: seq<Byte>, e: Fields, w: Fields)
    requires KnownLayout(l) && Shaped(e) && Shaped(w) && i < KEY_SLOTS && |at| == KEY_ENTRY
    ensures EditKey(l, i, at, e, w).Ok? <==> KeyTakes(l, i, e.targets[i], w.targets[i])
  {
    hide Wire, Sendable, KeyAt;
    if KeyAt(l, i).Some? {
      WireTakes(l, KeyAt(l, i).value, EntryBase(KeyAt(l, i).value, at)[0], e.targets[i]);
    }
  }

  lemma ThemeSectionTakes(l: Layout, t: nat, at: seq<Byte>, e: Fields, w: Fields)
    requires KnownLayout(l) && Shaped(e) && Shaped(w) && t < THEMES && |at| == SectionOf(t).size
    ensures EditTheme(l, t, at, e, w).Ok? <==> e.themes[t] == w.themes[t] || ThemeTakes(l, t, e.themes[t], w.themes[t])
  {
    assert ThemeToWire(l, t).Ok? <==> HasTheme(l, t);
    SectionsOk(t);
    hide EncodeTheme, SectionOf, SectionOk;
    if HasTheme(l, t) { EncodeThemeTakes(l, t, at, e.themes[t], w.themes[t]); }
  }

  lemma ByteSectionTakes(l: Layout, n: nat, at: Byte, e: Fields, w: Fields)
    requires KnownLayout(l) && Shaped(e) && Shaped(w) && ByteSection(n)
    ensures EditByte(l, n, at, e, w).Ok? <==> SectionTakes(l, e, w, n)
  {
    hide WithLocks;
    assert TimersOk(e) <==>
      e.sleepMinutes in {5, 10, 15, 20, 25, 30} && e.lightsOffMinutes in {5, 10, 15, 20, 25, 30} && e.lightsOffMinutes <= e.sleepMinutes;
    assert ThemeToWire(l, e.theme).Ok? <==> HasTheme(l, e.theme);
  }

  lemma TakesBySection(l: Layout, e: Fields, w: Fields)
    requires Shaped(e) && Shaped(w)
    ensures EditTakes(l, e, w) <==> forall n :: 0 <= n < SECTIONS ==> SectionTakes(l, e, w, n)
  {
    hide KeyTakes, ThemeTakes, HasTheme;
    if forall n :: 0 <= n < SECTIONS ==> SectionTakes(l, e, w, n) {
      assert SectionTakes(l, e, w, NAME_AT) && SectionTakes(l, e, w, VOLUME_AT) && SectionTakes(l, e, w, SLEEP_AT);
      assert SectionTakes(l, e, w, THEME_AT);
      forall i | 0 <= i < KEY_SLOTS
        ensures KeyTakes(l, i, e.targets[i], w.targets[i])
      {
        assert SectionTakes(l, e, w, KEYS_AT + i);
      }
      forall t | 0 <= t < THEMES
        ensures e.themes[t] == w.themes[t] || ThemeTakes(l, t, e.themes[t], w.themes[t])
      {
        assert SectionTakes(l, e, w, THEMES_AT + t);
      }
    }
  }

  lemma OneSection(l: Layout, at: seq<Byte>, e: Fields, w: Fields, n: nat)
    requires KnownLayout(l) && Shaped(e) && Shaped(w) && n < SECTIONS && |at| == Where(n).length
    ensures Edit(l, at, e, w, n).Ok? <==> SectionTakes(l, e, w, n)
  {
    hide EditKey, EditTheme, EditByte, KeyTakes, ThemeTakes, EncodeName, SectionTakes;
    if n == NAME_AT {
      NameSectionTakes(l, e, w);
    } else if n < LOCKS_AT {
      KeySectionTakes(l, n - KEYS_AT, at, e, w);
      OtherSectionTakes(l, e, w, n);
    } else if THEMES_AT <= n < DYNAMIC_AT {
      ThemeSectionTakes(l, n - THEMES_AT, at, e, w);
      OtherSectionTakes(l, e, w, n);
    } else {
      ByteSectionTakes(l, n, at[0], e, w);
    }
  }

  lemma NameSectionTakes(l: Layout, e: Fields, w: Fields)
    requires Shaped(e) && Shaped(w)
    ensures SectionTakes(l, e, w, NAME_AT) <==> e.name == w.name || 1 <= |e.name| <= 16
  {
  }

  lemma OtherSectionTakes(l: Layout, e: Fields, w: Fields, n: nat)
    requires Shaped(e) && Shaped(w) && n < SECTIONS
    ensures KEYS_AT <= n < LOCKS_AT ==> (SectionTakes(l, e, w, n) <==> KeyTakes(l, n - KEYS_AT, e.targets[n - KEYS_AT], w.targets[n - KEYS_AT]))
    ensures THEMES_AT <= n < DYNAMIC_AT ==>
              (SectionTakes(l, e, w, n) <==>
               e.themes[n - THEMES_AT] == w.themes[n - THEMES_AT]
               || ThemeTakes(l, n - THEMES_AT, e.themes[n - THEMES_AT], w.themes[n - THEMES_AT]))
  {
    hide KeyTakes, ThemeTakes;
  }

  /** The encoder takes exactly the edits that can be stored, whatever the record holds. */
  lemma RecordTakes(l: Layout, rec: seq<Byte>, e: Fields, w: Fields)
    requires KnownLayout(l) && |rec| == RECORD_SIZE && Shaped(e) && Shaped(w)
    ensures Accepted(l, rec, e, w) <==> EditTakes(l, e, w)
  {
    TakesBySection(l, e, w);
    hide EditTakes, Edit, SectionTakes, Where, At;
    forall n | 0 <= n < SECTIONS
      ensures SectionAccepted(l, rec, e, w, n) <==> SectionTakes(l, e, w, n)
    {
      OneSection(l, At(rec, n), e, w, n);
    }
  }
}

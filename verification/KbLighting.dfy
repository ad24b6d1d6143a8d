/** The record keyboards' lighting: theme sections of the record, and the per-key colour block. */
module KbLighting {
  import opened Bytes
  import opened KbTargets

  const THEMES: nat := 8

  /** A theme's settings; one it does not have reads as zero. Colours are 0xRRGGBB. */
  datatype Theme = Theme(
    brightness: int, speed: int, count: int, direction: int, color: U32, background: U32)

  const NO_THEME := Theme(0, 0, 0, 0, 0, 0)

  /** Where a theme's settings are, and where each one is in its section (-1: it has none). */
  datatype Section = Section(
    offset: nat, size: nat, speed: int, count: int, direction: int, flag: int, colour: int, backdrop: int)

  const KEY_RESONANCE := 1
  const STARLIGHT := 2
  const SINGLE := 3
  const LOOP := 4
  const COLOR_RIPPLE := 5
  const BREATHING := 6
  const RIPPLE := 7

  function SectionOf(theme: nat): Section
    requires theme < THEMES
  {
    if theme == SINGLE then Section(0x5d0, 5, -1, -1, -1, 1, 2, -1)
    else if theme == LOOP then Section(0x5d5, 2, 1, -1, -1, -1, -1, -1)
    else if theme == COLOR_RIPPLE then Section(0x5d7, 3, 1, -1, 2, -1, -1, -1)
    else if theme == BREATHING then Section(0x5da, 6, 1, -1, -1, 2, 3, -1)
    else if theme == RIPPLE then Section(0x5e0, 6, 1, -1, -1, 2, -1, 3)
    else if theme == KEY_RESONANCE then Section(0x5e6, 9, 1, -1, -1, 2, 6, 3)
    else if theme == STARLIGHT then Section(0x5ef, 10, 1, 2, -1, 3, 7, 4)
    else Section(0, 0, -1, -1, -1, -1, -1, -1)
  }

  /** Each setting is inside the section, and no two share a byte. */
  predicate SectionOk(s: Section) {
    && s.size > 0
    && -1 <= s.speed < s.size && s.speed != 0
    && -1 <= s.count < s.size && s.count != 0 && (s.count >= 0 ==> s.count != s.speed)
    && -1 <= s.direction < s.size && s.direction != 0
    && (s.direction >= 0 ==> s.direction != s.speed && s.direction != s.count)
    && -1 <= s.flag < s.size && s.flag != 0
    && (s.flag >= 0 ==> s.flag != s.speed && s.flag != s.count && s.flag != s.direction)
    && (s.colour >= 0 ==>
          s.colour > 0 && s.colour > Max(Max(s.speed, s.count), Max(s.direction, s.flag)) && s.colour + 3 <= s.size)
    && (s.backdrop >= 0 ==>
          s.backdrop > 0 && s.backdrop > Max(Max(s.speed, s.count), Max(s.direction, s.flag)) && s.backdrop + 3 <= s.size)
    && (s.colour >= 0 && s.backdrop >= 0 ==> s.colour + 3 <= s.backdrop || s.backdrop + 3 <= s.colour)
  }

  function Rgb(raw: seq<Byte>, at: nat): (c: U32)
    requires at + 3 <= |raw|
    ensures c <= 0xffffff
  {
    raw[at] as int * 0x1_0000 + raw[at + 1] as int * 256 + raw[at + 2] as int
  }

  function PutRgb(raw: seq<Byte>, at: nat, c: U32): (r: seq<Byte>)
    requires at + 3 <= |raw|
    ensures |r| == |raw|
    ensures forall i :: 0 <= i < |raw| && !(at <= i < at + 3) ==> r[i] == raw[i]
  {
    raw[at := c / 0x1_0000 % 256][at + 1 := c / 256 % 256][at + 2 := c % 256]
  }

  lemma RgbOfPutRgb(raw: seq<Byte>, at: nat, c: U32)
    requires at + 3 <= |raw| && c <= 0xffffff
    ensures Rgb(PutRgb(raw, at, c), at) == c
  {
    var a, b := c / 256, c / 0x1_0000;
    assert b == a / 256 && b < 256;
  }

  function DecodeTheme(s: Section, raw: seq<Byte>): Theme
    requires s.size > 0 ==> SectionOk(s) && |raw| == s.size
  {
    if s.size == 0 then NO_THEME
    else
      Theme(
        raw[0],
        if s.speed >= 0 then 11 - raw[s.speed] as int else 0,
        if s.count >= 0 then raw[s.count] else 0,
        if s.direction >= 0 then raw[s.direction] else 0,
        if s.colour >= 0 then Rgb(raw, s.colour) else 0,
        if s.backdrop >= 0 then Rgb(raw, s.backdrop) else 0)
  }

  /** One setting: kept when unchanged, refused when the theme has none or it is out of range. */
  function Setting(raw: seq<Byte>, value: int, was: int, at: int, low: int, high: int, stored: int): (r: Result<seq<Byte>>)
    requires at < |raw| && (low <= value <= high ==> 0 <= stored < 256)
    ensures r.Ok? ==> |r.value| == |raw|
    ensures r.Ok? && value == was ==> r.value == raw
    ensures r.Ok? && value != was ==> 0 <= at && low <= value <= high && r.value == raw[at := stored]
  {
    if value == was then Ok(raw)
    else if at < 0 || value < low || value > high then Err
    else Ok(raw[at := stored])
  }

  /** Brightness, speed, light count and direction, into the section's bytes. */
  function LightSettings(raw: seq<Byte>, e: Theme, w: Theme, speed: int, count: int, direction: int): (r: Result<seq<Byte>>)
    requires |raw| > 0 && speed < |raw| && count < |raw| && direction < |raw|
    ensures r.Ok? ==> |r.value| == |raw|
  {
    match Setting(raw, e.brightness, w.brightness, 0, 0, 255, e.brightness)
    case Err => Err
    case Ok(a) =>
      match Setting(a, e.speed, w.speed, speed, 1, 10, 11 - e.speed)
      case Err => Err
      case Ok(b) =>
        match Setting(b, e.count, w.count, count, 5, 100, e.count)
        case Err => Err
        case Ok(c) => Setting(c, e.direction, w.direction, direction, 0, 5, e.direction)
  }

  function ColourSetting(raw: seq<Byte>, value: U32, was: U32, at: int): (r: Result<seq<Byte>>)
    requires at < 0 || at + 3 <= |raw|
    ensures r.Ok? ==> |r.value| == |raw|
  {
    if value == was then Ok(raw)
    else if at < 0 || value > 0xffffff then Err
    else Ok(PutRgb(raw, at, value))
  }

  /** A theme's section holding `e`, starting from its stored bytes, which decode to `w`. */
  function EncodeTheme(s: Section, raw: seq<Byte>, e: Theme, w: Theme): (r: Result<seq<Byte>>)
    requires s.size > 0 ==> SectionOk(s) && |raw| == s.size
    ensures r.Ok? ==> s.size > 0 && |r.value| == s.size
  {
    if s.size == 0 then Err
    else
      match LightSettings(raw, e, w, s.speed, s.count, s.direction)
      case Err => Err
      case Ok(a) =>
        match ColourSetting(a, e.color, w.color, s.colour)
        case Err => Err
        case Ok(b) =>
          match ColourSetting(b, e.background, w.background, s.backdrop)
          case Err => Err
          case Ok(c) => Ok(if s.flag >= 0 then c[s.flag := 1] else c)
  }

  lemma SectionsOk(theme: nat)
    requires theme < THEMES
    ensures SectionOf(theme).size > 0 ==> SectionOk(SectionOf(theme))
  {
  }

  lemma LightSettingsRead(raw: seq<Byte>, e: Theme, w: Theme, speed: int, count: int, direction: int)
    requires |raw| > 0 && speed < |raw| && count < |raw| && direction < |raw|
    requires speed != 0 && count != 0 && direction != 0
    requires speed >= 0 ==> speed != count && speed != direction
    requires count >= 0 ==> count != direction
    requires w.brightness == raw[0]
    requires w.speed == if speed >= 0 then 11 - raw[speed] as int else 0
    requires w.count == if count >= 0 then raw[count] as int else 0
    requires w.direction == if direction >= 0 then raw[direction] as int else 0
    requires LightSettings(raw, e, w, speed, count, direction).Ok?
    ensures var r := LightSettings(raw, e, w, speed, count, direction).value;
            && e.brightness == r[0]
            && e.speed == (if speed >= 0 then 11 - r[speed] as int else 0)
            && e.count == (if count >= 0 then r[count] as int else 0)
            && e.direction == (if direction >= 0 then r[direction] as int else 0)
            && forall i :: 0 <= i < |raw| && i != 0 && i != speed && i != count && i != direction ==> r[i] == raw[i]
  {
    var a := Setting(raw, e.brightness, w.brightness, 0, 0, 255, e.brightness).value;
    var b := Setting(a, e.speed, w.speed, speed, 1, 10, 11 - e.speed).value;
    var c := Setting(b, e.count, w.count, count, 5, 100, e.count).value;
  }

  lemma ColourSettingRead(raw: seq<Byte>, value: U32, was: U32, at: int)
    requires at < 0 || at + 3 <= |raw|
    requires was == if at >= 0 then Rgb(raw, at) else 0
    requires ColourSetting(raw, value, was, at).Ok?
    ensures value == if at >= 0 then Rgb(ColourSetting(raw, value, was, at).value, at) else 0
    ensures forall i :: 0 <= i < |raw| && !(0 <= at <= i < at + 3) ==> ColourSetting(raw, value, was, at).value[i] == raw[i]
  {
    if value != was {
      RgbOfPutRgb(raw, at, value);
    }
  }

  lemma RgbSame(a: seq<Byte>, b: seq<Byte>, at: nat)
    requires at + 3 <= |a| == |b|
    requires a[at] == b[at] && a[at + 1] == b[at + 1] && a[at + 2] == b[at + 2]
    ensures Rgb(a, at) == Rgb(b, at)
  {
  }

  /** The bytes hold every setting of a theme. */
  predicate Shows(s: Section, d: seq<Byte>, e: Theme)
    requires SectionOk(s) && |d| == s.size
  {
    ShowsSettings(s, d, e) && ShowsColours(s, d, e)
  }

  predicate ShowsSettings(s: Section, d: seq<Byte>, e: Theme)
    requires SectionOk(s) && |d| == s.size
  {
    && e.brightness == d[0]
    && e.speed == (if s.speed >= 0 then 11 - d[s.speed] as int else 0)
    && e.count == (if s.count >= 0 then d[s.count] as int else 0)
    && e.direction == (if s.direction >= 0 then d[s.direction] as int else 0)
  }

  predicate ShowsColours(s: Section, d: seq<Byte>, e: Theme)
    requires SectionOk(s) && |d| == s.size
  {
    && e.color == (if s.colour >= 0 then Rgb(d, s.colour) else 0)
    && e.background == (if s.backdrop >= 0 then Rgb(d, s.backdrop) else 0)
  }

  /** Setting one colour leaves the other, and every other setting, as it was. */
  lemma ColoursRead(s: Section, a: seq<Byte>, e: Theme, w: Theme)
    requires SectionOk(s) && |a| == s.size && ShowsColours(s, a, w)
    requires ColourSetting(a, e.color, w.color, s.colour).Ok?
    requires ColourSetting(ColourSetting(a, e.color, w.color, s.colour).value, e.background, w.background, s.backdrop).Ok?
    ensures var c := ColourSetting(ColourSetting(a, e.color, w.color, s.colour).value, e.background, w.background, s.backdrop).value;
            && ShowsColours(s, c, e)
            && (forall i :: 0 <= i <= Max(0, Max(Max(s.speed, s.count), Max(s.direction, s.flag))) ==> c[i] == a[i])
  {
    hide ColourSetting;
    ColourSettingRead(a, e.color, w.color, s.colour);
    var b := ColourSetting(a, e.color, w.color, s.colour).value;
    if s.backdrop >= 0 { RgbSame(b, a, s.backdrop); }
    ColourSettingRead(b, e.background, w.background, s.backdrop);
    var c := ColourSetting(b, e.background, w.background, s.backdrop).value;
    if s.colour >= 0 { RgbSame(c, b, s.colour); }
  }

  lemma FlagKeeps(s: Section, c: seq<Byte>, e: Theme)
    requires SectionOk(s) && |c| == s.size && Shows(s, c, e)
    ensures Shows(s, if s.flag >= 0 then c[s.flag := 1] else c, e)
  {
    if s.flag >= 0 {
      var d: seq<Byte> := c[s.flag := 1];
      if s.colour >= 0 { RgbSame(d, c, s.colour); }
      if s.backdrop >= 0 { RgbSame(d, c, s.backdrop); }
    }
  }

  lemma SettingsKeepColours(s: Section, raw: seq<Byte>, a: seq<Byte>, w: Theme)
    requires SectionOk(s) && |raw| == |a| == s.size && ShowsColours(s, raw, w)
    requires forall i :: 0 <= i < |raw| && i != 0 && i != s.speed && i != s.count && i != s.direction ==> a[i] == raw[i]
    ensures ShowsColours(s, a, w)
  {
    if s.colour >= 0 { RgbSame(a, raw, s.colour); }
    if s.backdrop >= 0 { RgbSame(a, raw, s.backdrop); }
  }

  lemma DecodedShows(s: Section, d: seq<Byte>, e: Theme)
    requires SectionOk(s) && |d| == s.size
    ensures Shows(s, d, e) <==> DecodeTheme(s, d) == e
  {
  }

  lemma SettingsShow(s: Section, raw: seq<Byte>, e: Theme, w: Theme)
    requires SectionOk(s) && |raw| == s.size && Shows(s, raw, w)
    requires LightSettings(raw, e, w, s.speed, s.count, s.direction).Ok?
    ensures ShowsSettings(s, LightSettings(raw, e, w, s.speed, s.count, s.direction).value, e)
    ensures ShowsColours(s, LightSettings(raw, e, w, s.speed, s.count, s.direction).value, w)
  {
    hide LightSettings, Rgb;
    LightSettingsRead(raw, e, w, s.speed, s.count, s.direction);
    SettingsKeepColours(s, raw, LightSettings(raw, e, w, s.speed, s.count, s.direction).value, w);
  }

  lemma ColoursShow(s: Section, a: seq<Byte>, e: Theme, w: Theme, c: seq<Byte>)
    requires SectionOk(s) && |a| == |c| == s.size && ShowsSettings(s, a, e) && ShowsColours(s, a, w)
    requires ColourSetting(a, e.color, w.color, s.colour).Ok?
    requires ColourSetting(ColourSetting(a, e.color, w.color, s.colour).value, e.background, w.background, s.backdrop) == Ok(c)
    ensures Shows(s, c, e)
  {
    hide ColourSetting, ShowsColours;
    ColoursRead(s, a, e, w);
  }

  /** Every theme edit the encoder accepts reads back as edited, in every setting. */
  lemma ThemeRoundTrip(s: Section, raw: seq<Byte>, e: Theme)
    requires SectionOk(s) && |raw| == s.size
    requires EncodeTheme(s, raw, e, DecodeTheme(s, raw)).Ok?
    ensures DecodeTheme(s, EncodeTheme(s, raw, e, DecodeTheme(s, raw)).value) == e
  {
    hide DecodeTheme, LightSettings, ColourSetting, Shows, ShowsSettings, ShowsColours;
    var w := DecodeTheme(s, raw);
    DecodedShows(s, raw, w);
    SettingsShow(s, raw, e, w);
    var a := LightSettings(raw, e, w, s.speed, s.count, s.direction).value;
    var b := ColourSetting(a, e.color, w.color, s.colour).value;
    var c := ColourSetting(b, e.background, w.background, s.backdrop).value;
    ColoursShow(s, a, e, w, c);
    FlagKeeps(s, c, e);
    DecodedShows(s, EncodeTheme(s, raw, e, w).value, e);
  }

  // ---- The theme in use, as numbered on the wire

  function ThemeFromWire(l: Layout, stored: Byte): int {
    if l.fewThemes && (stored == 4 || stored == 5) then stored as int + 2 else stored
  }

  function ThemeToWire(l: Layout, theme: int): Result<Byte> {
    if !(0 <= theme < THEMES) then Err
    else if !l.fewThemes then Ok(theme)
    else if theme == LOOP || theme == COLOR_RIPPLE then Err
    else if theme == BREATHING || theme == RIPPLE then Ok(theme - 2)
    else Ok(theme)
  }

  /** The keyboards without two of the themes number the rest without gaps, and nothing is confused. */
  lemma ThemeNumberRoundTrip(l: Layout, theme: int)
    requires ThemeToWire(l, theme).Ok?
    ensures ThemeFromWire(l, ThemeToWire(l, theme).value) == theme
  {
  }

  // ---- The per-key colour block

  datatype PerKey = PerKey(effect: int, brightness: int, speed: int, count: int, colors: seq<U32>)

  predicate BlockOk(l: Layout, block: seq<Byte>) { |block| == l.LightsSize() }

  function DecodePerKey(l: Layout, block: seq<Byte>): PerKey
    requires BlockOk(l, block)
  {
    PerKey(block[2], block[0], 11 - block[3] as int, block[4],
           seq(l.lights, i requires 0 <= i < l.lights => Rgb(block, LIGHTS_HEAD + 3 * i)))
  }

  function AsTheme(p: PerKey): Theme { Theme(p.brightness, p.speed, p.count, 0, 0, 0) }

  predicate PerKeyAccepted(l: Layout, block: seq<Byte>, e: PerKey, w: PerKey)
    requires BlockOk(l, block)
  {
    && (e.effect != w.effect ==> 0 <= e.effect <= 3)
    && LightSettings(if e.effect != w.effect then block[2 := e.effect] else block, AsTheme(e), AsTheme(w), 3, 4, -1).Ok?
    && |e.colors| == l.lights
    && forall i :: 0 <= i < |e.colors| ==> e.colors[i] <= 0xffffff
  }

  /** The block with the first n colours set. */
  function WithColors(block: seq<Byte>, colors: seq<U32>, n: nat): (r: seq<Byte>)
    requires n <= |colors| && LIGHTS_HEAD + 3 * |colors| < |block|
    ensures |r| == |block|
    ensures forall i :: 0 <= i < |block| && !(LIGHTS_HEAD <= i < LIGHTS_HEAD + 3 * n) ==> r[i] == block[i]
  {
    if n == 0 then block else PutRgb(WithColors(block, colors, n - 1), LIGHTS_HEAD + 3 * (n - 1), colors[n - 1])
  }

  lemma {:induction false} WithColorsRead(block: seq<Byte>, colors: seq<U32>, n: nat, i: nat)
    requires i < n <= |colors| && LIGHTS_HEAD + 3 * |colors| < |block| && colors[i] <= 0xffffff
    ensures Rgb(WithColors(block, colors, n), LIGHTS_HEAD + 3 * i) == colors[i]
  {
    if i == n - 1 {
      RgbOfPutRgb(WithColors(block, colors, n - 1), LIGHTS_HEAD + 3 * i, colors[i]);
    } else {
      WithColorsRead(block, colors, n - 1, i);
    }
  }

  /** The colour block holding an edit, as a function of the stored one. */
  function PerKeyBlock(l: Layout, stored: seq<Byte>, e: PerKey, w: PerKey): (block: seq<Byte>)
    requires BlockOk(l, stored) && PerKeyAccepted(l, stored, e, w)
    ensures BlockOk(l, block)
  {
    var a := if e.effect != w.effect then stored[2 := e.effect] else stored;
    var b := LightSettings(a, AsTheme(e), AsTheme(w), 3, 4, -1).value;
    WithColors(b, e.colors, l.lights)[1 := 1][l.LightsSize() - 1 := 1]
  }

  /** Builds the colour block step by step, refusing what the block cannot hold. */
  method EncodePerKey(l: Layout, stored: seq<Byte>, e: PerKey, w: PerKey) returns (r: Result<seq<Byte>>)
    requires BlockOk(l, stored)
    ensures r.Ok? <==> PerKeyAccepted(l, stored, e, w)
    ensures r.Ok? ==> r.value == PerKeyBlock(l, stored, e, w)
  {
    var block := stored;
    if e.effect != w.effect {
      if !(0 <= e.effect <= 3) { return Err; }
      block := block[2 := e.effect];
    }
    var settings := LightSettings(block, AsTheme(e), AsTheme(w), 3, 4, -1);
    if settings.Err? || |e.colors| != l.lights { return Err; }
    block := settings.value;
    ghost var start := block;
    for i := 0 to |e.colors|
      invariant |block| == l.LightsSize()
      invariant block == WithColors(start, e.colors, i)
      invariant forall k :: 0 <= k < i ==> e.colors[k] <= 0xffffff
    {
      if e.colors[i] > 0xffffff { return Err; }
      block := PutRgb(block, LIGHTS_HEAD + 3 * i, e.colors[i]);
    }
    block := block[1 := 1][|block| - 1 := 1];
    return Ok(block);
  }

  lemma ColorsRead(l: Layout, start: seq<Byte>, e: PerKey, block: seq<Byte>)
    requires KnownLayout(l) && BlockOk(l, start) && BlockOk(l, block) && |e.colors| == l.lights
    requires forall i :: 0 <= i < |e.colors| ==> e.colors[i] <= 0xffffff
    requires block == WithColors(start, e.colors, l.lights)[1 := 1][l.LightsSize() - 1 := 1]
    ensures DecodePerKey(l, block).colors == e.colors
  {
    var got := DecodePerKey(l, block);
    var colored := WithColors(start, e.colors, l.lights);
    forall i | 0 <= i < l.lights
      ensures got.colors[i] == e.colors[i]
    {
      WithColorsRead(start, e.colors, l.lights, i);
      RgbSame(block, colored, LIGHTS_HEAD + 3 * i);
    }
  }

  /** The colour block written for an accepted edit reads back as that edit. */
  lemma PerKeyRoundTrip(l: Layout, stored: seq<Byte>, e: PerKey)
    requires KnownLayout(l) && BlockOk(l, stored) && PerKeyAccepted(l, stored, e, DecodePerKey(l, stored))
    ensures DecodePerKey(l, PerKeyBlock(l, stored, e, DecodePerKey(l, stored))) == e
  {
    hide LightSettings, WithColors;
    var w := DecodePerKey(l, stored);
    var a: seq<Byte> := if e.effect != w.effect then stored[2 := e.effect] else stored;
    LightSettingsRead(a, AsTheme(e), AsTheme(w), 3, 4, -1);
    var b := LightSettings(a, AsTheme(e), AsTheme(w), 3, 4, -1).value;
    var block := PerKeyBlock(l, stored, e, w);
    ColorsRead(l, b, e, block);
  }
}

/** A controller's stored forms byte by byte: where each section is, and what each of its bytes says. */
module PadForms {
  import opened Bytes
  import opened Names
  import opened Patch
  import opened PadLayouts
  import opened PadSections
  import opened PadCombos
  import opened PadMacros
  import opened PadRules
  import opened PadCodec
  import PadDevice
  import PadProfile

  // ---- Where the sections are

  predicate SamePlaces(l: Layout, i: nat, sections: seq<(nat, nat)>, macros: nat)
    requires KnownLayout(l) && i < l.slots && |sections| == SECTIONS
  {
    && (forall n :: 0 <= n < SECTIONS ==>
          Where(l, i, n).length == sections[n].1 && (sections[n].1 > 0 ==> Where(l, i, n).offset == sections[n].0))
    && PadProfile.MacroSpan(l, i) == Span(macros, 216)
  }

  lemma U2Places(i: nat)
    requires i < 3
    ensures SamePlaces(U2, i, [(0x14 + 32 * i, 32), (0xe0 + 92 * i, 92), (0, 0), (0, 0), (0, 0), (0, 0), (0x98 + 8 * i, 8),
              (0xb0 + 8 * i, 8), (0xc8 + 8 * i, 8), (0x494 + 12 * i, 12), (0x4b8 + 12 * i, 12), (0x4dc + 16 * i, 16),
              (0x50c + 100 * i, 100), (4 * i, 4)], 0x1f4 + 216 * i)
    ensures U2.size == 1592 && HeaderSpan(U2) == Span(0xc, 8)
  {
  }

  lemma U2BTPlaces(i: nat)
    requires i < 3
    ensures SamePlaces(U2BT, i, [(0x14 + 32 * i, 32), (0xe0 + 92 * i, 92), (0, 0), (0, 0), (0, 0), (0, 0), (0x98 + 8 * i, 8),
              (0xb0 + 8 * i, 8), (0xc8 + 8 * i, 8), (0x92c + 12 * i, 12), (0x950 + 12 * i, 12), (0x974 + 16 * i, 16),
              (0x9a4 + 100 * i, 100), (4 * i, 4)], 0x68c + 216 * i)
    ensures U2BT.size == 2768 && HeaderSpan(U2BT) == Span(0xc, 8)
  {
  }

  /** A Pro 3, and an Arcade Controller laid out as one. */
  lemma Pro3Places(l: Layout, i: nat)
    requires (l == PRO3 || l == ARCADE) && i < 3
    ensures SamePlaces(l, i, [(0x14 + 32 * i, 32), (0xe0 + 92 * i, 92), (0, 0), (0, 0), (0, 0), (0, 0), (0x98 + 8 * i, 8),
              (0xb0 + 8 * i, 8), (0xc8 + 8 * i, 8), (0, 0), (0, 0), (0, 0), (0, 0), (4 * i, 4)], 0x68c + 216 * i)
    ensures l.size == 2348 && HeaderSpan(l) == Span(0xc, 8)
  {
  }

  lemma ArcadeProPlaces(i: nat)
    requires i < 2
    ensures SamePlaces(ARCADE_PRO, i, [(0x10 + 32 * i, 32), (0x98 + 100 * i, 100), (0x630 + 376 * i, 4), (0x635 + 376 * i, 370),
              (0x634 + 376 * i, 1), (0x920 + 164 * i, 164), (0x68 + 8 * i, 8), (0x78 + 8 * i, 8), (0x88 + 8 * i, 8),
              (0, 0), (0, 0), (0, 0), (0, 0), (4 * i, 4)], 0x470 + 216 * i)
    ensures ARCADE_PRO.size == 2664 && HeaderSpan(ARCADE_PRO) == Span(8, 8)
  {
  }

  lemma UltimateBTPlaces(i: nat)
    requires i < 3
    ensures SamePlaces(ULTIMATE_BT, i, [(0x14 + 32 * i, 32), (0xe0 + 84 * i, 84), (0, 0), (0, 0), (0, 0), (0, 0), (0x98 + 8 * i, 8),
              (0xb0 + 8 * i, 8), (0xc8 + 8 * i, 8), (0, 0), (0, 0), (0, 0), (0, 0), (4 * i, 4)], 0x674 + 216 * i)
    ensures ULTIMATE_BT.size == 2324 && HeaderSpan(ULTIMATE_BT) == Span(0xc, 8)
  {
  }

  // ---- Sections

  const FLAG: seq<Byte> := [0x11, 0x09, 0x20, 0x20]

  predicate IsWord(b: seq<Byte>, at: nat, w: U32)
    requires at + 4 <= |b|
  {
    w == b[at] as int + 0x100 * b[at + 1] as int + 0x1_0000 * b[at + 2] as int + 0x100_0000 * b[at + 3] as int
  }

  /** A colour is the low three bytes of its word. */
  predicate IsColour(b: seq<Byte>, at: nat, w: U32)
    requires at + 3 <= |b|
  {
    w == b[at] as int + 0x100 * b[at + 1] as int + 0x1_0000 * b[at + 2] as int
  }

  lemma FlagForm(section: seq<Byte>)
    requires |section| >= 4
    ensures SECTION_FLAG == FLAG
    ensures Marked(section) <==> section[..4] == FLAG
  {
    Word32OfLe32(IN_USE);
    if Marked(section) {
      Le32OfWord32(section[..4]);
    }
  }

  lemma Le32OfWord32(b: seq<Byte>)
    requires |b| == 4
    ensures Le32(Word32(b)) == b
  {
    var low := b[0] as int + 0x100 * b[1] as int;
    assert Word32(b) == low + 0x1_0000 * (b[2] as int + 0x100 * b[3] as int);
    assert Word32(b) / 0x1_0000 == b[2] as int + 0x100 * b[3] as int && Word32(b) / 0x100 == b[1] as int + 0x100 * b[2] as int + 0x1_0000 * b[3] as int;
  }

  lemma {:induction false} WordForm(w: U32, b: seq<Byte>, at: nat)
    requires at + 4 <= |b| && b[at..at + 4] == Le32(w)
    ensures IsWord(b, at, w)
  {
    Word32OfLe32(w);
    assert b[at..at + 4][0] == b[at] && b[at..at + 4][1] == b[at + 1] && b[at..at + 4][2] == b[at + 2] && b[at..at + 4][3] == b[at + 3];
  }

  lemma SetSection(section: seq<Byte>, rest: seq<Byte>)
    requires section == SECTION_FLAG + rest
    ensures Marked(section) && section[..4] == FLAG && section[4..] == rest
  {
    MarkedSection(rest);
    FlagForm(section);
  }

  /** Ranges and options: four bytes after the flag; full ranges and no options where a section is not set. */
  lemma RangeForms(p: Pair, options: U32, section: seq<Byte>)
    requires |section| == 8
    ensures PairBytes(p) == FLAG + [p.left.start, p.left.end, p.right.start, p.right.end]
    ensures OptionsBytes(options)[..4] == FLAG && IsWord(OptionsBytes(options), 4, options)
    ensures section[..4] != FLAG ==>
              && PairOf(section, 128) == Pair(Range(0, 128), Range(0, 128)) && PairOf(section, 255) == Pair(Range(0, 255), Range(0, 255))
              && OptionsOf(section) == 0
  {
    FlagForm(section);
    hide Marked, Word32;
    WordForm(options, OptionsBytes(options), 4);
  }

  /** Motion: the enabling button's word, hold or toggle, sensitivity, dead zone and where it is sent. */
  lemma MotionForm(m: Motion)
    requires MotionOk(m)
    ensures m.target == 0 ==> MotionBytes(m) == [0, 0, 0x19, 0x20, 0, 0, 0, 0, 0, 5, 40, 0]
    ensures m.target != 0 ==>
              && MotionBytes(m)[..4] == FLAG && IsWord(MotionBytes(m), 4, m.button)
              && MotionBytes(m)[8..] == [if m.toggle then 2 else 1, m.sensitivity, m.deadZone, m.target]
  {
    FlagForm(SECTION_FLAG);
    if m.target != 0 {
      WordForm(m.button, MotionBytes(m), 4);
    }
  }

  /** Motion as it is read: what is out of range is the nearest value in it, and off means nothing set. */
  lemma MotionRead(section: seq<Byte>)
    requires |section| == 12
    ensures section[..4] != FLAG || section[11] == 0 ==> MotionOf(section) == Motion(0, 0, false, 5, 40)
    ensures section[..4] == FLAG && section[11] != 0 ==>
              var m := MotionOf(section);
              && m.target == section[11] && IsWord(section, 4, m.button) && (m.toggle <==> section[8] == 2)
              && m.sensitivity == (if section[9] == 0 then 1 else if section[9] > 10 then 10 else section[9])
              && m.deadZone == if section[10] > 100 then 100 else section[10]
  {
    FlagForm(section);
  }

  lemma NoMotion()
    ensures MotionOf([]) == Motion(0, 0, false, 5, 40)
  {
  }

  /** Ring lights: a word for each colour, and the fire ring's speed. */
  lemma TwoColourForms(t: Tracing, f: Fire)
    requires 1 <= f.speed <= 15
    ensures TracingBytes(t)[..4] == FLAG && IsWord(TracingBytes(t), 4, t.color) && IsWord(TracingBytes(t), 8, t.background)
    ensures FireBytes(f)[..4] == FLAG && IsWord(FireBytes(f), 4, f.color) && IsWord(FireBytes(f), 8, f.background)
    ensures FireBytes(f)[12..] == [f.speed, 0, 0, 0]
  {
    FlagForm(SECTION_FLAG);
    hide IsWord, Le32, Words;
    TwoWords(t.color, t.background, TracingBytes(t));
    TwoWords(f.color, f.background, FireBytes(f));
  }

  lemma TwoWords(first: U32, second: U32, b: seq<Byte>)
    requires SECTION_FLAG + Words([first, second]) <= b
    ensures IsWord(b, 4, first) && IsWord(b, 8, second)
  {
    assert |SECTION_FLAG| == 4;
    hide IsWord, Words, SECTION_FLAG;
    WordAfter(SECTION_FLAG, [first, second], b, 0);
    WordAfter(SECTION_FLAG, [first, second], b, 1);
  }

  lemma CustomForm(custom: seq<U32>)
    requires |custom| == 24
    ensures CustomBytes(custom)[..4] == FLAG
    ensures forall k :: 0 <= k < 24 ==> IsWord(CustomBytes(custom), 4 + 4 * k, custom[k])
  {
    SetWords(custom);
  }

  /** Words after a flag. */
  lemma SetWords(ws: seq<U32>)
    ensures (SECTION_FLAG + Words(ws))[..4] == FLAG
    ensures forall k :: 0 <= k < |ws| ==> IsWord(SECTION_FLAG + Words(ws), 4 + 4 * k, ws[k])
  {
    FlagForm(SECTION_FLAG);
    hide IsWord, Words, SECTION_FLAG;
    forall k | 0 <= k < |ws|
      ensures IsWord(SECTION_FLAG + Words(ws), 4 + 4 * k, ws[k])
    {
      WordAfter(SECTION_FLAG, ws, SECTION_FLAG + Words(ws), k);
    }
  }

  lemma WordIn(ws: seq<U32>, k: nat)
    requires k < |ws|
    ensures IsWord(Words(ws), 4 * k, ws[k])
  {
    hide Le32, IsWord;
    assert (4 * k + 1) / 4 == (4 * k + 2) / 4 == (4 * k + 3) / 4 == k;
    assert Words(ws)[4 * k..4 * k + 4] == Le32(ws[k]);
    WordForm(ws[k], Words(ws), 4 * k);
  }

  lemma WordAfter(front: seq<Byte>, ws: seq<U32>, b: seq<Byte>, k: nat)
    requires front + Words(ws) <= b && k < |ws|
    ensures IsWord(b, |front| + 4 * k, ws[k])
  {
    hide Words;
    var run, at := Words(ws), |front| + 4 * k;
    WordIn(ws, k);
    forall i | 0 <= i < |run|
      ensures b[|front| + i] == run[i]
    {
      assert b[|front| + i] == (front + run)[|front| + i];
    }
    assert b[|front| + (4 * k)] == run[4 * k] && b[|front| + (4 * k + 1)] == run[4 * k + 1];
    assert b[|front| + (4 * k + 2)] == run[4 * k + 2] && b[|front| + (4 * k + 3)] == run[4 * k + 3];
  }

  lemma ColourRead(b: seq<Byte>, at: nat, n: nat, k: nat)
    requires at + 4 * n <= |b| && k < n
    ensures IsColour(b, at + 4 * k, Rgb(WordsIn(b[at..], n)[k]))
    ensures IsWord(b, at + 4 * k, WordsIn(b[at..], n)[k])
  {
    assert b[at..][4 * k..4 * k + 4] == b[at + 4 * k..at + 4 * k + 4];
    var word, low := b[at + 4 * k..at + 4 * k + 4], b[at + 4 * k] as int + 0x100 * b[at + 4 * k + 1] as int + 0x1_0000 * b[at + 4 * k + 2] as int;
    assert word[0] == b[at + 4 * k] && word[1] == b[at + 4 * k + 1] && word[2] == b[at + 4 * k + 2] && word[3] == b[at + 4 * k + 3];
    assert WordsIn(b[at..], n)[k] == low + 0x100_0000 * b[at + 4 * k + 3] as int;
  }

  /** Ring lights as they are read: dark rings at speed seven where a section is not set or not there. */
  lemma RingsRead(tracing: seq<Byte>, fire: seq<Byte>, custom: seq<Byte>)
    requires |tracing| == 12 && |fire| == 16 && |custom| == 100
    ensures if tracing[..4] == FLAG then IsColour(tracing, 4, TracingOf(tracing).color) && IsColour(tracing, 8, TracingOf(tracing).background)
            else TracingOf(tracing) == Tracing(0, 0)
    ensures if fire[..4] == FLAG then
              && IsColour(fire, 4, FireOf(fire).color) && IsColour(fire, 8, FireOf(fire).background)
              && FireOf(fire).speed == (if fire[12] == 0 then 1 else if fire[12] > 15 then 15 else fire[12])
            else FireOf(fire) == Fire(0, 0, 7)
    ensures forall k :: 0 <= k < 24 ==>
              if custom[..4] == FLAG then IsColour(custom, 4 + 4 * k, CustomOf(custom)[k]) else CustomOf(custom)[k] == 0
    ensures TracingOf([]) == Tracing(0, 0) && FireOf([]) == Fire(0, 0, 7) && forall k :: 0 <= k < 24 ==> CustomOf([])[k] == 0
  {
    FlagForm(tracing);
    FlagForm(fire);
    FlagForm(custom);
    hide Marked, IsColour, WordsIn, Rgb, IsWord;
    ColourRead(tracing, 4, 2, 0);
    ColourRead(tracing, 4, 2, 1);
    ColourRead(fire, 4, 2, 0);
    ColourRead(fire, 4, 2, 1);
    forall k | 0 <= k < 24
      ensures if custom[..4] == FLAG then IsColour(custom, 4 + 4 * k, CustomOf(custom)[k]) else CustomOf(custom)[k] == 0
    {
      ColourRead(custom, 4, 24, k);
    }
  }

  // ---- The button map

  /** What each input does where nothing is set, on a controller asked for its DInput bank. */
  const PLAIN: seq<Target> := [
    0x2000, 0x1000, 0x10, 0x20, 0x400, 0x800, 0x4000, 0x8000, 2, 4, 8, 1, 0x1_0000, 0x2_0000, 0x200, 0x100, 0x80, 0x40, 0, 0, 0, 0
  ]

  /** The face buttons the other way round: A and B, X and Y. */
  const TRADED: seq<Target> := [0x1000, 0x2000, 0x20, 0x10]

  /** The face buttons trade on XInput; on a first-generation Ultimate Bluetooth, on every other bank. Star takes screenshots on Switch. */
  lemma Defaults(l: Layout, i: nat, platform: Byte)
    requires KnownLayout(l) && i < 22
    ensures DefaultTarget(l, i, platform)
         == if i < 4 && (platform == 3) != (l == ULTIMATE_BT) then TRADED[i]
            else if i == 12 && platform == 0 then 0x40_0000
            else PLAIN[i]
  {
  }

  /** Where the map keeps an input's word: in order, but for the four face buttons of a first-generation Ultimate Bluetooth. */
  function PlaceOf(l: Layout, i: nat): (at: nat) {
    if l == ULTIMATE_BT && i == 0 then 8 else if l == ULTIMATE_BT && i == 1 then 4
    else if l == ULTIMATE_BT && i == 2 then 16 else if l == ULTIMATE_BT && i == 3 then 12
    else 4 + 4 * i
  }

  lemma MapBytes(l: Layout, buttons: seq<Target>, extra: seq<Target>)
    requires KnownLayout(l) && |buttons| == 22 && |extra| == 2
    ensures ButtonBytes(l, buttons, extra) == SECTION_FLAG + Words(MapWords(l, buttons, extra))
  {
  }

  lemma MapForm(l: Layout, buttons: seq<Target>, extra: seq<Target>)
    requires KnownLayout(l) && |buttons| == 22 && |extra| == 2
    ensures ButtonBytes(l, buttons, extra)[..4] == FLAG
    ensures forall i :: 0 <= i < 22 && i < l.inputs ==> IsWord(ButtonBytes(l, buttons, extra), PlaceOf(l, i), buttons[i])
    ensures l == ARCADE_PRO ==>
              IsWord(ButtonBytes(l, buttons, extra), 92, extra[0]) && IsWord(ButtonBytes(l, buttons, extra), 96, extra[1])
  {
    hide IsWord, ButtonBytes, Words, SECTION_FLAG;
    var b, ws := ButtonBytes(l, buttons, extra), MapWords(l, buttons, extra);
    SetWords(ws);
    assert b == SECTION_FLAG + Words(ws) by { MapBytes(l, buttons, extra); }
    assert IsWord(b, 4 + 4 * 0, ws[0]) && IsWord(b, 4 + 4 * 1, ws[1]) && IsWord(b, 4 + 4 * 2, ws[2]) && IsWord(b, 4 + 4 * 3, ws[3]);
    assert l == ARCADE_PRO ==> IsWord(b, 4 + 4 * 22, ws[22]) && IsWord(b, 4 + 4 * 23, ws[23]);
    forall i | 0 <= i < 22 && i < l.inputs
      ensures IsWord(b, PlaceOf(l, i), buttons[i])
    {
      if i >= 4 {
        assert IsWord(b, 4 + 4 * i, ws[i]);
      }
    }
  }

  /** A map that is not set gives every input its default, and the extra ones nothing and the screenshot. */
  lemma NoMap(l: Layout, platform: Byte, section: seq<Byte>)
    requires KnownLayout(l) && |section| == l.ButtonSection() && section[..4] != FLAG
    ensures forall i :: 0 <= i < 22 ==> ButtonsOf(l, platform, section)[i] == DefaultTarget(l, i, platform)
    ensures ExtraOf(l, section) == if l == ARCADE_PRO then [0, 0x40_0000] else [0, 0]
  {
    FlagForm(section);
  }

  // ---- Button lights

  /** Seven effects of thirteen brightnesses, as many colours in red, green and blue, four speeds and two brightnesses. */
  lemma TableForm(t: Tables, effect: nat, led: nat)
    requires t.Shaped() && effect < 7 && led < 13
    ensures TableBytes(t)[13 * effect + led] == t.brightness[13 * effect + led]
    ensures t.colours[13 * effect + led] < 0x100_0000 ==>
              var at := 91 + 3 * (13 * effect + led);
              && TableBytes(t)[at] == t.colours[13 * effect + led] / 0x1_0000
              && TableBytes(t)[at + 1] == t.colours[13 * effect + led] / 0x100 % 0x100
              && TableBytes(t)[at + 2] == t.colours[13 * effect + led] % 0x100
    ensures TableBytes(t)[364..368] == t.speeds && TableBytes(t)[368..] == t.effects
  {
    var k := 13 * effect + led;
    assert (3 * k + 1) / 3 == (3 * k + 2) / 3 == k;
    assert |t.brightness + Triples(t.colours)| == 364;
  }

  /** Tables that are not set are at full brightness and red, and their speeds in the middle. */
  lemma NoTables(flag: seq<Byte>, section: seq<Byte>)
    requires |flag| == 4 && |section| == 370 && flag != FLAG
    ensures TablesOf(flag, section) == Tables(seq(91, _ => 100), seq(91, _ => 0xff_0000), [5, 5, 5, 5], [100, 100])
  {
    assert flag[..4] == flag;
    FlagForm(flag);
  }

  // ---- Combos

  const INPUT_CODES: seq<U32> := [
    0x2000, 0x1000, 0x10, 0x20, 0x400, 0x800, 0x4000, 0x8000, 2, 4, 8, 1, 0x1_0000, 0x2_0000, 0x200, 0x100, 0x80, 0x40,
    0x200_0000, 0x400_0000, 0x20_0000, 0x4000_0000, 0x10_0000, 0x40_0000
  ]

  lemma WordIsFlag(b: seq<Byte>)
    requires |b| >= 4 && IsWord(b, 0, IN_USE)
    ensures b[..4] == FLAG
  {
    FlagForm(b);
  }

  /** An entry: the flag, the code of the button the combo is on, and six codes of those it presses. */
  lemma EntryForm(c: Combo, k: nat)
    requires c.Shaped() && 0 <= c.input < 24 && c.input != 12 && c.input != 13 && k < 6
    ensures EntryBytes(c)[..4] == FLAG && IsWord(EntryBytes(c), 4, INPUT_CODES[c.input]) && IsWord(EntryBytes(c), 8 + 4 * k, c.buttons[k])
  {
    assert INPUT_CODES == CODES;
    hide IsWord, Words, Le32, Marked, CODES, INPUT_CODES;
    var ws := EntryWords(c);
    WordIn(ws, 0);
    WordIn(ws, 1);
    WordIn(ws, 2 + k);
    WordIsFlag(EntryBytes(c));
  }

  /** An entry holds a combo when it is set, names a button other than Star and Home, and presses something. */
  lemma EntryRead(entry: seq<Byte>)
    requires |entry| == 32
    ensures EntryCombo(entry).Some?
       <==> && entry[..4] == FLAG && !IsWord(entry, 8, 0)
            && exists i :: 0 <= i < 24 && i != 12 && i != 13 && IsWord(entry, 4, INPUT_CODES[i])
    ensures EntryCombo(entry).Some? ==> forall k :: 0 <= k < 6 ==> IsWord(entry, 8 + 4 * k, EntryCombo(entry).value.buttons[k])
  {
    FlagForm(entry);
    hide Word32, IsWord, InputFrom, INPUT_CODES, CODES, WordsIn;
    var ws := WordsIn(entry, 8);
    EntryWordsIn(entry);
    OneWord(entry, 8, ws[2]);
    OneWord(entry, 4, ws[1]);
    InputNamed(ws[1]);
    forall k | 0 <= k < 6
      ensures IsWord(entry, 8 + 4 * k, ws[2..][k])
    {
      assert IsWord(entry, 4 * (2 + k), ws[2 + k]);
    }
  }

  lemma OneWord(b: seq<Byte>, at: nat, w: U32)
    requires at + 4 <= |b| && IsWord(b, at, w)
    ensures forall v: U32 :: IsWord(b, at, v) <==> v == w
  {
  }

  lemma EntryWordsIn(entry: seq<Byte>)
    requires |entry| == 32
    ensures forall k :: 0 <= k < 8 ==> IsWord(entry, 4 * k, WordsIn(entry, 8)[k])
    ensures IsWord(entry, 4, WordsIn(entry, 8)[1]) && IsWord(entry, 8, WordsIn(entry, 8)[2])
    ensures WordsIn(entry, 8)[0] == IN_USE <==> Marked(entry)
  {
    assert entry[0..] == entry;
    TakesFour(entry, entry[..4]);
    assert WordsIn(entry, 8)[0] == Word32(entry[4 * 0..4 * 0 + 4]);
    hide IsWord, WordsIn;
    forall k | 0 <= k < 8
      ensures IsWord(entry, 4 * k, WordsIn(entry, 8)[k])
    {
      ColourRead(entry, 0, 8, k);
    }
    assert IsWord(entry, 4 * 1, WordsIn(entry, 8)[1]) && IsWord(entry, 4 * 2, WordsIn(entry, 8)[2]);
  }

  lemma InputNamed(code: U32)
    ensures InputFrom(code, 0).Some? <==> exists i :: 0 <= i < 24 && i != 12 && i != 13 && code == INPUT_CODES[i]
  {
    if InputFrom(code, 0).None? {
      forall i | 0 <= i < 24 && i != 12 && i != 13
        ensures code != INPUT_CODES[i]
      {
        if code == INPUT_CODES[i] { InputOfCode(i, 0); }
      }
    } else {
      NamedFrom(code, 0);
    }
  }

  lemma {:induction false} NamedFrom(code: U32, i: nat)
    requires i <= 24 && InputFrom(code, i).Some?
    ensures exists k :: 0 <= k < 24 && k != 12 && k != 13 && code == INPUT_CODES[k]
    decreases 24 - i
  {
    if CODES[i] != code || !Carries(i) { NamedFrom(code, i + 1); } else { assert code == INPUT_CODES[i]; }
  }

  /** Combos in use from the first entry on, the rest of the section zero. */
  lemma CombosForm(combos: seq<Combo>)
    requires AllShaped(combos) && |combos| == 5 && AllCarried(combos)
    ensures ComboBytes(combos)[..4] == FLAG
    ensures forall k :: 0 <= k < |Kept(combos, 5)| ==> ComboBytes(combos)[4 + 32 * k..36 + 32 * k] == EntryBytes(Kept(combos, 5)[k])
    ensures forall p :: 4 + 32 * |Kept(combos, 5)| <= p < 164 ==> ComboBytes(combos)[p] == 0
  {
    FlagForm(SECTION_FLAG);
    var kept, b := Kept(combos, 5), ComboBytes(combos);
    hide EntryBytes, Entries, Kept, SECTION_FLAG, Marked;
    var entries := Entries(kept, |kept|);
    assert b == FLAG + (entries + Fill((5 - |kept|) * 32, 0));
    hide ComboBytes;
    forall k | 0 <= k < |kept|
      ensures b[4 + 32 * k..36 + 32 * k] == EntryBytes(kept[k])
    {
      EntriesAt(kept, |kept|, k);
      EntryAfterFlag(entries, Fill((5 - |kept|) * 32, 0), k);
    }
  }

  lemma EntryAfterFlag(entries: seq<Byte>, rest: seq<Byte>, k: nat)
    requires 32 * (k + 1) <= |entries|
    ensures (FLAG + (entries + rest))[4 + 32 * k..36 + 32 * k] == EntryAt(entries, k)
  {
    var b := FLAG + (entries + rest);
    forall i | 0 <= i < 32
      ensures b[4 + 32 * k..36 + 32 * k][i] == EntryAt(entries, k)[i]
    {
      assert b[4 + 32 * k + i] == entries[32 * k + i];
    }
  }

  /** A combo section that is not set holds none. */
  lemma NoCombos(section: seq<Byte>)
    requires |section| == 164 && section[..4] != FLAG
    ensures forall k :: 0 <= k < 5 ==> CombosOf(section)[k] == Combo(0, [0, 0, 0, 0, 0, 0]) == CombosOf([])[k]
  {
    FlagForm(section);
  }

  // ---- Macros

  predicate IsHalf(b: seq<Byte>, at: nat, w: int)
    requires at + 2 <= |b|
  {
    w == b[at] as int + 0x100 * b[at + 1] as int
  }

  /** A step: how long, the buttons, the triggers' travel, and the sticks. */
  lemma StepForm(s: Step, analog: bool)
    requires StepFits(s)
    ensures IsHalf(EncodeStep(s, analog), 0, s.millis) && IsHalf(EncodeStep(s, analog), 6, s.left) && IsHalf(EncodeStep(s, analog), 8, s.right)
    ensures IsHalf(EncodeStep(s, analog), 2, if analog then s.buttons % 0x4000 else s.buttons)
    ensures EncodeStep(s, analog)[4] == if analog && s.buttons / 0x8000 % 2 == 1 then 0xff else 0
    ensures EncodeStep(s, analog)[5] == if analog && s.buttons / 0x4000 % 2 == 1 then 0xff else 0
  {
  }

  /** Stored triggers: their bits where they are bits, else held at full travel in one of the three forms the vendor's software writes. */
  lemma StepRead(b: seq<Byte>, analog: bool)
    requires |b| == 10
    ensures IsHalf(b, 0, DecodeStep(b, analog).millis) && IsHalf(b, 6, DecodeStep(b, analog).left) && IsHalf(b, 8, DecodeStep(b, analog).right)
    ensures !analog ==> IsHalf(b, 2, DecodeStep(b, analog).buttons)
    ensures analog ==>
              var buttons, travel := DecodeStep(b, analog).buttons, (b[5], b[4]);
              && buttons % 0x4000 == (b[2] as int + 0x100 * b[3] as int) % 0x4000
              && (buttons / 0x4000 % 2 == 1 <==> travel == (0xff, 0xff) || travel == (0xff, 0))
              && (buttons / 0x8000 % 2 == 1 <==> travel == (0xff, 0xff) || travel == (0, 0xff))
  {
  }

  /** Whole reports of thirty-two bytes filled with what erased storage holds, for a first-generation Ultimate Bluetooth alone. */
  lemma StorageForm(l: Layout, steps: seq<Byte>)
    requires KnownLayout(l)
    ensures l != ULTIMATE_BT ==> Storage(l, steps) == steps
    ensures l == ULTIMATE_BT ==>
              && steps <= Storage(l, steps) && |Storage(l, steps)| % 32 == 0 && |Storage(l, steps)| < |steps| + 32
              && forall p :: |steps| <= p < |Storage(l, steps)| ==> Storage(l, steps)[p] == 0xff
  {
    assert (|steps| + Padding(l, |steps|)) % 32 == if l == ULTIMATE_BT then 0 else |steps| % 32;
  }

  /** Steps hold the triggers' travel on a first-generation Ultimate Bluetooth's XInput bank alone. */
  lemma AnalogWhere(l: Layout, platform: Byte)
    requires KnownLayout(l)
    ensures Analog(l, platform) <==> l == ULTIMATE_BT && platform == 3
  {
  }

  /** A header: the name, the bank, how many steps and where, the trigger in the model's numbering, the repeat count and the pause. */
  lemma HeaderForm(l: Layout, platform: Byte, j: nat, m: Macro)
    requires KnownLayout(l) && j < 4 && Encodable(m.name) && !m.Empty() && |m.steps| <= 200
    ensures HeaderFor(l, platform, j, m)[..32] == EncodeName(m.name)
    ensures HeaderFor(l, platform, j, m)[32..34] == [platform, 0]
    ensures IsHalf(HeaderFor(l, platform, j, m), 34, |m.steps|)
    ensures HeaderFor(l, platform, j, m)[36..40] == [0, 16 * j, 0, 0]
    ensures IsWord(HeaderFor(l, platform, j, m), 40,
              if l == U2BT && m.trigger == 0x200_0000 then 0x400_0000
              else if l == U2BT && m.trigger == 0x400_0000 then 0x200_0000
              else m.trigger)
    ensures 0 <= m.repeats < 0x1_0000_0000 ==> IsWord(HeaderFor(l, platform, j, m), 44, m.repeats)
    ensures 0 <= m.interval < 0x1_0000_0000 ==> IsWord(HeaderFor(l, platform, j, m), 48, m.interval)
  {
    hide EncodeName, IsWord, Le32;
    var b := HeaderFor(l, platform, j, m);
    assert j * REGION == 256 * (16 * j);
    assert Le16(j * REGION) == [0, 16 * j];
    assert b[36..40] == Le16(j * REGION) + [0, 0];
    WordForm(WireTrigger(l, m.trigger), b, 40);
    WordForm(m.repeats % 0x1_0000_0000, b, 44);
    WordForm(m.interval % 0x1_0000_0000, b, 48);
  }

  /** A section: the flag, how many macros there are (always four on a first-generation Ultimate Bluetooth), and zeros for one that is empty. */
  lemma SectionForm(l: Layout, platform: Byte, macros: seq<Macro>)
    requires KnownLayout(l) && SectionFits(macros)
    ensures EncodeSection(l, platform, macros)[..4] == FLAG
    ensures EncodeSection(l, platform, macros)[4..8]
         == [if l == ULTIMATE_BT then 4
            else (if macros[0].steps != [] then 1 else 0) + (if macros[1].steps != [] then 1 else 0) +
                 (if macros[2].steps != [] then 1 else 0) + (if macros[3].steps != [] then 1 else 0), 0, 0, 0]
    ensures forall j :: 0 <= j < 4 && macros[j].steps == [] ==>
              EncodeSection(l, platform, macros)[8 + 52 * j..60 + 52 * j] == seq(52, _ => 0)
  {
    SectionFront(l, platform, macros);
    UsedFour(macros);
    hide EncodeSection, HeaderFor, Used, KnownLayout;
    forall j | 0 <= j < 4 && macros[j].steps == []
      ensures EncodeSection(l, platform, macros)[8 + 52 * j..60 + 52 * j] == seq(52, _ => 0)
    {
      SectionHeader(l, platform, macros, j);
      NoHeader(l, platform, j, macros[j]);
    }
  }

  lemma SectionFront(l: Layout, platform: Byte, macros: seq<Macro>)
    requires SectionFits(macros)
    ensures EncodeSection(l, platform, macros)[..4] == FLAG
    ensures EncodeSection(l, platform, macros)[4..8] == [if l.ultimateBT then 4 else Used(macros, 4), 0, 0, 0]
  {
    FlagForm(SECTION_FLAG);
    hide HeaderFor, Used;
    assert EncodeSection(l, platform, macros)[..4] == SECTION_FLAG;
  }

  lemma UsedFour(macros: seq<Macro>)
    requires |macros| == 4
    ensures Used(macros, 4)
         == (if macros[0].steps != [] then 1 else 0) + (if macros[1].steps != [] then 1 else 0) +
            (if macros[2].steps != [] then 1 else 0) + (if macros[3].steps != [] then 1 else 0)
  {
    assert Used(macros, 2) == Used(macros, 1) + if macros[1].Empty() then 0 else 1;
  }

  lemma NoHeader(l: Layout, platform: Byte, j: nat, m: Macro)
    requires j < 4 && m.steps == []
    ensures HeaderFor(l, platform, j, m) == seq(52, _ => 0)
  {
  }

  /** What a header says of its macro: none where its count is zero or over two hundred, or its button plays none. */
  lemma HeaderRead(l: Layout, platform: Byte, header: seq<Byte>, j: nat, area: seq<Byte>)
    requires KnownLayout(l) && |header| == 52 && j < 4 && |area| == AREA
    ensures var m, count := DecodeMacro(l, platform, header, j, area), header[34] as int + 0x100 * header[35] as int;
            if count == 0 || count > 200 || !CanTrigger(l, TriggerIn(l, header)) then m == Macro([], 0, [], 0, 0)
            else
              && m.name == DecodeName(header[..32]) && m.trigger == TriggerIn(l, header) && |m.steps| == count
              && m.steps == StepsDecoded(area[4096 * j..4096 * j + 10 * count], Analog(l, platform))
              && IsWord(header, 44, m.repeats) && IsWord(header, 48, m.interval)
  {
    hide CanTrigger, DecodeName, StepsDecoded, TriggerIn;
    assert IsWord(header, 44, Word32(header[44..])) && IsWord(header, 48, Word32(header[48..]));
    assert CountIn(header) == header[34] as int + 0x100 * header[35] as int;
  }

  lemma NoSection(l: Layout, platform: Byte, section: seq<Byte>, area: seq<Byte>)
    requires |section| == 216 && |area| == AREA && section[..4] != FLAG
    ensures forall j :: 0 <= j < 4 ==> DecodeSection(l, platform, section, area)[j] == Macro([], 0, [], 0, 0)
  {
    FlagForm(section);
  }

  // ---- A slot

  /** A slot is in use exactly when its mark says so, and only then has a name; the platform is the header's. */
  lemma SlotRead(l: Layout, rec: seq<Byte>, i: nat)
    requires KnownLayout(l) && |rec| == l.size && i < l.slots
    ensures DecodeSlot(l, rec, i).inUse <==> rec[4 * i..4 * i + 4] == FLAG
    ensures !DecodeSlot(l, rec, i).inUse ==> DecodeSlot(l, rec, i).name == []
    ensures PlatformOf(l, rec) == rec[if l == ARCADE_PRO then 12 else 16]
  {
    MarkWhere(l, i);
    FlagForm(At(l, rec, i, MARK));
    assert At(l, rec, i, MARK)[..4] == rec[4 * i..4 * i + 4];
    hide At, ButtonsOf, ExtraOf, PairOf, OptionsOf, MotionOf, TracingOf, FireOf, CustomOf, CombosOf, TablesOf, DecodeName, Marked;
  }

  /** The light effect of an Arcade Controller Pro's slot is a byte of its own; it counts whatever the tables' flag says. */
  lemma SlotEffect(l: Layout, rec: seq<Byte>, i: nat)
    requires KnownLayout(l) && |rec| == l.size && i < l.slots
    ensures l == ARCADE_PRO ==> DecodeSlot(l, rec, i).effect == rec[0x634 + 376 * i]
    ensures l != ARCADE_PRO ==> DecodeSlot(l, rec, i).effect == 0
  {
    if l == ARCADE_PRO {
      ArcadeProPlaces(i);
      assert At(l, rec, i, LIGHT_EFFECT)[0] == rec[0x634 + 376 * i];
    }
    hide At, Where, ButtonsOf, ExtraOf, PairOf, OptionsOf, MotionOf, TracingOf, FireOf, CustomOf, CombosOf, TablesOf, DecodeName, Marked;
  }

  /** The ring effect a profile shows: one of the three, or off for anything else; none on a model without rings. */
  lemma EffectRead(l: Layout, rec: seq<Byte>, areas: seq<seq<Byte>>, light: Byte)
    requires KnownLayout(l) && |rec| == l.size && PadDevice.Areas(areas)
    ensures PadProfile.ProfileOf(l, rec, areas, light).effect
         == if l != U2 && l != U2BT then 0 else if light == 2 || light == 3 || light == 4 then light else 5
    ensures PadProfile.ProfileOf(l, rec, areas, light).platform == rec[if l == ARCADE_PRO then 12 else 16]
  {
    hide DecodeSlot;
  }
}

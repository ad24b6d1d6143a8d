/** The settings of one profile slot, section by section: what each holds and how it is stored. */
module PadSections {
  import opened Bytes
  import opened Names
  import opened PadLayouts

  const SECTION_FLAG: seq<Byte> := Le32(IN_USE)

  /** A section counts as set when it starts with the in-use mark. */
  predicate Marked(section: seq<Byte>)
    requires |section| >= 4
  {
    Word32(section) == IN_USE
  }

  lemma MarkedSection(rest: seq<Byte>)
    ensures Marked(SECTION_FLAG + rest) && (SECTION_FLAG + rest)[4..] == rest
  {
    Word32OfLe32(IN_USE);
  }

  // ---- Runs of 32-bit words

  function Words(ws: seq<U32>): (b: seq<Byte>)
    ensures |b| == 4 * |ws|
  {
    seq(4 * |ws|, i requires 0 <= i < 4 * |ws| => Le32(ws[i / 4])[i % 4])
  }

  function WordsIn(b: seq<Byte>, n: nat): (ws: seq<U32>)
    requires 4 * n <= |b|
    ensures |ws| == n
  {
    seq(n, k requires 0 <= k < n => Word32(b[4 * k..4 * k + 4]))
  }

  lemma WordsRoundTrip(ws: seq<U32>, rest: seq<Byte>)
    ensures WordsIn(Words(ws) + rest, |ws|) == ws
  {
    hide Le32, Word32;
    forall k | 0 <= k < |ws|
      ensures WordsIn(Words(ws) + rest, |ws|)[k] == ws[k]
    {
      assert (4 * k + 1) / 4 == (4 * k + 2) / 4 == (4 * k + 3) / 4 == k;
      assert (Words(ws) + rest)[4 * k..4 * k + 4] == Le32(ws[k]);
      Word32OfLe32(ws[k]);
    }
  }

  // ---- The button map

  const SELVES: seq<Target> := [
    A, B, X, Y, L1, R1, L2, R2, L3, R3, SELECT, START, STAR, HOME, UP, DOWN, LEFT, RIGHT, NONE, NONE, NONE, NONE
  ]

  const EXTRA_SELVES: seq<Target> := [NONE, SCREENSHOT]

  /** What an input does with no profile on a platform. */
  function DefaultFor(self: Target, platform: Byte): Target {
    if platform == XINPUT then (if self == A then B else if self == B then A else if self == X then Y else if self == Y then X else self)
    else if platform == SWITCH && self == STAR then SCREENSHOT
    else self
  }

  /** Where the button map keeps input i, and which input is at place i: the swap is its own inverse. */
  function Stored(l: Layout, i: nat): (j: nat)
    ensures i < PAD_BUTTONS ==> j < PAD_BUTTONS
  {
    if l.ultimateBT && i < 4 then (if i % 2 == 0 then i + 1 else i - 1) else i
  }

  function DefaultTarget(l: Layout, i: nat, platform: Byte): Target
    requires i < PAD_BUTTONS
  {
    DefaultFor(SELVES[Stored(l, i)], platform)
  }

  /** The words of a slot's button map, in stored order. */
  function MapWords(l: Layout, buttons: seq<Target>, extra: seq<Target>): (ws: seq<U32>)
    requires KnownLayout(l) && |buttons| == PAD_BUTTONS && |extra| == EXTRA_BUTTONS
    ensures |ws| == l.inputs
  {
    seq(l.inputs, b requires 0 <= b < l.inputs => if b < PAD_BUTTONS then buttons[Stored(l, b)] else extra[b - PAD_BUTTONS])
  }

  function ButtonsOf(l: Layout, platform: Byte, section: seq<Byte>): (buttons: seq<Target>)
    requires KnownLayout(l) && |section| == l.ButtonSection()
    ensures |buttons| == PAD_BUTTONS
  {
    seq(PAD_BUTTONS, i requires 0 <= i < PAD_BUTTONS =>
      if Marked(section) && Stored(l, i) < l.inputs then WordsIn(section[4..], l.inputs)[Stored(l, i)]
      else DefaultTarget(l, i, platform))
  }

  function ExtraOf(l: Layout, section: seq<Byte>): (extra: seq<Target>)
    requires KnownLayout(l) && |section| == l.ButtonSection()
    ensures |extra| == EXTRA_BUTTONS
  {
    if !l.ArcadePro() then [0, 0]
    else if !Marked(section) then EXTRA_SELVES
    else WordsIn(section[4..], l.inputs)[PAD_BUTTONS..]
  }

  function ButtonBytes(l: Layout, buttons: seq<Target>, extra: seq<Target>): (b: seq<Byte>)
    requires KnownLayout(l) && |buttons| == PAD_BUTTONS && |extra| == EXTRA_BUTTONS
    ensures |b| == l.ButtonSection()
  {
    SECTION_FLAG + Words(MapWords(l, buttons, extra))
  }

  /**
   A button map reads back input for input, through the swapped places of the first-generation
   Ultimate Bluetooth; an input the model has not reads as its default.
   */
  lemma ButtonsRoundTrip(l: Layout, platform: Byte, buttons: seq<Target>, extra: seq<Target>)
    requires KnownLayout(l) && |buttons| == PAD_BUTTONS && |extra| == EXTRA_BUTTONS
    ensures forall i :: 0 <= i < PAD_BUTTONS && i < l.inputs ==>
              ButtonsOf(l, platform, ButtonBytes(l, buttons, extra))[i] == buttons[i]
    ensures forall i :: l.inputs <= i < PAD_BUTTONS ==>
              ButtonsOf(l, platform, ButtonBytes(l, buttons, extra))[i] == DefaultTarget(l, i, platform)
    ensures l.ArcadePro() ==> ExtraOf(l, ButtonBytes(l, buttons, extra)) == extra
  {
    hide Words, WordsIn, Marked;
    var ws := MapWords(l, buttons, extra);
    MarkedSection(Words(ws));
    WordsRoundTrip(ws, []);
    assert Words(ws) + [] == Words(ws);
  }

  /** The source's way through the map: it fills the inputs place by place. */
  method DecodeButtons(l: Layout, platform: Byte, section: seq<Byte>) returns (buttons: array<Target>)
    requires KnownLayout(l) && |section| == l.ButtonSection()
    ensures fresh(buttons) && buttons[..] == ButtonsOf(l, platform, section)
  {
    hide WordsIn, DefaultTarget, Word32;
    buttons := new Target[PAD_BUTTONS](i requires 0 <= i < PAD_BUTTONS => DefaultTarget(l, i, platform));
    if Marked(section) {
      var ws := WordsIn(section[4..], l.inputs);
      var places := if l.inputs < PAD_BUTTONS then l.inputs else PAD_BUTTONS;
      for b := 0 to places
        invariant forall i :: 0 <= i < PAD_BUTTONS ==>
          buttons[i] == if Stored(l, i) < b then ws[Stored(l, i)] else DefaultTarget(l, i, platform)
      {
        buttons[Stored(l, b)] := ws[b];
      }
    }
  }

  // ---- Ranges

  datatype Range = Range(start: Byte, end: Byte)
  datatype Pair = Pair(left: Range, right: Range)

  function PairOf(section: seq<Byte>, unset: Byte): Pair
    requires |section| == 8
  {
    if Marked(section) then Pair(Range(section[4], section[5]), Range(section[6], section[7]))
    else Pair(Range(0, unset), Range(0, unset))
  }

  function PairBytes(p: Pair): (b: seq<Byte>)
    ensures |b| == 8
  {
    SECTION_FLAG + [p.left.start, p.left.end, p.right.start, p.right.end]
  }

  predicate PairOk(p: Pair, most: Byte) {
    p.left.start < p.left.end <= most && p.right.start < p.right.end <= most
  }

  lemma PairRoundTrip(p: Pair, unset: Byte)
    ensures PairOf(PairBytes(p), unset) == p
  {
    MarkedSection([p.left.start, p.left.end, p.right.start, p.right.end]);
  }

  // ---- Options

  function OptionsOf(section: seq<Byte>): U32
    requires |section| == 8
  {
    if Marked(section) then Word32(section[4..]) else 0
  }

  function OptionsBytes(options: U32): (b: seq<Byte>)
    ensures |b| == 8
  {
    SECTION_FLAG + Le32(options)
  }

  lemma OptionsRoundTrip(options: U32)
    ensures OptionsOf(OptionsBytes(options)) == options
  {
    MarkedSection(Le32(options));
    Word32OfLe32(options);
  }

  /** The three bits that say which of two opposite directions wins. */
  function Opposite(options: U32): nat { options / 0x1_0000 % 8 }

  // ---- Motion

  const MOTION_OFF: Byte := 0

  datatype Motion = Motion(target: Byte, button: Target, toggle: bool, sensitivity: int, deadZone: int)

  const STILL := Motion(MOTION_OFF, NONE, false, 5, 40)

  const MOTION_BUTTONS: seq<Target> := [
    R2, L2, R1, L1, A, B, X, Y, UP, DOWN, LEFT, RIGHT, L3, R3, PADDLE1, PADDLE2, P3, P4
  ]

  predicate MotionOk(m: Motion) {
    m.target <= 2 && 1 <= m.sensitivity <= 10 && 0 <= m.deadZone <= 100 && (m.target != MOTION_OFF ==> m.button in MOTION_BUTTONS)
  }

  /** A model without the setting has no section for it. */
  function MotionOf(section: seq<Byte>): Motion
    requires |section| == 12 || section == []
  {
    if section == [] || !Marked(section) || section[11] == MOTION_OFF then STILL
    else Motion(section[11], Word32(section[4..]), section[8] == 2, Max(1, Min(10, section[9])), Min(100, section[10]))
  }

  function MotionBytes(m: Motion): (b: seq<Byte>)
    requires MotionOk(m)
    ensures |b| == 12
  {
    if m.target == MOTION_OFF then Le32(MOTION_OFF_FLAG) + [0, 0, 0, 0, 0, 5, 40, MOTION_OFF]
    else SECTION_FLAG + Le32(m.button) + [if m.toggle then 2 else 1, m.sensitivity, m.deadZone, m.target]
  }

  /** Motion that is off has no other settings. */
  function NormalMotion(m: Motion): Motion { if m.target == MOTION_OFF then STILL else m }

  lemma MotionRoundTrip(m: Motion)
    requires MotionOk(m)
    ensures MotionOf(MotionBytes(m)) == NormalMotion(m)
  {
    if m.target == MOTION_OFF {
      Word32OfLe32(MOTION_OFF_FLAG);
    } else {
      var b := MotionBytes(m);
      Word32OfLe32(IN_USE);
      Word32OfLe32(m.button);
      assert b[4..][0] == Le32(m.button)[0] && b[4..][1] == Le32(m.button)[1] && b[4..][2] == Le32(m.button)[2] && b[4..][3] == Le32(m.button)[3];
    }
  }

  // ---- Stick-ring lights

  const LEDS: nat := 24
  const COLOURS: int := 0x100_0000

  datatype Tracing = Tracing(color: U32, background: U32)
  datatype Fire = Fire(color: U32, background: U32, speed: int)

  function Rgb(w: U32): U32 { w % COLOURS }

  function TracingOf(section: seq<Byte>): Tracing
    requires |section| == 12 || section == []
  {
    if section == [] || !Marked(section) then Tracing(0, 0)
    else Tracing(Rgb(WordsIn(section[4..], 2)[0]), Rgb(WordsIn(section[4..], 2)[1]))
  }

  function TracingBytes(t: Tracing): (b: seq<Byte>)
    ensures |b| == 12
  {
    SECTION_FLAG + Words([t.color, t.background])
  }

  lemma TracingRoundTrip(t: Tracing)
    requires t.color < COLOURS && t.background < COLOURS
    ensures TracingOf(TracingBytes(t)) == t
  {
    hide Words, WordsIn;
    MarkedSection(Words([t.color, t.background]));
    WordsRoundTrip([t.color, t.background], []);
    assert Words([t.color, t.background]) + [] == Words([t.color, t.background]);
  }

  function FireOf(section: seq<Byte>): Fire
    requires |section| == 16 || section == []
  {
    if section == [] || !Marked(section) then Fire(0, 0, 7)
    else Fire(Rgb(WordsIn(section[4..], 2)[0]), Rgb(WordsIn(section[4..], 2)[1]), Max(1, Min(15, section[12])))
  }

  function FireBytes(f: Fire): (b: seq<Byte>)
    requires 1 <= f.speed <= 15
    ensures |b| == 16
  {
    SECTION_FLAG + (Words([f.color, f.background]) + [f.speed, 0, 0, 0])
  }

  lemma FireRoundTrip(f: Fire)
    requires f.color < COLOURS && f.background < COLOURS && 1 <= f.speed <= 15
    ensures FireOf(FireBytes(f)) == f
  {
    hide Words, WordsIn;
    MarkedSection(Words([f.color, f.background]) + [f.speed, 0, 0, 0]);
    WordsRoundTrip([f.color, f.background], [f.speed, 0, 0, 0]);
  }

  function CustomOf(section: seq<Byte>): (colours: seq<U32>)
    requires |section| == 100 || section == []
    ensures |colours| == LEDS
  {
    seq(LEDS, k requires 0 <= k < LEDS => if section == [] || !Marked(section) then 0 else Rgb(WordsIn(section[4..], LEDS)[k]))
  }

  function CustomBytes(colours: seq<U32>): (b: seq<Byte>)
    requires |colours| == LEDS
    ensures |b| == 100
  {
    SECTION_FLAG + Words(colours)
  }

  lemma CustomRoundTrip(colours: seq<U32>)
    requires |colours| == LEDS && forall k :: 0 <= k < LEDS ==> colours[k] < COLOURS
    ensures CustomOf(CustomBytes(colours)) == colours
  {
    hide Words, WordsIn;
    MarkedSection(Words(colours));
    WordsRoundTrip(colours, []);
    assert Words(colours) + [] == Words(colours);
  }

  // ---- An Arcade Controller Pro's button lights

  const CELLS: nat := 91
  const TABLE_BYTES: nat := 370

  /** One brightness and one colour per effect and button, and the effects' speeds. */
  datatype Tables = Tables(brightness: seq<Byte>, colours: seq<U32>, speeds: seq<Byte>, effects: seq<Byte>)
  {
    predicate Shaped() { |brightness| == |colours| == CELLS && |speeds| == 4 && |effects| == 2 }
  }

  const NO_TABLES := Tables(seq(CELLS, _ => 100), seq(CELLS, _ => 0xff_0000), [5, 5, 5, 5], [100, 100])

  function Triple(at: seq<Byte>): U32
    requires |at| == 3
  {
    at[0] as int * 0x1_0000 + at[1] as int * 0x100 + at[2] as int
  }

  function TripleOf(colour: U32): (b: seq<Byte>)
    ensures |b| == 3
  {
    [colour / 0x1_0000 % 0x100, colour / 0x100 % 0x100, colour % 0x100]
  }

  lemma TripleRoundTrip(colour: U32)
    requires colour < COLOURS
    ensures Triple(TripleOf(colour)) == colour
  {
    var mid := colour / 0x100;
    assert mid / 0x100 == colour / 0x1_0000 && colour == mid * 0x100 + colour % 0x100;
    assert mid == mid / 0x100 * 0x100 + mid % 0x100;
  }

  function Triples(colours: seq<U32>): (b: seq<Byte>)
    ensures |b| == 3 * |colours|
  {
    seq(3 * |colours|, i requires 0 <= i < 3 * |colours| => TripleOf(colours[i / 3])[i % 3])
  }

  /** A model without button lights has no sections for them. */
  function TablesOf(flag: seq<Byte>, section: seq<Byte>): (t: Tables)
    requires (|flag| == 4 && |section| == TABLE_BYTES) || (flag == [] && section == [])
    ensures t.Shaped() || t == Tables([], [], [], [])
  {
    if flag == [] then Tables([], [], [], [])
    else if !Marked(flag) then NO_TABLES
    else
      Tables(section[..CELLS],
             seq(CELLS, k requires 0 <= k < CELLS => Triple(section[CELLS + 3 * k..CELLS + 3 * k + 3])),
             section[364..368], section[368..])
  }

  function TableBytes(t: Tables): (b: seq<Byte>)
    requires t.Shaped()
    ensures |b| == TABLE_BYTES
  {
    t.brightness + Triples(t.colours) + t.speeds + t.effects
  }

  lemma TablesRoundTrip(t: Tables)
    requires t.Shaped() && forall k :: 0 <= k < CELLS ==> t.colours[k] < COLOURS
    ensures TablesOf(SECTION_FLAG, TableBytes(t)) == t
  {
    hide Triple, TripleOf;
    Word32OfLe32(IN_USE);
    var b := TableBytes(t);
    forall k | 0 <= k < CELLS
      ensures Triple(b[CELLS + 3 * k..CELLS + 3 * k + 3]) == t.colours[k]
    {
      assert (3 * k + 1) / 3 == (3 * k + 2) / 3 == k;
      assert b[CELLS + 3 * k..CELLS + 3 * k + 3] == TripleOf(t.colours[k]);
      TripleRoundTrip(t.colours[k]);
    }
    assert b[..CELLS] == t.brightness && b[364..368] == t.speeds && b[368..] == t.effects;
  }
}

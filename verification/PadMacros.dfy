/**
 Recorded controller macros: their steps in macro storage and their headers in the record.
 */
module PadMacros {
  import opened Bytes
  import opened Names
  import opened PadLayouts

  const MACROS: nat := 4
  const MAX_STEPS: nat := 200
  const SECTION: nat := 216
  const HEADER: nat := 52
  const STEP_BYTES: nat := 10
  const REGION: nat := 4096
  const AREA: nat := 16384
  const CENTRE: U16 := 0x7f7f

  /** One moment of a macro: what is held, and for how long. */
  datatype Step = Step(millis: int, buttons: U16, left: U16, right: U16)

  datatype Macro = Macro(name: Name, trigger: Target, steps: seq<Step>, repeats: int, interval: int)
  {
    predicate Empty() { steps == [] }
  }

  const NO_MACRO := Macro([], NONE, [], 0, 0)

  predicate StepFits(s: Step) { 0 <= s.millis < 0x1_0000 }

  predicate StepsFit(steps: seq<Step>) {
    |steps| <= MAX_STEPS && forall i :: 0 <= i < |steps| ==> StepFits(steps[i])
  }

  // ---- Which buttons play one

  const TRIGGERS: seq<Target> := [
    PADDLE1, PADDLE2, P3, P4, A, B, X, Y, L1, R1, L2, R2, L3, R3, UP, DOWN, LEFT, RIGHT, SELECT, START, STAR
  ]

  predicate CanTrigger(l: Layout, t: Target) {
    if l.ultimateBT then t in TRIGGERS && t != P3 && t != P4
    else t in TRIGGERS || (l.ArcadePro() && t == P5)
  }

  /** A trigger in the model's own numbering. */
  function WireTrigger(l: Layout, t: Target): Target {
    if !l.swapPaddleTriggers then t else if t == PADDLE1 then PADDLE2 else if t == PADDLE2 then PADDLE1 else t
  }

  predicate MacroValid(l: Layout, m: Macro) {
    m.Empty() ||
    (&& |m.steps| <= MAX_STEPS && CanTrigger(l, m.trigger) && Encodable(m.name) && WellFormed(m.name) && m.name != []
     && m.repeats >= 0 && 0 <= m.interval <= 60000
     && (forall i :: 0 <= i < |m.steps| ==> 1 <= m.steps[i].millis <= 0xffff)
     && m.steps[|m.steps| - 1].buttons == 0 && m.steps[|m.steps| - 1].left == CENTRE && m.steps[|m.steps| - 1].right == CENTRE)
  }

  /** Looks through a macro for something its model refuses. */
  method CheckMacro(l: Layout, m: Macro) returns (ok: bool)
    ensures ok <==> MacroValid(l, m)
  {
    hide CanTrigger, Encodable, WellFormed;
    if m.steps == [] { return true; }
    if |m.steps| > 200 { return false; }
    if !CanTrigger(l, m.trigger) { return false; }
    if !WellFormed(m.name) || !Encodable(m.name) || m.name == [] { return false; }
    if m.repeats < 0 || m.interval < 0 || m.interval > 60000 { return false; }
    for i := 0 to |m.steps|
      invariant forall j :: 0 <= j < i ==> 1 <= m.steps[j].millis <= 0xffff
    {
      if m.steps[i].millis < 1 || m.steps[i].millis > 0xffff { return false; }
    }
    var last := m.steps[|m.steps| - 1];
    return !(last.buttons != 0 || last.left != 0x7f7f || last.right != 0x7f7f);
  }

  /** The buttons that play a macro: any of the first seventeen bits' but Home's, the four at the back, and a fifth on an Arcade Controller Pro. */
  lemma Triggers(l: Layout, t: Target)
    requires KnownLayout(l)
    ensures CanTrigger(l, t)
       <==> || t in {1, 2, 4, 8, 0x10, 0x20, 0x40, 0x80, 0x100, 0x200, 0x400, 0x800, 0x1000, 0x2000, 0x4000, 0x8000, 0x1_0000,
                     0x200_0000, 0x400_0000}
            || (t in {0x20_0000, 0x4000_0000} && l != ULTIMATE_BT) || (t == 0x10_0000 && l == ARCADE_PRO)
  {
  }

  // ---- Steps

  /** Whether a first-generation Ultimate Bluetooth's step holds its triggers as analog values. */
  predicate Analog(l: Layout, platform: Byte) { l.ultimateBT && platform == XINPUT }

  predicate HoldsL2(buttons: U16) { buttons / 0x4000 % 2 == 1 }
  predicate HoldsR2(buttons: U16) { buttons / 0x8000 == 1 }

  function EncodeStep(s: Step, analog: bool): (b: seq<Byte>)
    ensures |b| == STEP_BYTES
  {
    var triggers: int := if analog then (if HoldsL2(s.buttons) then 0xff00 else 0) + (if HoldsR2(s.buttons) then 0xff else 0) else 0;
    var buttons := if analog then s.buttons % 0x4000 else s.buttons;
    Le16(Low16(s.millis)) + Le16(buttons) + Le16(triggers) + Le16(s.left) + Le16(s.right)
  }

  function DecodeStep(b: seq<Byte>, analog: bool): (s: Step)
    requires |b| == STEP_BYTES
    ensures StepFits(s)
  {
    var held := Word16(b[2..]);
    var triggers := Word16(b[4..]);
    var buttons: U16 :=
      if !analog then held
      else if triggers == 0xffff then held % 0x4000 + 0xc000
      else if triggers == 0xff00 then held % 0x4000 + 0x4000
      else if triggers == 0x00ff then held % 0x4000 + 0x8000
      else held % 0x4000;
    Step(Word16(b), buttons, Word16(b[6..]), Word16(b[8..]))
  }

  /** A step reads back as itself, whichever way its triggers are stored. */
  lemma StepRoundTrip(s: Step, analog: bool)
    requires StepFits(s)
    ensures DecodeStep(EncodeStep(s, analog), analog) == s
  {
    var b := EncodeStep(s, analog);
    var buttons := if analog then s.buttons % 0x4000 else s.buttons;
    Word16OfLe16(s.millis);
    Word16OfLe16(buttons);
    Word16OfLe16(s.left);
    Word16OfLe16(s.right);
    assert s.buttons == s.buttons % 0x4000 + 0x4000 * (s.buttons / 0x4000 % 2) + 0x8000 * (s.buttons / 0x8000);
  }

  /** The bytes of the first n steps. */
  function StepBytes(steps: seq<Step>, analog: bool, n: nat): (b: seq<Byte>)
    requires n <= |steps|
    ensures |b| == n * STEP_BYTES
  {
    if n == 0 then [] else StepBytes(steps, analog, n - 1) + EncodeStep(steps[n - 1], analog)
  }

  function StepsEncoded(steps: seq<Step>, analog: bool): (b: seq<Byte>)
    ensures |b| == |steps| * STEP_BYTES
  {
    StepBytes(steps, analog, |steps|)
  }

  /** The steps in the first n entries of stored data. */
  function StepsIn(data: seq<Byte>, analog: bool, n: nat): (steps: seq<Step>)
    requires n * STEP_BYTES <= |data|
    ensures |steps| == n && forall i :: 0 <= i < n ==> StepFits(steps[i])
  {
    if n == 0 then []
    else StepsIn(data, analog, n - 1) + [DecodeStep(data[(n - 1) * STEP_BYTES..n * STEP_BYTES], analog)]
  }

  function StepsDecoded(data: seq<Byte>, analog: bool): (steps: seq<Step>)
    ensures |steps| == |data| / STEP_BYTES && forall i :: 0 <= i < |steps| ==> StepFits(steps[i])
  {
    StepsIn(data, analog, |data| / STEP_BYTES)
  }

  lemma {:induction false} StepsInOf(steps: seq<Step>, analog: bool, n: nat, data: seq<Byte>)
    requires n <= |steps| && (forall i :: 0 <= i < |steps| ==> StepFits(steps[i]))
    requires n * STEP_BYTES <= |data| && data[..n * STEP_BYTES] == StepBytes(steps, analog, n)
    ensures StepsIn(data, analog, n) == steps[..n]
  {
    hide EncodeStep, DecodeStep;
    if n > 0 {
      var front, last := StepBytes(steps, analog, n - 1), EncodeStep(steps[n - 1], analog);
      assert data[..(n - 1) * STEP_BYTES] == data[..n * STEP_BYTES][..(n - 1) * STEP_BYTES] == front;
      assert data[(n - 1) * STEP_BYTES..n * STEP_BYTES] == data[..n * STEP_BYTES][(n - 1) * STEP_BYTES..] == last;
      StepsInOf(steps, analog, n - 1, data);
      StepRoundTrip(steps[n - 1], analog);
    }
  }

  /** Stored steps read back as the steps they were. */
  lemma StepsRoundTrip(steps: seq<Step>, analog: bool)
    requires forall i :: 0 <= i < |steps| ==> StepFits(steps[i])
    ensures StepsDecoded(StepsEncoded(steps, analog), analog) == steps
  {
    StepsInOf(steps, analog, |steps|, StepsEncoded(steps, analog));
    assert steps[..|steps|] == steps;
  }

  method EncodeSteps(steps: seq<Step>, analog: bool) returns (out: seq<Byte>)
    ensures out == StepsEncoded(steps, analog)
  {
    out := [];
    for i := 0 to |steps|
      invariant out == StepBytes(steps, analog, i)
    {
      out := out + EncodeStep(steps[i], analog);
    }
  }

  method DecodeSteps(data: seq<Byte>, analog: bool) returns (steps: seq<Step>)
    ensures steps == StepsDecoded(data, analog)
  {
    steps := [];
    var i := 0;
    while (i + 1) * STEP_BYTES <= |data|
      invariant i * STEP_BYTES <= |data| && steps == StepsIn(data, analog, i)
      decreases |data| - i * STEP_BYTES
    {
      steps := steps + [DecodeStep(data[i * STEP_BYTES..(i + 1) * STEP_BYTES], analog)];
      i := i + 1;
    }
  }

  /** How much of the last 32-byte report a first-generation Ultimate Bluetooth is sent as erased flash. */
  function Padding(l: Layout, n: nat): (pad: nat) { if l.ultimateBT && n % 32 != 0 then 32 - n % 32 else 0 }

  /** Steps as they are sent to macro storage. */
  function Storage(l: Layout, steps: seq<Byte>): seq<Byte> { steps + Fill(Padding(l, |steps|), 0xff) }

  // ---- Headers

  function EncodeHeader(l: Layout, platform: Byte, j: nat, m: Macro): (b: seq<Byte>)
    requires j < MACROS && Encodable(m.name)
    ensures |b| == HEADER
  {
    EncodeName(m.name) + [platform, 0] + Le16(Low16(|m.steps|)) + Le16(j * REGION) + [0, 0] +
    Le32(WireTrigger(l, m.trigger)) + Le32(m.repeats % 0x1_0000_0000) + Le32(m.interval % 0x1_0000_0000)
  }

  /** The header a slot's section has for one macro: zeros where there is none. */
  function HeaderFor(l: Layout, platform: Byte, j: nat, m: Macro): (b: seq<Byte>)
    requires j < MACROS && (m.Empty() || Encodable(m.name))
    ensures |b| == HEADER
  {
    if m.Empty() then Fill(HEADER, 0) else EncodeHeader(l, platform, j, m)
  }

  function Used(macros: seq<Macro>, n: nat): (used: nat)
    requires n <= |macros|
    ensures used <= n
  {
    if n == 0 then 0 else Used(macros, n - 1) + if macros[n - 1].Empty() then 0 else 1
  }

  predicate SectionFits(macros: seq<Macro>) {
    |macros| == MACROS && forall j :: 0 <= j < MACROS ==> macros[j].Empty() || Encodable(macros[j].name)
  }

  /** A slot's macro section: which of the four exist, with each one's header. */
  function EncodeSection(l: Layout, platform: Byte, macros: seq<Macro>): (b: seq<Byte>)
    requires SectionFits(macros)
    ensures |b| == SECTION
  {
    Le32(IN_USE) + [if l.ultimateBT then MACROS else Used(macros, MACROS), 0, 0, 0] +
    HeaderFor(l, platform, 0, macros[0]) + HeaderFor(l, platform, 1, macros[1]) +
    HeaderFor(l, platform, 2, macros[2]) + HeaderFor(l, platform, 3, macros[3])
  }

  function HeaderIn(section: seq<Byte>, j: nat): (b: seq<Byte>)
    requires |section| == SECTION && j < MACROS
    ensures |b| == HEADER
  {
    section[8 + j * HEADER..8 + j * HEADER + HEADER]
  }

  function CountIn(header: seq<Byte>): U16
    requires |header| == HEADER
  {
    Word16(header[34..])
  }

  function TriggerIn(l: Layout, header: seq<Byte>): Target
    requires |header| == HEADER
  {
    WireTrigger(l, Word32(header[40..]))
  }

  /** A header the source reads a macro from. */
  predicate Describes(l: Layout, header: seq<Byte>)
    requires |header| == HEADER
  {
    CountIn(header) != 0 && CountIn(header) <= MAX_STEPS && CanTrigger(l, TriggerIn(l, header))
  }

  /** The macro a header describes, with its steps from a slot's storage. */
  function DecodeMacro(l: Layout, platform: Byte, header: seq<Byte>, j: nat, area: seq<Byte>): (m: Macro)
    requires |header| == HEADER && j < MACROS && |area| == AREA
    ensures StepsFit(m.steps)
  {
    if !Describes(l, header) then NO_MACRO
    else
      Macro(DecodeName(header[..NAME_BYTES]), TriggerIn(l, header),
            StepsDecoded(area[j * REGION..j * REGION + CountIn(header) * STEP_BYTES], Analog(l, platform)),
            Word32(header[44..]), Word32(header[48..]))
  }

  function DecodeSection(l: Layout, platform: Byte, section: seq<Byte>, area: seq<Byte>): (macros: seq<Macro>)
    requires |section| == SECTION && |area| == AREA
    ensures |macros| == MACROS && forall j :: 0 <= j < MACROS ==> StepsFit(macros[j].steps)
  {
    if Word32(section) != IN_USE then [NO_MACRO, NO_MACRO, NO_MACRO, NO_MACRO]
    else seq(MACROS, j requires 0 <= j < MACROS => DecodeMacro(l, platform, HeaderIn(section, j), j, area))
  }

  /** What a macro reads back as: an empty one as none. */
  function NormalMacro(m: Macro): Macro { if m.Empty() then NO_MACRO else m }

  /** The storage of a slot holds a macro's steps. */
  predicate HoldsSteps(l: Layout, platform: Byte, area: seq<Byte>, j: nat, steps: seq<Step>)
    requires j < MACROS && |area| == AREA && |steps| <= MAX_STEPS
  {
    area[j * REGION..j * REGION + |steps| * STEP_BYTES] == StepsEncoded(steps, Analog(l, platform))
  }

  /** The storage of a slot reads as a macro's steps. */
  predicate ReadsSteps(l: Layout, platform: Byte, area: seq<Byte>, j: nat, steps: seq<Step>)
    requires j < MACROS && |area| == AREA && |steps| <= MAX_STEPS
  {
    StepsDecoded(area[j * REGION..j * REGION + |steps| * STEP_BYTES], Analog(l, platform)) == steps
  }

  lemma HeldStepsRead(l: Layout, platform: Byte, area: seq<Byte>, j: nat, steps: seq<Step>)
    requires j < MACROS && |area| == AREA && StepsFit(steps) && HoldsSteps(l, platform, area, j, steps)
    ensures ReadsSteps(l, platform, area, j, steps)
  {
    StepsRoundTrip(steps, Analog(l, platform));
  }

  lemma HeaderParts(l: Layout, platform: Byte, j: nat, m: Macro)
    requires j < MACROS && Encodable(m.name)
    ensures EncodeHeader(l, platform, j, m)[..NAME_BYTES] == EncodeName(m.name)
    ensures CountIn(EncodeHeader(l, platform, j, m)) == Low16(|m.steps|)
    ensures TriggerIn(l, EncodeHeader(l, platform, j, m)) == m.trigger
    ensures Word32(EncodeHeader(l, platform, j, m)[44..]) == m.repeats % 0x1_0000_0000
    ensures Word32(EncodeHeader(l, platform, j, m)[48..]) == m.interval % 0x1_0000_0000
  {
    hide EncodeName, Word16, Word32, Le16, Le32;
    var b := EncodeHeader(l, platform, j, m);
    Word16OfLe16(Low16(|m.steps|));
    Word32OfLe32(WireTrigger(l, m.trigger));
    Word32OfLe32(m.repeats % 0x1_0000_0000);
    Word32OfLe32(m.interval % 0x1_0000_0000);
    TakesTwo(b[34..], Le16(Low16(|m.steps|)));
    TakesFour(b[40..], Le32(WireTrigger(l, m.trigger)));
    TakesFour(b[44..], Le32(m.repeats % 0x1_0000_0000));
    TakesFour(b[48..], Le32(m.interval % 0x1_0000_0000));
  }

  lemma TakesTwo(s: seq<Byte>, t: seq<Byte>)
    requires |t| == 2 <= |s| && s[..2] == t
    ensures Word16(s) == Word16(t)
  {
    assert s[0] == s[..2][0] && s[1] == s[..2][1];
  }

  lemma TakesFour(s: seq<Byte>, t: seq<Byte>)
    requires |t| == 4 <= |s| && s[..4] == t
    ensures Word32(s) == Word32(t)
  {
    assert s[0] == s[..4][0] && s[1] == s[..4][1] && s[2] == s[..4][2] && s[3] == s[..4][3];
  }

  /**
   A macro its model accepts, with storage reading as its steps, reads back as it was exactly when its name is
   storable and its repeat count fits the thirty-two bits its header has.
   */
  lemma MacroRoundTrip(l: Layout, platform: Byte, j: nat, m: Macro, area: seq<Byte>)
    requires j < MACROS && |area| == AREA && MacroValid(l, m) && !m.Empty() && ReadsSteps(l, platform, area, j, m.steps)
    ensures DecodeMacro(l, platform, HeaderFor(l, platform, j, m), j, area) == m
       <==> Storable(m.name) && m.repeats < 0x1_0000_0000
  {
    hide EncodeHeader, DecodeName, EncodeName, StepsDecoded, StepsEncoded, Word16, Word32, CountIn, TriggerIn, Storable, WireTrigger;
    HeaderParts(l, platform, j, m);
    NameRoundTrip(m.name);
  }

  lemma NoMacroRoundTrip(l: Layout, platform: Byte, j: nat, m: Macro, area: seq<Byte>)
    requires j < MACROS && |area| == AREA && m.Empty()
    ensures DecodeMacro(l, platform, HeaderFor(l, platform, j, m), j, area) == NO_MACRO
  {
  }

  lemma SectionHeader(l: Layout, platform: Byte, macros: seq<Macro>, j: nat)
    requires SectionFits(macros) && j < MACROS
    ensures HeaderIn(EncodeSection(l, platform, macros), j) == HeaderFor(l, platform, j, macros[j])
    ensures Word32(EncodeSection(l, platform, macros)) == IN_USE
  {
    hide HeaderFor, Used, Le32;
    Word32OfLe32(IN_USE);
    TakesFour(EncodeSection(l, platform, macros), Le32(IN_USE));
  }

  predicate Rereadable(m: Macro) { m.Empty() || (Storable(m.name) && m.repeats < 0x1_0000_0000) }

  /** Each macro's steps are what its storage reads as. */
  ghost predicate Reads(l: Layout, platform: Byte, area: seq<Byte>, macros: seq<Macro>)
    requires |area| == AREA && |macros| == MACROS
  {
    forall j :: 0 <= j < MACROS && !macros[j].Empty() ==>
      |macros[j].steps| <= MAX_STEPS && ReadsSteps(l, platform, area, j, macros[j].steps)
  }

  /** A slot's accepted macros, headers and steps, read back as they were. */
  lemma SectionRoundTrip(l: Layout, platform: Byte, macros: seq<Macro>, area: seq<Byte>)
    requires |macros| == MACROS && |area| == AREA
    requires forall j :: 0 <= j < MACROS ==> MacroValid(l, macros[j]) && Rereadable(macros[j])
    requires Reads(l, platform, area, macros)
    ensures SectionFits(macros)
    ensures forall j :: 0 <= j < MACROS ==>
              DecodeSection(l, platform, EncodeSection(l, platform, macros), area)[j] == NormalMacro(macros[j])
  {
    hide HeaderFor, DecodeMacro, EncodeSection, HeaderIn;
    forall j | 0 <= j < MACROS
      ensures DecodeMacro(l, platform, HeaderIn(EncodeSection(l, platform, macros), j), j, area) == NormalMacro(macros[j])
    {
      SectionHeader(l, platform, macros, j);
      if macros[j].Empty() {
        NoMacroRoundTrip(l, platform, j, macros[j], area);
      } else {
        MacroRoundTrip(l, platform, j, macros[j], area);
      }
    }
    SectionHeader(l, platform, macros, 0);
  }

  /** A macro of one step that lets everything go, played two to the thirty-two times. */
  const HUGE_REPEAT := Macro([65], A, [Step(10, 0, CENTRE, CENTRE)], 0x1_0000_0000, 0)

  lemma HugeRepeatValid()
    ensures MacroValid(U2, HUGE_REPEAT) && MacroValid(U2, HUGE_REPEAT.(repeats := 0)) && Storable(HUGE_REPEAT.name)
  {
    assert CanTrigger(U2, A) by { assert TRIGGERS[4] == A; }
    assert WellFormed([65]) by { assert Readable([65][1..]) == []; }
  }

  /** Its header's count is zero, and it reads as played none. */
  lemma HugeRepeatLost(area: seq<Byte>)
    requires |area| == AREA && ReadsSteps(U2, DINPUT, area, 0, HUGE_REPEAT.steps)
    ensures DecodeMacro(U2, DINPUT, HeaderFor(U2, DINPUT, 0, HUGE_REPEAT), 0, area) == HUGE_REPEAT.(repeats := 0)
  {
    HugeRepeatValid();
    assert HeaderFor(U2, DINPUT, 0, HUGE_REPEAT) == HeaderFor(U2, DINPUT, 0, HUGE_REPEAT.(repeats := 0));
    hide MacroValid, StepsEncoded, EncodeHeader, DecodeMacro, HeaderFor, ReadsSteps;
    MacroRoundTrip(U2, DINPUT, 0, HUGE_REPEAT.(repeats := 0), area);
  }
}

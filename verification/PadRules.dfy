/** What a controller's profile slot holds, and which edits of it are refused. */
module PadRules {
  import opened Bytes
  import opened Names
  import opened PadLayouts
  import opened PadSections
  import opened PadCombos

  /** A profile slot. Vibration strength is not among its settings here. */
  datatype Slot = Slot(
    inUse: bool, name: Name, buttons: seq<Target>, extra: seq<Target>, sticks: Pair, triggers: Pair, options: U32,
    motion: Motion, tracing: Tracing, fire: Fire, custom: seq<U32>, combos: seq<Combo>, effect: Byte, tables: Tables)
  {
    predicate Shaped() {
      && WellFormed(name) && |buttons| == PAD_BUTTONS && |extra| == EXTRA_BUTTONS && |custom| == LEDS
      && |combos| == COMBOS && AllShaped(combos)
    }
  }

  // ---- What an edit may set

  const KNOWN: seq<Target> := [
    NONE, A, B, X, Y, L1, R1, L2, R2, L3, R3, SELECT, START, HOME, STAR, SCREENSHOT, UP, DOWN, LEFT, RIGHT,
    0x800_0010, 0x800_0020, 0x800_0040, 0x800_0080, 0x800_0001, 0x800_0002, 0x800_0004, 0x800_0008,
    PADDLE1, PADDLE2, 0x80_0000, 0x100_0000, 0x800_0000
  ]

  const ARCADE_PRO_TARGETS: seq<Target> := [
    A, B, X, Y, L1, L2, L3, R1, R2, R3, SELECT, START, UP, DOWN, LEFT, RIGHT,
    0x800_0010, 0x800_0020, 0x800_0040, 0x800_0080, 0x800_0001, 0x800_0002, 0x800_0004, 0x800_0008, NONE
  ]

  predicate ArcadeProTarget(i: nat, platform: Byte, t: Target) {
    && i != STAR_INPUT && i != HOME_INPUT
    && (t in ARCADE_PRO_TARGETS || (i == PAD_BUTTONS + 1 && (t == STAR || (platform == SWITCH && t == SCREENSHOT))))
  }

  const ULTIMATE_BT_TARGETS: seq<Target> := [
    A, B, X, Y, L1, L2, L3, R1, R2, R3, SELECT, START, HOME, UP, DOWN, LEFT, RIGHT, NONE
  ]

  const STAR_TARGETS: seq<Target> := [
    0x800_0010, 0x800_0020, 0x800_0080, 0x800_0001, 0x800_0002, 0x800_0004, 0x800_0008, STAR, 0x100_0000
  ]

  predicate UltimateBTTarget(i: nat, t: Target) {
    i != HOME_INPUT && (t in ULTIMATE_BT_TARGETS || (i == STAR_INPUT && t in STAR_TARGETS))
  }

  /** An edit has values where the model has settings. */
  predicate SlotFits(l: Layout, s: Slot) { s.Shaped() && (l.ArcadePro() ==> s.tables.Shaped()) }

  /** What every model refuses. */
  predicate Valid(s: Slot)
    requires s.Shaped()
  {
    && PairOk(s.sticks, 128) && PairOk(s.triggers, 255) && Encodable(s.name) && MotionOk(s.motion)
    && (forall i :: 0 <= i < PAD_BUTTONS ==> s.buttons[i] in KNOWN)
    && 1 <= s.fire.speed <= 15 && s.fire.color < COLOURS && s.fire.background < COLOURS
    && s.tracing.color < COLOURS && s.tracing.background < COLOURS
    && (forall k :: 0 <= k < LEDS ==> s.custom[k] < COLOURS)
  }

  /** Only what differs from the slot as it was is judged. */
  predicate TablesOk(t: Tables, w: Tables)
    requires t.Shaped() && w.Shaped()
  {
    && (forall k :: 0 <= k < CELLS && t.brightness[k] != w.brightness[k] ==> t.brightness[k] <= 100)
    && (forall k :: 0 <= k < CELLS && t.colours[k] != w.colours[k] ==> t.colours[k] < COLOURS)
    && (forall k :: 0 <= k < 4 && t.speeds[k] != w.speeds[k] ==> 1 <= t.speeds[k] <= 10)
    && (forall k :: 0 <= k < 2 && t.effects[k] != w.effects[k] ==> t.effects[k] <= 100)
  }

  predicate ArcadeProOk(platform: Byte, s: Slot, w: Slot)
    requires s.Shaped() && w.Shaped() && s.tables.Shaped() && w.tables.Shaped()
  {
    && (forall i :: 0 <= i < PAD_BUTTONS ==>
          s.buttons[i] == w.buttons[i] || s.buttons[i] == DefaultFor(SELVES[i], platform) || ArcadeProTarget(i, platform, s.buttons[i]))
    && (forall i :: 0 <= i < EXTRA_BUTTONS ==>
          s.extra[i] == w.extra[i] || s.extra[i] == DefaultFor(EXTRA_SELVES[i], platform) ||
          ArcadeProTarget(PAD_BUTTONS + i, platform, s.extra[i]))
    && (s.effect != w.effect ==> 1 <= s.effect <= 6) && TablesOk(s.tables, w.tables)
    && (s.combos != w.combos ==> CombosOk(s.combos))
  }

  predicate UltimateBTOk(platform: Byte, s: Slot, w: Slot)
    requires s.Shaped() && w.Shaped()
  {
    forall i :: 0 <= i < PAD_BUTTONS && s.buttons[i] != w.buttons[i] ==>
      i < ULTIMATE_BT.inputs && (s.buttons[i] == DefaultTarget(ULTIMATE_BT, i, platform) || UltimateBTTarget(i, s.buttons[i]))
  }

  predicate OppositeOk(l: Layout, options: U32) {
    Opposite(options) in [0, 1, 2, 4] && (Opposite(options) != 0 ==> l.arcade)
  }

  /** The encoder accepts the edit. */
  predicate Accepted(l: Layout, platform: Byte, s: Slot, w: Slot)
    requires KnownLayout(l) && SlotFits(l, s) && SlotFits(l, w)
  {
    && Valid(s) && OppositeOk(l, s.options)
    && (if l.ArcadePro() then ArcadeProOk(platform, s, w)
        else s.extra == w.extra && s.combos == w.combos && s.effect == w.effect && s.tables == w.tables)
    && (l.ultimateBT ==> UltimateBTOk(platform, s, w))
    && (!l.HasMotion() ==> s.motion == w.motion)
    && (!l.HasLights() ==> s.tracing == w.tracing && s.fire == w.fire && s.custom == w.custom)
  }

  // ---- The same in the controllers' own numbers

  /** A button's function: one bit of the first seventeen or so, a stick direction, or one of the three with a bit higher up. */
  lemma KnownTargets(t: Target)
    ensures t in KNOWN
       <==> t in {0, 1, 2, 4, 8, 0x10, 0x20, 0x40, 0x80, 0x100, 0x200, 0x400, 0x800, 0x1000, 0x2000, 0x4000, 0x8000, 0x1_0000,
                  0x2_0000, 0x40_0000, 0x80_0000, 0x100_0000, 0x200_0000, 0x400_0000, 0x800_0000, 0x800_0001, 0x800_0002,
                  0x800_0004, 0x800_0008, 0x800_0010, 0x800_0020, 0x800_0040, 0x800_0080}
  {
  }

  /** An Arcade Controller Pro has no turbo, Home or paddles; its Screenshot button can also be Star or take a screenshot. */
  lemma ArcadeProTargets(i: nat, platform: Byte, t: Target)
    requires i < PAD_BUTTONS + EXTRA_BUTTONS
    ensures ArcadeProTarget(i, platform, t)
       <==> i != 12 && i != 13 &&
            (t in {0, 1, 2, 4, 8, 0x10, 0x20, 0x40, 0x80, 0x100, 0x200, 0x400, 0x800, 0x1000, 0x2000, 0x4000, 0x8000,
                   0x800_0001, 0x800_0002, 0x800_0004, 0x800_0008, 0x800_0010, 0x800_0020, 0x800_0040, 0x800_0080}
             || (i == 23 && t == 0x1_0000) || (i == 23 && t == 0x40_0000 && platform == 0))
  {
  }

  /** A first-generation Ultimate Bluetooth has stick directions on its Star button alone, and not the left stick's left. */
  lemma UltimateBTTargets(i: nat, t: Target)
    requires i < 20
    ensures UltimateBTTarget(i, t)
       <==> i != 13 &&
            (t in {0, 1, 2, 4, 8, 0x10, 0x20, 0x40, 0x80, 0x100, 0x200, 0x400, 0x800, 0x1000, 0x2000, 0x4000, 0x8000, 0x2_0000}
             || (i == 12 && t in {0x1_0000, 0x100_0000, 0x800_0001, 0x800_0002, 0x800_0004, 0x800_0008,
                                  0x800_0010, 0x800_0020, 0x800_0080}))
  {
  }

  /** At most one of the three choices for opposite directions, and none off an arcade controller. */
  lemma OneOpposite(l: Layout, options: U32)
    requires KnownLayout(l)
    ensures OppositeOk(l, options)
       <==> options / 0x1_0000 % 2 + options / 0x2_0000 % 2 + options / 0x4_0000 % 2 <= if l == ARCADE || l == ARCADE_PRO then 1 else 0
  {
    assert l.arcade <==> l == ARCADE || l == ARCADE_PRO;
    hide KnownLayout, Opposite;
    OppositeBits(options);
  }

  lemma OppositeBits(options: U32)
    ensures Opposite(options) == options / 0x1_0000 % 2 + 2 * (options / 0x2_0000 % 2) + 4 * (options / 0x4_0000 % 2)
  {
    Halved(options);
    Quartered(options);
    ThreeBits(options / 0x1_0000);
  }

  lemma Halved(n: nat)
    ensures n / 0x2_0000 == n / 0x1_0000 / 2
  {
    var low, bits := n % 0x1_0000, n / 0x1_0000;
    assert n == bits / 2 * 0x2_0000 + (bits % 2 * 0x1_0000 + low);
  }

  lemma Quartered(n: nat)
    ensures n / 0x4_0000 == n / 0x1_0000 / 4
  {
    var low, bits := n % 0x1_0000, n / 0x1_0000;
    assert n == bits / 4 * 0x4_0000 + (bits % 4 * 0x1_0000 + low);
  }

  lemma ThreeBits(bits: nat)
    ensures bits % 8 == bits % 2 + 2 * (bits / 2 % 2) + 4 * (bits / 4 % 2)
  {
    var q, r := bits / 8, bits % 8;
    assert bits / 2 == 4 * q + r / 2 && bits / 4 == 2 * q + r / 4;
    assert bits % 2 == r % 2 && bits / 2 % 2 == r / 2 % 2 && bits / 4 % 2 == r / 4;
  }

  // ---- How the source looks for something to refuse

  method CheckRanges(sticks: Pair, triggers: Pair) returns (ok: bool)
    ensures ok <==> PairOk(sticks, 128) && PairOk(triggers, 255)
  {
    var ranges: seq<(Range, Byte)> := [(sticks.left, 128), (sticks.right, 128), (triggers.left, 255), (triggers.right, 255)];
    for k := 0 to |ranges|
      invariant forall j :: 0 <= j < k ==> ranges[j].0.start < ranges[j].0.end <= ranges[j].1
    {
      if ranges[k].0.start >= ranges[k].0.end || ranges[k].0.end > ranges[k].1 { return false; }
    }
    assert ranges[0].1 == ranges[1].1 == 128 && ranges[2].1 == ranges[3].1 == 255;
    return true;
  }

  method CheckKnown(targets: seq<Target>) returns (ok: bool)
    ensures ok <==> forall i :: 0 <= i < |targets| ==> targets[i] in KNOWN
  {
    hide KNOWN;
    for i := 0 to |targets|
      invariant forall j :: 0 <= j < i ==> targets[j] in KNOWN
    {
      if targets[i] !in KNOWN { return false; }
    }
    return true;
  }

  method CheckColours(colours: seq<U32>) returns (ok: bool)
    ensures ok <==> forall k :: 0 <= k < |colours| ==> colours[k] < COLOURS
  {
    for k := 0 to |colours|
      invariant forall j :: 0 <= j < k ==> colours[j] < COLOURS
    {
      if colours[k] > 0xff_ffff { return false; }
    }
    return true;
  }

  /** What every model refuses: ranges, unknown functions, motion, the fire ring's speed, colours and the name. */
  method CheckSlot(s: Slot) returns (ok: bool)
    requires s.Shaped()
    ensures ok <==> Valid(s)
  {
    hide PairOk, KNOWN, MOTION_BUTTONS, Encodable;
    ok := CheckRanges(s.sticks, s.triggers);
    if !ok { return; }
    ok := CheckKnown(s.buttons);
    if !ok { return; }
    var m := s.motion;
    if m.target > 2 || m.sensitivity < 1 || m.sensitivity > 10 || m.deadZone < 0 || m.deadZone > 100 { return false; }
    if m.target != MOTION_OFF && m.button !in MOTION_BUTTONS { return false; }
    if s.fire.speed < 1 || s.fire.speed > 15 { return false; }
    var first := [s.tracing.color, s.tracing.background, s.fire.color, s.fire.background];
    ok := CheckColours(first);
    if !ok { return; }
    assert first[0] < COLOURS && first[1] < COLOURS && first[2] < COLOURS && first[3] < COLOURS;
    ok := CheckColours(s.custom);
    if !ok { return; }
    return Encodable(s.name);
  }

  method CheckTables(t: Tables, w: Tables) returns (ok: bool)
    requires t.Shaped() && w.Shaped()
    ensures ok <==> TablesOk(t, w)
  {
    for k := 0 to CELLS
      invariant forall j :: 0 <= j < k && t.brightness[j] != w.brightness[j] ==> t.brightness[j] <= 100
      invariant forall j :: 0 <= j < k && t.colours[j] != w.colours[j] ==> t.colours[j] < COLOURS
    {
      if t.brightness[k] != w.brightness[k] && t.brightness[k] > 100 { return false; }
      if t.colours[k] != w.colours[k] && t.colours[k] > 0xff_ffff { return false; }
    }
    for k := 0 to 4
      invariant forall j :: 0 <= j < k && t.speeds[j] != w.speeds[j] ==> 1 <= t.speeds[j] <= 10
    {
      if t.speeds[k] != w.speeds[k] && (t.speeds[k] < 1 || t.speeds[k] > 10) { return false; }
    }
    for k := 0 to 2
      invariant forall j :: 0 <= j < k && t.effects[j] != w.effects[j] ==> t.effects[j] <= 100
    {
      if t.effects[k] != w.effects[k] && t.effects[k] > 100 { return false; }
    }
    return true;
  }

  lemma PressesStep(buttons: seq<Target>, k: nat)
    requires k < |buttons| && PressesOk(buttons[..k])
    ensures PressesOk(buttons[..k + 1])
       <==> (buttons[k] != NONE ==> buttons[k] in MEMBERS && NONE !in buttons[..k] && buttons[k] !in buttons[..k])
  {
    hide MEMBERS;
    var s, t := buttons[..k], buttons[..k + 1];
    assert t == s + [buttons[k]];
    assert forall j :: 0 <= j < k ==> t[j] == s[j];
    if PressesOk(t) && buttons[k] != NONE {
      assert forall x :: x in s ==> exists j :: 0 <= j < k && t[j] == x;
    }
  }

  lemma PressesPrefix(buttons: seq<Target>, k: nat)
    requires k <= |buttons|
    ensures PressesOk(buttons) ==> PressesOk(buttons[..k])
  {
    hide MEMBERS;
    assert forall j :: 0 <= j < k ==> buttons[..k][j] == buttons[j];
  }

  method CheckPresses(buttons: seq<Target>) returns (ok: bool)
    ensures ok <==> PressesOk(buttons)
  {
    var pressed: set<Target>, ended := {}, false;
    assert PressesOk(buttons[..0]);
    hide PressesOk;
    for k := 0 to |buttons|
      invariant forall t :: t in pressed <==> t in buttons[..k]
      invariant ended <==> NONE in pressed
      invariant PressesOk(buttons[..k])
    {
      PressesStep(buttons, k);
      assert buttons[..k + 1] == buttons[..k] + [buttons[k]];
      if buttons[k] == NONE {
        ended := true;
      } else if ended || buttons[k] !in MEMBERS || buttons[k] in pressed {
        PressesPrefix(buttons, k + 1);
        return false;
      }
      pressed := pressed + {buttons[k]};
    }
    assert buttons[..|buttons|] == buttons;
    return true;
  }

  /** The source asks whether the input's code names an input that can carry a combo. */
  lemma CodeCarries(input: nat)
    requires input < |CODES|
    ensures InputFrom(CODES[input], 0).Some? <==> Carries(input)
  {
    if Carries(input) {
      InputOfCode(input, 0);
    } else {
      NoInput(input, 0);
    }
  }

  lemma {:induction false} NoInput(input: nat, i: nat)
    requires input < |CODES| && !Carries(input) && i <= |CODES|
    ensures InputFrom(CODES[input], i).None?
    decreases |CODES| - i
  {
    if i < |CODES| {
      NoInput(input, i + 1);
    }
  }

  method CheckCombos(combos: seq<Combo>) returns (ok: bool)
    requires AllShaped(combos)
    ensures ok <==> CombosOk(combos)
  {
    var onInput: set<int> := {};
    for n := 0 to |combos|
      invariant forall m :: 0 <= m < n && !combos[m].Empty() ==>
        Carries(combos[m].input) && PressesOk(combos[m].buttons) && combos[m].input in onInput
      invariant forall i :: i in onInput ==> exists m :: 0 <= m < n && !combos[m].Empty() && combos[m].input == i
      invariant forall k, m :: 0 <= k < m < n && !combos[k].Empty() && !combos[m].Empty() ==> combos[k].input != combos[m].input
    {
      var c := combos[n];
      if c.Empty() { continue; }
      if c.input < 0 || c.input >= |CODES| { return false; }
      CodeCarries(c.input);
      if InputFrom(CODES[c.input], 0).None? { return false; }
      if c.input in onInput { return false; }
      onInput := onInput + {c.input};
      var presses := CheckPresses(c.buttons);
      if !presses { return false; }
    }
    return true;
  }

  /** What an Arcade Controller Pro refuses besides. */
  method CheckArcadePro(platform: Byte, s: Slot, w: Slot) returns (ok: bool)
    requires s.Shaped() && w.Shaped() && s.tables.Shaped() && w.tables.Shaped()
    ensures ok <==> ArcadeProOk(platform, s, w)
  {
    hide TablesOk, CombosOk, DefaultFor, ArcadeProTarget;
    for i := 0 to PAD_BUTTONS
      invariant forall j :: 0 <= j < i ==>
        s.buttons[j] == w.buttons[j] || s.buttons[j] == DefaultFor(SELVES[j], platform) || ArcadeProTarget(j, platform, s.buttons[j])
    {
      if s.buttons[i] != w.buttons[i] && s.buttons[i] != DefaultFor(SELVES[i], platform) && !ArcadeProTarget(i, platform, s.buttons[i]) {
        return false;
      }
    }
    for i := 0 to EXTRA_BUTTONS
      invariant forall j :: 0 <= j < i ==>
        s.extra[j] == w.extra[j] || s.extra[j] == DefaultFor(EXTRA_SELVES[j], platform) || ArcadeProTarget(PAD_BUTTONS + j, platform, s.extra[j])
    {
      if s.extra[i] != w.extra[i] && s.extra[i] != DefaultFor(EXTRA_SELVES[i], platform) &&
         !ArcadeProTarget(PAD_BUTTONS + i, platform, s.extra[i]) {
        return false;
      }
    }
    if s.effect != w.effect && (s.effect < 1 || s.effect > 6) { return false; }
    ok := CheckTables(s.tables, w.tables);
    if ok && s.combos != w.combos {
      ok := CheckCombos(s.combos);
    }
  }

  /** What a first-generation Ultimate Bluetooth refuses besides. */
  method CheckUltimateBT(platform: Byte, s: Slot, w: Slot) returns (ok: bool)
    requires s.Shaped() && w.Shaped()
    ensures ok <==> UltimateBTOk(platform, s, w)
  {
    hide DefaultTarget, UltimateBTTarget;
    for i := 0 to PAD_BUTTONS
      invariant forall j :: 0 <= j < i && s.buttons[j] != w.buttons[j] ==>
        j < ULTIMATE_BT.inputs && (s.buttons[j] == DefaultTarget(ULTIMATE_BT, j, platform) || UltimateBTTarget(j, s.buttons[j]))
    {
      if s.buttons[i] == w.buttons[i] { continue; }
      if i >= ULTIMATE_BT.inputs { return false; }
      if s.buttons[i] != DefaultTarget(ULTIMATE_BT, i, platform) && !UltimateBTTarget(i, s.buttons[i]) { return false; }
    }
    return true;
  }

  /** Looks through an edit for something the model refuses. */
  method CheckEdit(l: Layout, platform: Byte, s: Slot, w: Slot) returns (ok: bool)
    requires KnownLayout(l) && SlotFits(l, s) && SlotFits(l, w)
    ensures ok <==> Accepted(l, platform, s, w)
  {
    hide Valid, ArcadeProOk, UltimateBTOk, KnownLayout;
    ok := CheckSlot(s);
    if !ok { return; }
    if l.ArcadePro() {
      ok := CheckArcadePro(platform, s, w);
      if !ok { return; }
    } else if s.extra != w.extra || s.combos != w.combos || s.effect != w.effect || s.tables != w.tables {
      return false;
    }
    if l.ultimateBT {
      ok := CheckUltimateBT(platform, s, w);
      if !ok { return; }
    }
    var opposite := Opposite(s.options);
    if opposite == 3 || opposite > 4 || (opposite != 0 && !l.arcade) { return false; }
    if (s.motion != w.motion && !l.HasMotion()) ||
       ((s.tracing != w.tracing || s.fire != w.fire || s.custom != w.custom) && !l.HasLights()) {
      return false;
    }
    return true;
  }
}

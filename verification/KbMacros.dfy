/** The record keyboards' recorded macros: their stored form, and which of them an edit stores. */
module KbMacros {
  import opened Bytes
  import opened Names
  import opened KbTargets

  const IN_USE: U32 := 0x20200902
  const MACRO_SLOTS_MAX: nat := 10
  const HEADER: nat := 48
  const STEPS_AT: nat := 64

  const PRESS: Byte := 1
  const RELEASE: Byte := 2
  const WAIT: Byte := 3

  datatype Step = Step(kind: Byte, key: Byte, millis: int)
  datatype Macro = Macro(name: Name, steps: seq<Step>, repeat: int, interval: int, mode: int)

  const EMPTY := Macro([], [], 0, 0, 0)

  predicate StepOk(s: Step) {
    && 0 <= s.millis <= 60000
    && (((s.kind == PRESS || s.kind == RELEASE) && (NamedUsage(s.key) || s.key == 0x64)) || s.kind == WAIT)
  }

  /** The macro is one this keyboard can hold. */
  predicate MacroOk(l: Layout, m: Macro) {
    && 1 <= |m.steps| <= l.macroLimit
    && (forall i :: 0 <= i < |m.steps| ==> StepOk(m.steps[i]))
    && 0 <= m.repeat <= 99 && 0 <= m.interval <= 60000
    && 0 <= m.mode <= 3 && (m.mode != 0 ==> l.timers)
    && Encodable(m.name)
  }

  /** A macro as stored: the header at the start of its slot, the steps 64 bytes in. */
  datatype Image = Image(header: seq<Byte>, steps: seq<Byte>)

  function NameField(name: Name): (raw: seq<Byte>)
    ensures |raw| == NAME_BYTES
  {
    if Encodable(name) then EncodeName(name) else Fill(NAME_BYTES, 0)
  }

  function StepsRaw(steps: seq<Step>): (raw: seq<Byte>)
    ensures |raw| == 4 * |steps|
  {
    if steps == [] then []
    else [steps[0].kind, steps[0].key] + Le16(Low16(steps[0].millis)) + StepsRaw(steps[1..])
  }

  /** The header of a macro played by the key at table entry `trigger`. */
  function HeaderRaw(trigger: nat, m: Macro): (raw: seq<Byte>)
    ensures |raw| == HEADER
  {
    Le32(IN_USE) + [trigger % 256] + NameField(m.name) + [0] + Le16(Low16(|m.steps|)) + Le16(Low16(m.interval))
    + [m.repeat % 256, m.mode % 256] + Fill(4, 0)
  }

  function EncodeMacro(trigger: nat, m: Macro): (image: Image)
    ensures |image.header| == HEADER && |image.steps| == 4 * |m.steps|
  {
    Image(HeaderRaw(trigger, m), StepsRaw(m.steps))
  }

  /** How many steps a stored header says its macro has; zero when the slot holds none. */
  function StepCount(l: Layout, header: seq<Byte>): (count: nat)
    requires |header| == HEADER
    ensures count <= l.macroCapacity
  {
    if Word32(header) != IN_USE || Word16(header[38..]) > l.macroCapacity then 0 else Word16(header[38..])
  }

  function DecodeSteps(raw: seq<Byte>): (steps: seq<Step>)
    ensures |steps| == |raw| / 4
  {
    seq(|raw| / 4, i requires 0 <= i < |raw| / 4 => Step(raw[4 * i], raw[4 * i + 1], Word16(raw[4 * i + 2..])))
  }

  function DecodeMacro(header: seq<Byte>, steps: seq<Byte>): Macro
    requires |header| == HEADER
  {
    Macro(DecodeName(header[5..5 + NAME_BYTES]), DecodeSteps(steps), header[42], Word16(header[40..]), header[43])
  }

  /** Macro storage of the right size for the model. */
  predicate StorageOk(l: Layout, area: seq<Byte>) { |area| == l.macroSlots * l.macroSlotSize }

  lemma SlotFits(l: Layout, slot: nat)
    requires KnownLayout(l) && slot < l.macroSlots
    ensures (slot + 1) * l.macroSlotSize <= l.macroSlots * l.macroSlotSize
    ensures STEPS_AT + 4 * l.macroCapacity == l.macroSlotSize
  {
  }

  function HeaderAt(l: Layout, area: seq<Byte>, slot: nat): (h: seq<Byte>)
    requires KnownLayout(l) && StorageOk(l, area) && slot < l.macroSlots
    ensures |h| == HEADER
  {
    SlotFits(l, slot);
    area[slot * l.macroSlotSize..slot * l.macroSlotSize + HEADER]
  }

  function StepsAt(l: Layout, area: seq<Byte>, slot: nat, count: nat): (s: seq<Byte>)
    requires KnownLayout(l) && StorageOk(l, area) && slot < l.macroSlots && count <= l.macroCapacity
    ensures |s| == 4 * count
  {
    SlotFits(l, slot);
    area[slot * l.macroSlotSize + STEPS_AT..slot * l.macroSlotSize + STEPS_AT + 4 * count]
  }

  /** The macro a slot of the storage reads as. */
  function MacroAt(l: Layout, area: seq<Byte>, slot: nat): Macro
    requires KnownLayout(l) && StorageOk(l, area) && slot < l.macroSlots
  {
    var header := HeaderAt(l, area, slot);
    var count := StepCount(l, header);
    if count == 0 then EMPTY else DecodeMacro(header, StepsAt(l, area, slot, count))
  }

  /** A slot of the storage holds an image. */
  predicate SlotHolds(l: Layout, area: seq<Byte>, slot: nat, image: Image)
    requires KnownLayout(l) && StorageOk(l, area) && slot < l.macroSlots
    requires |image.steps| % 4 == 0 && |image.steps| / 4 <= l.macroCapacity
  {
    HeaderAt(l, area, slot) == image.header && StepsAt(l, area, slot, |image.steps| / 4) == image.steps
  }

  /** Every number of the macro fits the field it is stored in. */
  predicate FieldsFit(l: Layout, m: Macro) {
    && 1 <= |m.steps| <= l.macroCapacity
    && (forall i :: 0 <= i < |m.steps| ==> 0 <= m.steps[i].millis < 0x1_0000)
    && 0 <= m.repeat < 256 && 0 <= m.interval < 0x1_0000 && 0 <= m.mode < 256
    && Encodable(m.name)
  }

  lemma {:induction false} StepsRawAt(steps: seq<Step>, i: nat)
    requires i < |steps|
    ensures StepsRaw(steps)[4 * i..4 * i + 4] == [steps[i].kind, steps[i].key] + Le16(Low16(steps[i].millis))
  {
    var raw := StepsRaw(steps);
    if i > 0 {
      StepsRawAt(steps[1..], i - 1);
      assert raw[4..] == StepsRaw(steps[1..]);
      FourLater(raw, i);
    }
  }

  lemma FourLater(raw: seq<Byte>, i: nat)
    requires i > 0 && 4 * i + 4 <= |raw|
    ensures raw[4..][4 * (i - 1)..4 * (i - 1) + 4] == raw[4 * i..4 * i + 4]
  {
  }

  lemma StepReads(steps: seq<Step>, i: nat)
    requires i < |steps| && 0 <= steps[i].millis < 0x1_0000
    ensures DecodeSteps(StepsRaw(steps))[i] == steps[i]
  {
    hide StepsRaw;
    var raw := StepsRaw(steps);
    StepsRawAt(steps, i);
    Word16OfLe16(steps[i].millis);
    FourBytes(raw, 4 * i);
    OneStep(steps[i].kind, steps[i].key, steps[i].millis);
    hide Le16, Word16;
  }

  lemma OneStep(kind: Byte, key: Byte, millis: U16)
    ensures var four := [kind, key] + Le16(Low16(millis));
            four[0] == kind && four[1] == key && four[2..] == Le16(millis)
  {
  }

  lemma FourBytes(raw: seq<Byte>, at: nat)
    requires at + 4 <= |raw|
    ensures var four := raw[at..at + 4];
            four[0] == raw[at] && four[1] == raw[at + 1] && Word16(four[2..]) == Word16(raw[at + 2..])
  {
  }

  lemma StepsRoundTrip(steps: seq<Step>)
    requires forall i :: 0 <= i < |steps| ==> 0 <= steps[i].millis < 0x1_0000
    ensures DecodeSteps(StepsRaw(steps)) == steps
  {
    hide StepsRaw;
    forall i | 0 <= i < |steps|
      ensures DecodeSteps(StepsRaw(steps))[i] == steps[i]
    {
      StepReads(steps, i);
    }
  }

  lemma HeaderParts(trigger: nat, m: Macro)
    ensures var h := HeaderRaw(trigger, m);
            && Word32(h) == IN_USE && h[5..5 + NAME_BYTES] == NameField(m.name)
            && Word16(h[38..]) == Low16(|m.steps|) && Word16(h[40..]) == Low16(m.interval)
            && h[42] == m.repeat % 256 && h[43] == m.mode % 256
  {
    var h := HeaderRaw(trigger, m);
    Word32OfLe32(IN_USE);
    assert h[..4] == Le32(IN_USE);
    Word16OfLe16(Low16(|m.steps|));
    Word16OfLe16(Low16(m.interval));
    assert h[38..40] == Le16(Low16(|m.steps|));
    assert h[40..42] == Le16(Low16(m.interval));
    assert h[38..][0] == h[38..40][0] && h[38..][1] == h[38..40][1];
    assert h[40..][0] == h[40..42][0] && h[40..][1] == h[40..42][1];
  }

  lemma ImageDecodes(l: Layout, trigger: nat, m: Macro)
    requires FieldsFit(l, m) && l.macroCapacity < 0x1_0000
    ensures StepCount(l, HeaderRaw(trigger, m)) == |m.steps|
    ensures DecodeMacro(HeaderRaw(trigger, m), StepsRaw(m.steps)) == m.(name := DecodeName(EncodeName(m.name)))
  {
    hide HeaderRaw, StepsRaw, DecodeSteps, DecodeName, EncodeName;
    HeaderParts(trigger, m);
    StepsRoundTrip(m.steps);
  }

  /** A slot that holds a macro's image reads as that macro, its name as the stored form keeps it. */
  lemma ImageReads(l: Layout, area: seq<Byte>, slot: nat, trigger: nat, m: Macro)
    requires KnownLayout(l) && StorageOk(l, area) && slot < l.macroSlots
    requires FieldsFit(l, m) && SlotHolds(l, area, slot, EncodeMacro(trigger, m))
    ensures MacroAt(l, area, slot) == m.(name := DecodeName(EncodeName(m.name)))
  {
    hide HeaderRaw, StepsRaw, DecodeMacro, StepCount, DecodeName, EncodeName, HeaderAt, StepsAt;
    ImageDecodes(l, trigger, m);
  }

  /** What any slot reads as: every field fits, and only its name may not survive being stored again. */
  lemma ReadMacroFits(l: Layout, area: seq<Byte>, slot: nat)
    requires KnownLayout(l) && StorageOk(l, area) && slot < l.macroSlots
    requires MacroAt(l, area, slot).steps != []
    ensures FieldsFit(l, MacroAt(l, area, slot))
    ensures var m := MacroAt(l, area, slot);
            DecodeName(EncodeName(m.name)) == m.name <==> REPLACEMENT !in m.name
  {
    hide DecodeName, EncodeName;
    DecodedNameRewrites(HeaderAt(l, area, slot)[5..5 + NAME_BYTES]);
  }

  // ---- Which macros an edit stores

  predicate Plays(t: Target, slot: nat) { t == PlayMacro(slot) }

  function Players(targets: seq<Target>, slot: nat): nat {
    if targets == [] then 0 else Players(targets[..|targets| - 1], slot) + if Plays(targets[|targets| - 1], slot) then 1 else 0
  }

  /** The first key that plays a slot. */
  function FirstPlayer(targets: seq<Target>, slot: nat): (i: Option<nat>)
    ensures i.Some? ==> i.value < |targets| && Plays(targets[i.value], slot)
    ensures i.Some? ==> forall k :: 0 <= k < i.value ==> !Plays(targets[k], slot)
    ensures i.None? ==> forall k :: 0 <= k < |targets| ==> !Plays(targets[k], slot)
  {
    if targets == [] then None
    else
      var earlier := FirstPlayer(targets[..|targets| - 1], slot);
      if earlier.Some? then earlier else if Plays(targets[|targets| - 1], slot) then Some(|targets| - 1) else None
  }

  lemma {:induction false} PlayersOfFirst(targets: seq<Target>, slot: nat)
    ensures Players(targets, slot) == 0 <==> FirstPlayer(targets, slot).None?
  {
    if targets != [] {
      PlayersOfFirst(targets[..|targets| - 1], slot);
    }
  }

  /** The stored form of the macro in a slot some key plays, triggered by the first key that plays it. */
  function ImageOf(targets: seq<Target>, macros: seq<Macro>, slot: nat): (image: Option<Image>)
    requires slot < |macros|
    ensures image.Some? ==> |image.value.header| == HEADER && |image.value.steps| == 4 * |macros[slot].steps| > 0
  {
    match FirstPlayer(targets, slot)
    case None => None
    case Some(i) => if macros[slot].steps == [] then None else Some(EncodeMacro(i, macros[slot]))
  }

  /** A macro to store, and what its slot held before when a key played that. */
  datatype MacroWrite = MacroWrite(slot: nat, image: Image, was: Option<Image>)

  datatype Played = Played(targets: seq<Target>, macros: seq<Macro>)

  /** What one slot needs: nothing, a write, or a refusal. */
  function SlotPlan(l: Layout, edited: Played, before: Played, slot: nat): (r: Result<Option<MacroWrite>>)
    requires slot < |edited.macros| && slot < |before.macros|
    ensures r.Ok? && r.value.Some? ==> r.value.value.slot == slot
  {
    var players, played := Players(edited.targets, slot), Players(before.targets, slot);
    var image, was := ImageOf(edited.targets, edited.macros, slot), ImageOf(before.targets, before.macros, slot);
    if players == 0 then Ok(None)
    else if image.None? && was.None? && played > 0 then Ok(None)
    else if image.Some? && was.Some? && image == was then Ok(None)
    else if players > 1 || !MacroOk(l, edited.macros[slot]) then Err
    else
      PlayersOfFirst(edited.targets, slot);
      Ok(Some(MacroWrite(slot, image.value, was)))
  }

  /** The writes the first n slots need. */
  function WritesFor(l: Layout, edited: Played, before: Played, n: nat): (writes: seq<MacroWrite>)
    requires n <= |edited.macros| && n <= |before.macros|
  {
    if n == 0 then []
    else
      var last := SlotPlan(l, edited, before, n - 1);
      WritesFor(l, edited, before, n - 1) + if last.Ok? && last.value.Some? then [last.value.value] else []
  }

  /** No slot below n is refused. */
  ghost predicate PlanOk(l: Layout, edited: Played, before: Played, n: nat)
    requires n <= |edited.macros| && n <= |before.macros|
  {
    forall slot :: 0 <= slot < n ==> SlotPlan(l, edited, before, slot).Ok?
  }

  /** Lists the macros to store so the keyboard's become the edit's. */
  method PlanMacros(l: Layout, edited: Played, before: Played) returns (r: Result<seq<MacroWrite>>)
    requires l.macroSlots <= |edited.macros| && l.macroSlots <= |before.macros|
    ensures r.Ok? <==> PlanOk(l, edited, before, l.macroSlots)
    ensures r.Ok? ==> r.value == WritesFor(l, edited, before, l.macroSlots)
  {
    var writes: seq<MacroWrite> := [];
    for slot := 0 to l.macroSlots
      invariant PlanOk(l, edited, before, slot) && writes == WritesFor(l, edited, before, slot)
    {
      var step := SlotPlan(l, edited, before, slot);
      if step.Err? { return Err; }
      if step.value.Some? { writes := writes + [step.value.value]; }
    }
    return Ok(writes);
  }

  /** Each write is its own slot's, and the slots increase. */
  ghost predicate InOrder(l: Layout, edited: Played, before: Played, writes: seq<MacroWrite>, n: nat)
    requires n <= |edited.macros| && n <= |before.macros|
  {
    && (forall k :: 0 <= k < |writes| ==> WriteOf(l, edited, before, writes[k], n))
    && (forall j, k :: 0 <= j < k < |writes| ==> writes[j].slot < writes[k].slot)
  }

  predicate WriteOf(l: Layout, edited: Played, before: Played, w: MacroWrite, n: nat)
    requires n <= |edited.macros| && n <= |before.macros|
  {
    w.slot < n && SlotPlan(l, edited, before, w.slot) == Ok(Some(w))
  }

  lemma {:induction false} WritesInOrder(l: Layout, edited: Played, before: Played, n: nat)
    requires n <= |edited.macros| && n <= |before.macros|
    ensures InOrder(l, edited, before, WritesFor(l, edited, before, n), n)
  {
    if n > 0 {
      WritesInOrder(l, edited, before, n - 1);
      var front, writes := WritesFor(l, edited, before, n - 1), WritesFor(l, edited, before, n);
      forall k | 0 <= k < |front|
        ensures front[k].slot < n - 1 && WriteOf(l, edited, before, front[k], n)
      {
        assert WriteOf(l, edited, before, front[k], n - 1);
      }
    }
  }

  /** Every slot that needs a write has one. */
  lemma {:induction false} WritesComplete(l: Layout, edited: Played, before: Played, n: nat, slot: nat) returns (k: nat)
    requires slot < n <= |edited.macros| && n <= |before.macros|
    requires SlotPlan(l, edited, before, slot).Ok? && SlotPlan(l, edited, before, slot).value.Some?
    ensures k < |WritesFor(l, edited, before, n)|
    ensures WritesFor(l, edited, before, n)[k] == SlotPlan(l, edited, before, slot).value.value
  {
    hide SlotPlan;
    if slot == n - 1 {
      k := |WritesFor(l, edited, before, n - 1)|;
    } else {
      k := WritesComplete(l, edited, before, n - 1, slot);
    }
  }

  // ---- What a plan means

  /** Some key plays a slot, and only one does. */
  predicate IsPlayed(targets: seq<Target>, slot: nat) { exists i :: 0 <= i < |targets| && Plays(targets[i], slot) }

  predicate PlayedOnce(targets: seq<Target>, slot: nat) {
    IsPlayed(targets, slot) && forall i, k :: 0 <= i < k < |targets| ==> !Plays(targets[i], slot) || !Plays(targets[k], slot)
  }

  lemma {:induction false} PlayersCount(targets: seq<Target>, slot: nat)
    ensures Players(targets, slot) > 0 <==> IsPlayed(targets, slot)
    ensures Players(targets, slot) == 1 <==> PlayedOnce(targets, slot)
  {
    if targets != [] {
      var front := targets[..|targets| - 1];
      assert targets == front + [targets[|targets| - 1]];
      PlayersCount(front, slot);
      OneMore(front, targets[|targets| - 1], slot);
    }
  }

  lemma OneMore(front: seq<Target>, last: Target, slot: nat)
    ensures IsPlayed(front + [last], slot) <==> IsPlayed(front, slot) || Plays(last, slot)
    ensures PlayedOnce(front + [last], slot) <==> if Plays(last, slot) then !IsPlayed(front, slot) else PlayedOnce(front, slot)
  {
    hide Plays;
    var all := front + [last];
    assert all[|front|] == last;
    assert forall i :: 0 <= i < |front| ==> all[i] == front[i];
  }

  /** A slot whose stored form the edit leaves as it was read: no steps then and now, or every byte the same. */
  predicate StoredAlike(edited: Played, before: Played, slot: nat)
    requires slot < |edited.macros| && slot < |before.macros|
  {
    var i, j := FirstPlayer(edited.targets, slot), FirstPlayer(before.targets, slot);
    && i.Some? && j.Some?
    && if edited.macros[slot].steps == [] || before.macros[slot].steps == [] then edited.macros[slot].steps == before.macros[slot].steps
       else EncodeMacro(i.value, edited.macros[slot]) == EncodeMacro(j.value, before.macros[slot])
  }

  /**
   A plan is refused exactly for a macro some key plays whose stored form is to change and which two
   keys play or which is none this keyboard can hold; a slot needs a write exactly when a key plays it
   and its stored form is to change, and the write is its macro for its key.
   */
  lemma PlanMeans(l: Layout, edited: Played, before: Played, slot: nat)
    requires slot < |edited.macros| && slot < |before.macros|
    ensures var plan, played := SlotPlan(l, edited, before, slot), IsPlayed(edited.targets, slot);
            && (plan.Err? <==> played && !StoredAlike(edited, before, slot) && !(PlayedOnce(edited.targets, slot) && MacroOk(l, edited.macros[slot])))
            && (plan.Ok? ==> (plan.value.Some? <==> played && !StoredAlike(edited, before, slot)))
            && (plan.Ok? && plan.value.Some? ==>
                  FirstPlayer(edited.targets, slot).Some?
                  && plan.value.value.image == EncodeMacro(FirstPlayer(edited.targets, slot).value, edited.macros[slot]))
  {
    hide EncodeMacro, MacroOk;
    PlayersCount(edited.targets, slot);
    PlayersCount(before.targets, slot);
    PlayersOfFirst(edited.targets, slot);
    PlayersOfFirst(before.targets, slot);
    hide Players, FirstPlayer, IsPlayed, PlayedOnce;
    if IsPlayed(edited.targets, slot) && !StoredAlike(edited, before, slot) && MacroOk(l, edited.macros[slot]) {
      NoStepsNotOk(l, edited.macros[slot]);
    }
  }

  lemma NoStepsNotOk(l: Layout, m: Macro)
    requires MacroOk(l, m)
    ensures m.steps != []
  {
  }

  /** Every number of a macro but how many steps it has fits the field it is stored in. */
  predicate NumbersFit(m: Macro) {
    && (forall i :: 0 <= i < |m.steps| ==> 0 <= m.steps[i].millis < 0x1_0000)
    && 0 <= m.repeat < 256 && 0 <= m.interval < 0x1_0000 && 0 <= m.mode < 256
  }

  lemma SameStep(a: seq<Step>, b: seq<Step>, i: nat)
    requires i < |a| == |b| && StepsRaw(a) == StepsRaw(b)
    ensures a[i].kind == b[i].kind && a[i].key == b[i].key && Low16(a[i].millis) == Low16(b[i].millis)
  {
    StepsRawAt(a, i);
    StepsRawAt(b, i);
    Word16OfLe16(Low16(a[i].millis));
    Word16OfLe16(Low16(b[i].millis));
    hide StepsRaw, Le16, Word16;
    var x, y := [a[i].kind, a[i].key] + Le16(Low16(a[i].millis)), [b[i].kind, b[i].key] + Le16(Low16(b[i].millis));
    assert x[0] == y[0] && x[1] == y[1] && x[2..] == y[2..];
  }

  lemma SameSteps(a: seq<Step>, b: seq<Step>)
    requires |a| == |b| && StepsRaw(a) == StepsRaw(b) && forall i :: 0 <= i < |b| ==> 0 <= b[i].millis < 0x1_0000
    ensures a == b <==> forall i :: 0 <= i < |a| ==> 0 <= a[i].millis < 0x1_0000
  {
    hide StepsRaw;
    forall i | 0 <= i < |a|
      ensures a[i] == b[i] <==> 0 <= a[i].millis < 0x1_0000
    {
      SameStep(a, b, i);
    }
  }

  /** A number is its residue exactly when it is in range. */
  lemma Residue(x: int, y: int, n: nat)
    requires n > 0 && x % n == y % n && 0 <= y < n
    ensures x == y <==> 0 <= x < n
  {
    if 0 <= x < n { SmallMod(x, n); }
    SmallMod(y, n);
  }

  lemma SmallMod(x: nat, n: nat)
    requires x < n
    ensures x % n == x
  {
  }

  /** Headers with the same bytes. */
  lemma SameHeader(i: nat, a: Macro, j: nat, b: Macro)
    requires HeaderRaw(i, a) == HeaderRaw(j, b)
    ensures i % 256 == j % 256 && NameField(a.name) == NameField(b.name)
    ensures Low16(a.interval) == Low16(b.interval) && a.repeat % 256 == b.repeat % 256 && a.mode % 256 == b.mode % 256
  {
    HeaderParts(i, a);
    HeaderParts(j, b);
    assert HeaderRaw(i, a)[4] == i % 256 && HeaderRaw(j, b)[4] == j % 256;
  }

  /** Macros with one stored form differ at most in a name, unless a number of one does not fit its field. */
  lemma SameImage(l: Layout, i: nat, a: Macro, j: nat, b: Macro)
    requires EncodeMacro(i, a) == EncodeMacro(j, b) && FieldsFit(l, b)
    ensures i % 256 == j % 256 && NameField(a.name) == EncodeName(b.name)
    ensures a == b.(name := a.name) <==> NumbersFit(a)
  {
    SameHeader(i, a, j, b);
    hide HeaderRaw, EncodeName;
    assert |a.steps| == |StepsRaw(a.steps)| / 4 == |StepsRaw(b.steps)| / 4 == |b.steps|;
    SameSteps(a.steps, b.steps);
    Residue(a.interval, b.interval, 0x1_0000);
    Residue(a.repeat, b.repeat, 256);
    Residue(a.mode, b.mode, 256);
    hide StepsRaw, Low16;
  }
}

/** Two edits of controllers that hold next to nothing, on which the exact conditions bite. */
module PadExamples {
  import opened Bytes
  import opened Flash
  import opened Patch
  import opened PadLayouts
  import opened PadSections
  import opened PadCombos
  import opened PadMacros
  import opened PadRules
  import opened PadCodec
  import opened PadProfile
  import opened PadDevice
  import opened PadWrite
  import opened PadApply
  import opened PadHeaders
  import Names

  // ---- Blank slots

  /** A slot none of whose sections is marked. */
  ghost predicate Blank(l: Layout, rec: seq<Byte>, i: nat)
    requires KnownLayout(l) && |rec| == l.size && i < l.slots
  {
    forall n :: 0 <= n < SECTIONS ==> forall k :: 0 <= k < |At(l, rec, i, n)| ==> At(l, rec, i, n)[k] == 0
  }

  lemma BlankUnmarked(l: Layout, rec: seq<Byte>, i: nat, n: nat)
    requires KnownLayout(l) && |rec| == l.size && i < l.slots && Blank(l, rec, i) && n < SECTIONS && |At(l, rec, i, n)| >= 4
    ensures !Marked(At(l, rec, i, n))
  {
    hide At, KnownLayout;
    assert At(l, rec, i, n)[0] == 0;
  }

  /** What a blank slot shows of its lights and motion. */
  lemma BlankLights(rec: seq<Byte>, i: nat)
    requires |rec| == U2.size && i < U2.slots && Blank(U2, rec, i)
    ensures var s := DecodeSlot(U2, rec, i);
            && s.motion == STILL && s.tracing == Tracing(0, 0) && s.fire == Fire(0, 0, 7)
            && (forall k :: 0 <= k < LEDS ==> s.custom[k] == 0)
  {
    BlankUnmarked(U2, rec, i, MOTION);
    BlankUnmarked(U2, rec, i, TRACING);
    BlankUnmarked(U2, rec, i, FIRE);
    BlankUnmarked(U2, rec, i, CUSTOM);
    hide At, Marked, Blank, WordsIn, Names.DecodeName, CombosOf, TablesOf, PairOf, ButtonsOf, ExtraOf, OptionsOf, PlatformOf;
  }

  /** What it shows of its name, buttons and ranges. */
  lemma BlankShows(rec: seq<Byte>, i: nat)
    requires |rec| == U2.size && i < U2.slots && PlatformOf(U2, rec) == SWITCH && Blank(U2, rec, i)
    ensures var s := DecodeSlot(U2, rec, i);
            && s.name == [] && s.sticks == Pair(Range(0, 128), Range(0, 128)) && s.triggers == Pair(Range(0, 255), Range(0, 255))
            && s.options == 0 && (forall k :: 0 <= k < PAD_BUTTONS ==> s.buttons[k] == DefaultTarget(U2, k, SWITCH))
  {
    BlankUnmarked(U2, rec, i, MARK);
    BlankUnmarked(U2, rec, i, BUTTONS);
    BlankUnmarked(U2, rec, i, STICKS);
    BlankUnmarked(U2, rec, i, TRIGGER);
    BlankUnmarked(U2, rec, i, OPTIONS);
    hide At, Marked, DefaultTarget, Blank, WordsIn, Names.DecodeName, CombosOf, TablesOf, MotionOf, TracingOf, FireOf, CustomOf;
  }

  /** And that is accepted as it is. */
  lemma BlankAccepted(rec: seq<Byte>, i: nat)
    requires |rec| == U2.size && i < U2.slots && PlatformOf(U2, rec) == SWITCH && Blank(U2, rec, i)
    ensures SlotFits(U2, DecodeSlot(U2, rec, i)) && Accepted(U2, SWITCH, DecodeSlot(U2, rec, i), DecodeSlot(U2, rec, i))
  {
    BlankShows(rec, i);
    BlankLights(rec, i);
    hide DecodeSlot, Blank, DefaultTarget, PlatformOf, KNOWN;
    var s := DecodeSlot(U2, rec, i);
    forall k | 0 <= k < PAD_BUTTONS
      ensures s.buttons[k] in KNOWN
    {
      DefaultKnown(k);
    }
  }

  lemma DefaultKnown(k: nat)
    requires k < PAD_BUTTONS
    ensures DefaultTarget(U2, k, SWITCH) in KNOWN
  {
  }

  /** A record all of whose slots are blank, for the switch position of platform SWITCH. */
  ghost predicate BlankRecord(rec: seq<Byte>) {
    |rec| == U2.size && PlatformOf(U2, rec) == SWITCH && forall i :: 0 <= i < U2.slots ==> Blank(U2, rec, i)
  }

  /** An edit of a blank controller's macros and effect, every macro a valid one, is accepted. */
  lemma BlankEdited(rec: seq<Byte>, areas: seq<seq<Byte>>, light: Byte, e: Profile)
    requires BlankRecord(rec) && Areas(areas)
    requires e.slots == ProfileOf(U2, rec, areas, light).slots && |e.macros| == U2.slots
    requires forall k :: 0 <= k < U2.slots ==> |e.macros[k]| == MACROS
    requires forall k :: 0 <= k < U2.slots ==> MacrosAccepted(U2, e, ProfileOf(U2, rec, areas, light), k)
    ensures Edited(U2, SWITCH, e, rec, areas, light)
  {
    var w := ProfileOf(U2, rec, areas, light);
    ReadFits(U2, rec, areas, light);
    ShownSlots(U2, rec, areas, light);
    hide ProfileOf, MacrosAccepted, Accepted, DecodeSlot, Blank, AllMacrosFit, PlatformOf;
    forall i | 0 <= i < U2.slots
      ensures SlotFits(U2, e.slots[i]) && SlotFits(U2, w.slots[i]) && Accepted(U2, SWITCH, e.slots[i], w.slots[i])
    {
      BlankAccepted(rec, i);
    }
    PlanMacrosFit(U2, e, w);
    assert !U2.ArcadePro();
  }

  // ---- Two macros for a slot that had none

  const NO_MACROS: seq<Macro> := [NO_MACRO, NO_MACRO, NO_MACRO, NO_MACRO]
  const TWO_TICKS: seq<Macro> := [TICK, TICK, NO_MACRO, NO_MACRO]
  const BLANK: seq<Byte> := Fill(U2.size, 0)
  const ZEROS: seq<seq<Byte>> := [Fill(AREA, 0), Fill(AREA, 0), Fill(AREA, 0)]

  lemma BlankIsBlank()
    ensures BlankRecord(BLANK)
    ensures forall k :: 0 <= k < U2.slots ==> ProfileOf(U2, BLANK, ZEROS, 2).macros[k] == NO_MACROS
  {
    forall k | 0 <= k < U2.slots
      ensures ProfileOf(U2, BLANK, ZEROS, 2).macros[k] == NO_MACROS
    {
      ShownMacros(U2, BLANK, ZEROS, 2, k);
      assert MacroSection(U2, BLANK, k)[0] == 0;
    }
  }

  /** The edit is accepted and fault-free flash that held zeros does not carry it, so an apply reports a failed write. */
  lemma SecondMacroUncarried(e: Profile)
    requires e == ProfileOf(U2, BLANK, ZEROS, 2).(macros := [TWO_TICKS, NO_MACROS, NO_MACROS])
    ensures Edited(U2, SWITCH, e, BLANK, ZEROS, 2) && !FlashCarries(U2, SWITCH, e, BLANK, ZEROS, 2)
  {
    var w := ProfileOf(U2, BLANK, ZEROS, 2);
    BlankIsBlank();
    TickValid(U2);
    hide BlankRecord, ProfileOf, BLANK;
    assert MacroValid(U2, NO_MACRO);
    hide MacroValid;
    BlankEdited(BLANK, ZEROS, 2, e);
    SecondMacroRefused(U2, SWITCH, w.macros[0], e.macros[0], ZEROS[0]);
    hide FlashTakes, Edited;
    assert !AllFlashTakes(U2, SWITCH, ZEROS, e.macros, w.macros, U2.slots);
  }

  // ---- A macro whose steps are replaced

  /** A macro that waits two milliseconds. */
  const TOCK := Macro([66], A, [Step(2, 0, CENTRE, CENTRE)], 1, 0)

  const ONE_TICK: seq<Macro> := [TICK, NO_MACRO, NO_MACRO, NO_MACRO]
  const ONE_TOCK: seq<Macro> := [TOCK, NO_MACRO, NO_MACRO, NO_MACRO]

  lemma TockValid()
    ensures MacroValid(U2, TOCK) && MacroValid(U2, TICK) && MacroValid(U2, NO_MACRO) && Rereadable(TICK)
  {
    TickValid(U2);
    assert CanTrigger(U2, A) by { assert TRIGGERS[4] == A; }
    assert Names.WellFormed([66]) by { assert Names.Readable([66][1..]) == []; }
  }

  /** A blank record but for the section of one macro. */
  function TickRecord(): (r: seq<Byte>)
    ensures |r| == U2.size
  {
    TockValid();
    BLANK[..U2.macros] + EncodeSection(U2, SWITCH, ONE_TICK) + BLANK[U2.macros + SECTION..]
  }

  function TickAreas(): (r: seq<seq<Byte>>)
    ensures Areas(r)
  {
    [StepsEncoded(TICK.steps, false) + Fill(AREA - STEP_BYTES, ERASED), ZEROS[1], ZEROS[2]]
  }

  lemma TickRecordParts()
    ensures BlankRecord(TickRecord()) && MacroSection(U2, TickRecord(), 0) == EncodeSection(U2, SWITCH, ONE_TICK)
    ensures forall k :: 1 <= k < U2.slots ==> MacroSection(U2, TickRecord(), k)[0] == 0
  {
    hide EncodeSection;
    var rec := TickRecord();
    assert forall p :: 0 <= p < U2.size && !(U2.macros <= p < U2.macros + SECTION) ==> rec[p] == 0;
    forall i, n | 0 <= i < U2.slots && 0 <= n < SECTIONS
      ensures forall k :: 0 <= k < |At(U2, rec, i, n)| ==> At(U2, rec, i, n)[k] == 0
    {
      MacrosApart(U2, 0, i, n);
    }
  }

  /** A section whose first byte is zero shows no macros. */
  lemma NoSection(section: seq<Byte>, area: seq<Byte>)
    requires |section| == SECTION && section[0] == 0 && |area| == AREA
    ensures DecodeSection(U2, SWITCH, section, area) == NO_MACROS
  {
    hide DecodeMacro, HeaderIn;
    NotInUse(section);
  }

  lemma NotInUse(s: seq<Byte>)
    requires |s| >= 4 && s[0] == 0
    ensures Word32(s) != IN_USE
  {
    assert IN_USE % 256 != 0;
  }

  lemma TickStored()
    ensures ReadsSteps(U2, SWITCH, TickAreas()[0], 0, TICK.steps)
  {
    var area := TickAreas()[0];
    assert area[0 * REGION..0 * REGION + STEP_BYTES] == StepsEncoded(TICK.steps, false);
    HeldStepsRead(U2, SWITCH, area, 0, TICK.steps);
  }

  lemma TickShown(area: seq<Byte>)
    requires |area| == AREA && ReadsSteps(U2, SWITCH, area, 0, TICK.steps) && SectionFits(ONE_TICK)
    ensures DecodeSection(U2, SWITCH, EncodeSection(U2, SWITCH, ONE_TICK), area) == ONE_TICK
  {
    TockValid();
    hide EncodeSection, MacroValid, ReadsSteps, DecodeSection;
    SectionRoundTrip(U2, SWITCH, ONE_TICK, area);
    var w := DecodeSection(U2, SWITCH, EncodeSection(U2, SWITCH, ONE_TICK), area);
    assert w[0] == ONE_TICK[0] && w[1] == ONE_TICK[1] && w[2] == ONE_TICK[2] && w[3] == ONE_TICK[3];
  }

  lemma TickProfile()
    ensures var w := ProfileOf(U2, TickRecord(), TickAreas(), 2);
            |w.macros| == U2.slots && w.macros[0] == ONE_TICK && w.macros[1] == NO_MACROS && w.macros[2] == NO_MACROS && w.effect == 2
  {
    var rec, areas := TickRecord(), TickAreas();
    assert ProfileOf(U2, rec, areas, 2).effect == 2 && |ProfileOf(U2, rec, areas, 2).macros| == U2.slots;
    TockValid();
    hide EncodeSection, TickRecord, TickAreas, MacroValid, MacroSection, ReadsSteps, ProfileOf, DecodeSection;
    TickRecordParts();
    hide BlankRecord;
    TickStored();
    TickShown(areas[0]);
    ShownMacros(U2, rec, areas, 2, 0);
    ShownMacros(U2, rec, areas, 2, 1);
    ShownMacros(U2, rec, areas, 2, 2);
    NoSection(MacroSection(U2, rec, 1), areas[1]);
    NoSection(MacroSection(U2, rec, 2), areas[2]);
  }

  /** The sections of the two macros differ: in their names. */
  lemma SectionsDiffer()
    ensures SectionFits(ONE_TICK) && SectionFits(ONE_TOCK)
    ensures EncodeSection(U2, SWITCH, ONE_TOCK) != EncodeSection(U2, SWITCH, ONE_TICK)
  {
    TockValid();
    hide EncodeSection, HeaderFor, HeaderIn, Word32;
    SectionHeader(U2, SWITCH, ONE_TICK, 0);
    SectionHeader(U2, SWITCH, ONE_TOCK, 0);
    NameByte(TICK, 65);
    NameByte(TOCK, 66);
  }

  lemma NameByte(m: Macro, b: Byte)
    requires !m.Empty() && m.name == [b as int]
    ensures HeaderFor(U2, SWITCH, 0, m)[1] == b
  {
    hide EncodeHeader;
    HeaderParts(U2, SWITCH, 0, m);
    var header := HeaderFor(U2, SWITCH, 0, m);
    assert Names.UnitBytes(m.name)[1] == b;
    assert header[1] == header[..Names.NAME_BYTES][1];
  }

  /** Replacing one macro's steps, and asking for an effect there is none of. */
  ghost function Replacing(): Profile {
    ProfileOf(U2, TickRecord(), TickAreas(), 2).(macros := [ONE_TOCK, NO_MACROS, NO_MACROS], effect := 1)
  }

  lemma ReplacingEdited()
    ensures Edited(U2, SWITCH, Replacing(), TickRecord(), TickAreas(), 2)
  {
    TickRecordParts();
    TickProfile();
    TockValid();
    hide BlankRecord, MacroValid, ProfileOf, TickRecord, TickAreas, Edited, EncodeSection, MacroSection;
    BlankEdited(TickRecord(), TickAreas(), 2, Replacing());
  }

  lemma ReplacingSpans()
    ensures Edited(U2, SWITCH, Replacing(), TickRecord(), TickAreas(), 2)
    ensures PlannedSpans(U2, SWITCH, TickRecord(), Replacing(), ProfileOf(U2, TickRecord(), TickAreas(), 2)) != []
  {
    var rec, e, w := TickRecord(), Replacing(), ProfileOf(U2, TickRecord(), TickAreas(), 2);
    hide BlankRecord, ProfileOf, TickRecord, TickAreas, EncodeSection, MacroSection, PlanReady, PlannedRecord, PlannedSpans;
    ReplacingEdited();
    TickRecordParts();
    TickProfile();
    SectionsDiffer();
    assert e.macros[0] == ONE_TOCK;
    hide Replacing;
    PlannedMacros(U2, SWITCH, rec, e, w, 0);
    if PlannedSpans(U2, SWITCH, rec, e, w) == [] {
      NoSpansSame(U2, SWITCH, e, w, rec);
    }
  }

  lemma ReplacingFlash()
    ensures MacrosFit(ONE_TOCK) && MacrosFit(ONE_TICK) && MacrosFit(NO_MACROS)
    ensures FlashTakes(U2, SWITCH, TickAreas()[0], ONE_TOCK, ONE_TICK)
    ensures FlashTakes(U2, SWITCH, TickAreas()[1], NO_MACROS, NO_MACROS) && FlashTakes(U2, SWITCH, TickAreas()[2], NO_MACROS, NO_MACROS)
    ensures Changing(ONE_TOCK, ONE_TICK, 0) && !OldLeft(TICK.steps, TOCK.steps, !AnyChanging(ONE_TOCK, ONE_TICK, 0), Analog(U2, SWITCH))
  {
    hide TickAreas, OnlyClears;
    OneMacroAlwaysTakes(U2, SWITCH, TickAreas()[0], ONE_TOCK, ONE_TICK, 0);
    assert TICK.steps[0].millis == 1 && TOCK.steps[0].millis == 2;
  }

  lemma ReplacingMacros()
    ensures var e, w := Replacing(), ProfileOf(U2, TickRecord(), TickAreas(), 2);
            && e.macros == [ONE_TOCK, NO_MACROS, NO_MACROS] && w.macros == [ONE_TICK, NO_MACROS, NO_MACROS]
            && e.effect == 1 && w.effect == 2 && Ready(U2, e.macros, w.macros)
  {
    ReplacingEdited();
    TickProfile();
    hide ProfileOf, TickRecord, TickAreas, PlanReady;
  }

  lemma ReplacingLeaves(e: seq<seq<Macro>>, w: seq<seq<Macro>>)
    requires e == [ONE_TOCK, NO_MACROS, NO_MACROS] && w == [ONE_TICK, NO_MACROS, NO_MACROS] && Ready(U2, e, w)
    ensures AllFlashTakes(U2, SWITCH, TickAreas(), e, w, U2.slots) && !AllLeft(U2, SWITCH, e, w)
  {
    ReplacingFlash();
    hide TickAreas, FlashTakes, OldLeft, Changing, AnyChanging;
    assert Changing(e[0], w[0], 0);
  }

  /**
   Fault-free flash takes the new steps, the effect is refused, and the rollback commits the old record
   with its header for one millisecond's wait over storage of two.
   */
  lemma RollbackOverNewSteps(log: seq<Snapshot>, from: nat)
    requires OldRecordFirst(U2, SWITCH, Replacing(), TickRecord(), TickAreas(), 2, log, from)
    ensures Edited(U2, SWITCH, Replacing(), TickRecord(), TickAreas(), 2)
    ensures !FlashCarries(U2, SWITCH, Replacing(), TickRecord(), TickAreas(), 2)
    ensures Ready(U2, Replacing().macros, ProfileOf(U2, TickRecord(), TickAreas(), 2).macros)
    ensures CommitTells(U2, SWITCH, TickRecord(), ProfileOf(U2, TickRecord(), TickAreas(), 2).macros, log, from, false)
  {
    hide ProfileOf, TickRecord, TickAreas, PlannedSpans, Replacing, AllFlashTakes, AllLeft, PlanReady, OldRecordFirst, CommitTells, Edited;
    var e, w := Replacing(), ProfileOf(U2, TickRecord(), TickAreas(), 2);
    ReplacingSpans();
    ReplacingMacros();
    ReplacingLeaves(e.macros, w.macros);
    RollbackTells(U2, SWITCH, e, TickRecord(), TickAreas(), 2, log, from);
    assert !EffectTakes(EffectFor(U2, e, w.effect), w.effect);
  }

  lemma TockNotThere()
    ensures MacrosFit(ONE_TOCK) && Changing(ONE_TOCK, ONE_TICK, 0) && !HoldsSteps(U2, SWITCH, TickAreas()[0], 0, TOCK.steps)
  {
    var analog := Analog(U2, SWITCH);
    assert StepsEncoded(TICK.steps, analog) == [] + EncodeStep(TICK.steps[0], analog);
    assert StepsEncoded(TOCK.steps, analog) == [] + EncodeStep(TOCK.steps[0], analog);
    assert StepsEncoded(TICK.steps, analog)[0] == 1 && StepsEncoded(TOCK.steps, analog)[0] == 2;
    assert TickAreas()[0][0] == 1;
  }

  /**
   The write of the new steps did not land, so the rollback writes the old record; garbled, that write
   may land as any other record, and its commit then has a changed header without its steps.
   */
  lemma GarbledRollback(rec: seq<Byte>)
    requires |rec| == U2.size && rec != TickRecord()
    ensures MayLand(Garbles, TickRecord(), TickRecord(), rec)
    ensures Ready(U2, Replacing().macros, ProfileOf(U2, TickRecord(), TickAreas(), 2).macros)
    ensures !HeadersLast(U2, SWITCH, Replacing().macros, ProfileOf(U2, TickRecord(), TickAreas(), 2).macros, TickRecord(),
                         [Snapshot(rec, TickAreas())], 0)
  {
    ReplacingMacros();
    TockNotThere();
    hide ProfileOf, TickRecord, TickAreas, Replacing, HoldsSteps, Changing;
    var e, w := Replacing().macros, ProfileOf(U2, TickRecord(), TickAreas(), 2).macros;
    assert e[0][0] == TOCK && !HoldsChanging(U2, SWITCH, TickAreas()[0], e[0], w[0]);
    assert Areas(TickAreas()) && !StepsThere(U2, SWITCH, e, w, TickAreas(), U2.slots);
    var log := [Snapshot(rec, TickAreas())];
    assert log[0].record == rec && log[0].macros == TickAreas();
  }
}

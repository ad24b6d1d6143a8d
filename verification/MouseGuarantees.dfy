/** What a Retro R8 mouse's owner sees after an apply: the edited profile, or the one there was. */
module MouseGuarantees {
  import opened Bytes
  import opened Names
  import opened MouseMacros
  import opened MouseDevice
  import opened MouseCodec
  import opened MouseApply

  /** A mouse that shows what was wanted shows the edited profile exactly when the names it gives are storable. */
  lemma AppliedProfile(b: Snap, e: Profile, read: State)
    requires b.Ok() && AsRead(read) && e.Ok() && Accepts(e, read) && (read.settings.InUse() || e.name != [])
    requires forall i :: 0 <= i < SLOTS ==> WellFormed(e.macros[i].name)
    requires Shows(b, NewState(e, read))
    ensures Decode(Read(b).value) == Normal(e, Decode(read)) <==> NamesRead(e, Decode(read))
  {
    var want := NewState(e, read);
    ProfileRoundTrip(e, read);
    hide NewState, Accepts, NamesRead, Read;
    if want.settings.InUse() {
      NameShown(b, want);
      SameProfile(Read(b).value, Visible(want));
    } else {
      hide StageOf, PlanOf, DecodeName;
      assert !Decode(Read(b).value).inUse && !Decode(Visible(want)).inUse;
    }
  }

  lemma NameShown(b: Snap, want: State)
    requires b.Ok() && want.Ok() && want.settings.InUse() && Shows(b, want)
    ensures Read(b).value.settings.InUse()
  {
    assert ValueSame(ValueOf(Read(b).value.settings, NamePart), ValueOf(want.settings, NamePart));
  }

  /** A mouse that shows what was read of it shows the same profile as then. */
  lemma RestoredProfile(a: Snap, c: Snap, read: State)
    requires WasRead(a, read) && c.Ok() && Shows(c, read)
    ensures Decode(Read(c).value) == Decode(read)
  {
    hide StageOf, PlanOf, DecodeName;
    if read.settings.InUse() {
      NameShown(c, read);
      assert Visible(read).macros == read.macros;
      SameProfile(Read(c).value, read);
    }
  }

  /**
   Creating a profile without touching the stages sends no stage in use, so a mouse whose own was
   another goes on using it: it does not show the profile that was created.
   */
  lemma CreatedStageUnsent(a: Snap, b: Snap, e: Profile, read: State, honest: bool)
    requires WasRead(a, read) && b.Ok() && e.Ok() && Accepts(e, read) && !read.settings.InUse()
    requires e.stages == Decode(read).stages && e.active == Decode(read).active && a.held.stage != 0
    requires PartsFor(e, read) != [] && Applied(a, b, e, read, honest)
    ensures !Shows(b, NewState(e, read))
  {
    var want, have := NewState(e, read), Base(read);
    assert want.settings.stage == 0;
    forall i | 0 <= i < STAGES
      ensures want.settings.dpi[AXIS_X].mask[i] == have.settings.dpi[AXIS_X].mask[i]
      ensures want.settings.dpi[AXIS_Y].mask[i] == have.settings.dpi[AXIS_Y].mask[i]
    {
      StageShows(e, read, i);
      assert e.stages[i] == Decode(read).stages[i] == StageOf(have.settings.dpi[AXIS_X], have.settings.dpi[AXIS_Y], i);
    }
    assert want.settings.dpi == NewStages(e, Decode(read), have.settings.dpi);
    SameMasks(want.settings.dpi, have.settings.dpi, e, Decode(read));
    hide Shows, NewState, Accepts, PartsFor;
  }

  lemma SameMasks(want: seq<Dpi>, have: seq<Dpi>, e: Profile, w: Profile)
    requires e.Ok() && w.Ok() && |have| == 2 && e.stages == w.stages
    requires forall a :: 0 <= a < 2 ==> |have[a].mask| == 8 && |have[a].values| == STAGES
    requires want == NewStages(e, w, have)
    requires forall i :: 0 <= i < STAGES ==> want[AXIS_X].mask[i] == have[AXIS_X].mask[i]
    requires forall i :: 0 <= i < STAGES ==> want[AXIS_Y].mask[i] == have[AXIS_Y].mask[i]
    ensures want[AXIS_X].mask == have[AXIS_X].mask && want[AXIS_Y].mask == have[AXIS_Y].mask
    ensures want[AXIS_X].values == have[AXIS_X].values
  {
    assert Xs(e) == Xs(w);
  }

  // ---- Two mice that show where the exact conditions bite

  const NO_RECORDS := Macro(0, 0, Fill(NAME_LEN, 0), [])
  const NAMED: seq<Byte> := [0, 65] + Fill(PROFILE_NAME - 2, 0)

  /** A mouse with a profile two of whose buttons play macros without records. */
  const EMPTY_PLAYED := Snap(
    DEFAULTS.(name := NAMED, buttons := [Entry(0, 2), Entry(0, 3), Entry(1, 5), Entry(1, 4), Entry(0, 0), Entry(0, 0)]),
    Store([NO_RECORDS, NO_RECORDS, NO_RECORDS, NO_RECORDS], 0, []), 800)

  const NO_RECORDS_READ := Macro(0, 0, Fill(NAME_READ, 0), [])

  /** What is read of it. */
  const READ_EMPTY := State(EMPTY_PLAYED.held, [NO_RECORDS_READ, NO_RECORDS_READ, NO_MACRO, NO_MACRO])

  lemma EmptyPlayedReads()
    ensures WasRead(EMPTY_PLAYED, READ_EMPTY)
  {
    var a, read := EMPTY_PLAYED, READ_EMPTY;
    assert NO_RECORDS.name[..NAME_READ] == Fill(NAME_READ, 0);
    assert ReadsAs(NO_RECORDS) == Ok(NO_RECORDS_READ);
    assert a.held.Plays(0) && a.held.Plays(1) && !a.held.Plays(2) && !a.held.Plays(3);
    assert MacrosReadable(a);
    assert Read(a).value.macros == read.macros;
  }

  const TAP := MacroPlan([], [MacroStep(KEY_DOWN, 4, 10), MacroStep(KEY_UP, 4, 10)], 1, 0)

  /** It is edited to give both buttons a macro that taps a key. */
  function GiveMacros(): Profile { Decode(READ_EMPTY).(macros := [TAP, TAP, NO_PLAN, NO_PLAN]) }

  function WithMacros(): State { READ_EMPTY.(macros := [Wire(TAP), Wire(TAP), NO_MACRO, NO_MACRO]) }

  lemma GiveMacrosAccepted()
    ensures GiveMacros().Ok() && Accepts(GiveMacros(), READ_EMPTY) && NewState(GiveMacros(), READ_EMPTY) == WithMacros()
  {
    var e, w := GiveMacros(), Decode(READ_EMPTY);
    assert READ_EMPTY.settings.InUse() && Base(READ_EMPTY) == READ_EMPTY;
    hide DecodeName;
    assert PlanOk(TAP);
    assert w.macros == [NO_PLAN, NO_PLAN, NO_PLAN, NO_PLAN];
    assert e.stages[0].enabled;
    forall i | 0 <= i < BUTTONS
      ensures ButtonTakes(e, w, READ_EMPTY, i)
    {
    }
    assert Accepts(e, READ_EMPTY);
    assert NewMacros(e, w, READ_EMPTY, SLOTS) == WithMacros().macros;
    assert NewButtons(e, w, READ_EMPTY, BUTTONS) == READ_EMPTY.settings.buttons;
    SameStages(READ_EMPTY.settings.dpi, e, w);
  }

  /** An edit that leaves the stages alone stores what was stored. */
  lemma SameStages(dpi: seq<Dpi>, e: Profile, w: Profile)
    requires e.Ok() && w.Ok() && |dpi| == 2 && e.stages == w.stages
    requires forall a :: 0 <= a < 2 ==> |dpi[a].mask| == 8 && |dpi[a].values| == STAGES
    requires forall i :: 0 <= i < STAGES ==> w.stages[i] == StageOf(dpi[AXIS_X], dpi[AXIS_Y], i)
    ensures NewStages(e, w, dpi) == dpi
  {
    assert Xs(e) == Xs(w) && Ys(e) == Ys(w);
    var r := NewStages(e, w, dpi);
    forall i | 0 <= i < STAGES
      ensures Enabled(e)[i] == dpi[AXIS_X].mask[i] && Split(e)[i] == dpi[AXIS_Y].mask[i]
    {
      assert w.stages[i] == StageOf(dpi[AXIS_X], dpi[AXIS_Y], i);
    }
    assert r[AXIS_X].mask == dpi[AXIS_X].mask && r[AXIS_X].values == dpi[AXIS_X].values;
    assert r[AXIS_Y].mask == dpi[AXIS_Y].mask && r[AXIS_Y].values == dpi[AXIS_Y].values;
  }

  /** An edit of macros alone has no setting to write. */
  lemma {:induction false} NoSettingDue(want: State, have: State, n: nat)
    requires want.Ok() && have.Ok() && want.settings == have.settings && n <= MACRO_PARTS
    ensures PartsDue(want, have, false, n) == []
  {
    if n > 0 {
      NoSettingDue(want, have, n - 1);
      PartPlaces(n - 1);
    }
  }

  lemma ReadEmptyParts()
    ensures READ_EMPTY.Ok() && AsRead(READ_EMPTY) && READ_EMPTY.settings.InUse() && Base(READ_EMPTY) == READ_EMPTY
    ensures WithMacros().Ok() && WithMacros().settings == READ_EMPTY.settings
    ensures Skipped(MacroPart(0), READ_EMPTY)
    ensures !Leaves(MacroPart(0), WithMacros()) && !Leaves(MacroPart(1), WithMacros())
  {
  }

  lemma GiveMacrosDue(slot: nat)
    requires slot < SLOTS
    ensures Due(MacroPart(slot), WithMacros(), READ_EMPTY, false) <==> slot < 2
  {
    assert READ_EMPTY.settings.Plays(slot) <==> slot < 2;
  }

  lemma GiveMacrosParts()
    ensures GiveMacros().Ok() && Accepts(GiveMacros(), READ_EMPTY)
    ensures PartsFor(GiveMacros(), READ_EMPTY) == [MacroPart(0), MacroPart(1)]
  {
    hide Wire, GiveMacros, NewState, Accepts, WithMacros, Due, READ_EMPTY, EMPTY_PLAYED;
    GiveMacrosAccepted();
    ReadEmptyParts();
    var want, have := WithMacros(), READ_EMPTY;
    NoSettingDue(want, have, MACRO_PARTS);
    forall slot: nat | slot < SLOTS
      ensures Due(MacroPart(slot), want, have, false) <==> slot < 2
    {
      GiveMacrosDue(slot);
    }
    assert PartsDue(want, have, false, 16) == [MacroPart(0)] by { PartPlaces(15); }
    assert PartsDue(want, have, false, 17) == [MacroPart(0), MacroPart(1)] by { PartPlaces(16); }
    assert PartsDue(want, have, false, 18) == [MacroPart(0), MacroPart(1)] by { PartPlaces(17); }
    assert PartsDue(want, have, false, 19) == [MacroPart(0), MacroPart(1)] by { PartPlaces(18); }
  }

  /** The first macro arrived and the header of the second got lost. */
  function OneGiven(): Snap {
    EMPTY_PLAYED.(store := EMPTY_PLAYED.store.(macros :=
      [Wire(TAP).(name := Wire(TAP).name + Fill(NAME_LEN - NAME_READ, 0)), NO_RECORDS, NO_RECORDS, NO_RECORDS]))
  }

  lemma OneGivenSofar()
    ensures OneGiven().Ok()
    ensures Sofar(EMPTY_PLAYED, OneGiven(), [MacroPart(0), MacroPart(1)], WithMacros(), 1, 2, true)
    ensures Sofar(OneGiven(), OneGiven(), [MacroPart(0), MacroPart(1)], READ_EMPTY, 2, 2, true)
  {
    var stored, parts := OneGiven().store.macros[0], [MacroPart(0), MacroPart(1)];
    assert stored.name[..NAME_READ] == Wire(TAP).name && stored.records[..2] == stored.records;
    assert ReadsAs(stored) == Ok(Wire(TAP));
    assert parts[..1] == [MacroPart(0)] && parts[..2] == parts;
    hide Wire, ReadsAs, ValueOf, ValueSame;
    assert IsAt(OneGiven(), MacroPart(0), WithMacros());
  }

  /**
   An apply of it that fails at the second macro is undone with success, as the two macros had no
   records there is nothing to write back, and still the mouse shows another profile: its button now
   taps a key.
   */
  lemma UndoLeavesAMacro()
    ensures WasRead(EMPTY_PLAYED, READ_EMPTY) && OneGiven().Ok()
    ensures GiveMacros().Ok() && Accepts(GiveMacros(), READ_EMPTY)
    ensures var parts := PartsFor(GiveMacros(), READ_EMPTY);
            && Distinct(parts) && |parts| == 2
            && Sofar(EMPTY_PLAYED, OneGiven(), parts, NewState(GiveMacros(), READ_EMPTY), 1, 2, true)
            && Sofar(OneGiven(), OneGiven(), parts[..2], READ_EMPTY, 2, 2, true)
            && !Shows(OneGiven(), READ_EMPTY)
  {
    hide Wire, GiveMacros, OneGiven, WithMacros, NewState, Accepts, PartsFor, Sofar, Shows, WasRead, IsAt, Skipped, Leaves, ReadsAs, READ_EMPTY, EMPTY_PLAYED;
    EmptyPlayedReads();
    GiveMacrosAccepted();
    GiveMacrosParts();
    ReadEmptyParts();
    OneGivenSofar();
    var b, parts := OneGiven(), [MacroPart(0), MacroPart(1)];
    assert parts[..2] == parts;
    assert Skipped(parts[0], READ_EMPTY);
    UndoneShows(EMPTY_PLAYED, b, b, parts, WithMacros(), READ_EMPTY, 1, true);
  }

  /** A mouse without a profile whose fourth stage is in use. */
  const UNNAMED := Snap(
    DEFAULTS.(stage := 3), Store([NO_RECORDS, NO_RECORDS, NO_RECORDS, NO_RECORDS], 0, []), 2400)

  /** A profile made on it by giving it a name and nothing else. */
  function GiveName(): Profile { Decode(Unread(UNNAMED.held.name)).(name := [65]) }

  function Created(): Snap { UNNAMED.(held := UNNAMED.held.(name := MouseName([65], PROFILE_NAME))) }

  lemma GiveNameAccepted()
    ensures WasRead(UNNAMED, Unread(UNNAMED.held.name))
    ensures GiveName().Ok() && Accepts(GiveName(), Unread(UNNAMED.held.name))
    ensures NewState(GiveName(), Unread(UNNAMED.held.name))
         == State(DEFAULTS.(name := MouseName([65], PROFILE_NAME)), [NO_MACRO, NO_MACRO, NO_MACRO, NO_MACRO])
  {
    var read := Unread(UNNAMED.held.name);
    var e, w := GiveName(), Decode(read);
    DefaultName();
    assert !read.settings.InUse();
    hide DecodeName, MouseName;
    assert w.name == [] && w.macros == [NO_PLAN, NO_PLAN, NO_PLAN, NO_PLAN];
    assert e.stages[0].enabled;
    forall i | 0 <= i < BUTTONS
      ensures ButtonTakes(e, w, Base(read), i)
    {
    }
    assert NewMacros(e, w, Base(read), SLOTS) == [NO_MACRO, NO_MACRO, NO_MACRO, NO_MACRO];
    assert NewButtons(e, w, Base(read), BUTTONS) == DEFAULTS.buttons;
    SameStages(DEFAULTS.dpi, e, w);
  }

  lemma GiveNameDue(want: State, have: State, p: Part)
    requires want.Ok() && have.Ok() && want.settings == have.settings.(name := want.settings.name) && p.Ok()
    requires forall i :: 0 <= i < SLOTS ==> want.macros[i].records == []
    ensures Due(p, want, have, true) <==> !p.MacroPart? && p != StagePart
    ensures Due(NamePart, want, have, false) <==> want.settings.name != have.settings.name
  {
  }

  lemma NameDiffers()
    ensures MouseName([65], PROFILE_NAME)[0] == 0 && MouseName([65], PROFILE_NAME)[1] == 65 && DEFAULTS.name[1] == 0
  {
    assert UnitBytes([65])[0] == 0 && UnitBytes([65])[1] == 65;
  }

  /** Every setting but the stage in use is written, and no macro. */
  lemma GiveNameParts(p: Part)
    requires GiveName().Ok() && Accepts(GiveName(), Unread(UNNAMED.held.name))
    ensures Distinct(PartsFor(GiveName(), Unread(UNNAMED.held.name)))
    ensures p in PartsFor(GiveName(), Unread(UNNAMED.held.name)) <==> p.Ok() && !p.MacroPart? && p != StagePart
  {
    hide GiveName, NewState, Accepts, PartsDue, Due, MouseName;
    var read := Unread(UNNAMED.held.name);
    GiveNameAccepted();
    NameDiffers();
    var want, have := NewState(GiveName(), read), Base(read);
    assert !read.settings.InUse() && have == State(DEFAULTS, [NO_MACRO, NO_MACRO, NO_MACRO, NO_MACRO]);
    hide Unread, Base;
    PartsDueAre(want, have, true);
    PartDue(want, have, false, |ALL_PARTS|, NamePart);
    GiveNameDue(want, have, NamePart);
    assert PartsFor(GiveName(), read) == PartsDue(want, have, true, |ALL_PARTS|);
    if p.Ok() {
      GiveNameDue(want, have, p);
    }
  }

  lemma CreatedSofar(want: State, parts: seq<Part>)
    requires want == State(DEFAULTS.(name := MouseName([65], PROFILE_NAME)), [NO_MACRO, NO_MACRO, NO_MACRO, NO_MACRO])
    requires Distinct(parts) && forall p: Part :: p in parts <==> p.Ok() && !p.MacroPart? && p != StagePart
    ensures Created().Ok() && Sofar(UNNAMED, Created(), parts, want, |parts|, |parts|, true)
  {
    hide MouseName;
    assert parts[..|parts|] == parts;
    var b := Created();
    forall q: Part | q in parts
      ensures IsAt(b, q, want)
    {
      assert ValueOf(b.held, q) == ValueOf(want.settings, q);
    }
  }

  /** Every part of that profile can be written and kept, and the mouse still does not show it: it goes on using stage four. */
  lemma CreatedOnAnotherStage()
    ensures WasRead(UNNAMED, Unread(UNNAMED.held.name)) && Created().Ok()
    ensures GiveName().Ok() && Accepts(GiveName(), Unread(UNNAMED.held.name))
    ensures var read := Unread(UNNAMED.held.name);
            var want, parts := NewState(GiveName(), read), PartsFor(GiveName(), read);
            && Distinct(parts) && parts != []
            && Sofar(UNNAMED, Created(), parts, want, |parts|, |parts|, true)
            && !Shows(Created(), want)
  {
    var read := Unread(UNNAMED.held.name);
    GiveNameAccepted();
    var want, parts := NewState(GiveName(), read), PartsFor(GiveName(), read);
    forall p: Part
      ensures p in parts <==> p.Ok() && !p.MacroPart? && p != StagePart
    {
      GiveNameParts(p);
    }
    GiveNameParts(NamePart);
    CreatedSofar(want, parts);
    NotDueStage(want, Base(read));
    NameDiffers();
    assert want.settings.InUse();
    hide GiveName, NewState, Accepts, PartsFor, Sofar, Read, AsRead, Shows, StageDue, MouseName;
    CreatedShows(UNNAMED, Created(), GiveName(), read, true);
  }

  lemma NotDueStage(want: State, have: State)
    requires want.Ok() && have.Ok() && want.settings.dpi == have.settings.dpi && want.settings.stage == have.settings.stage
    ensures !StageDue(want.settings, have.settings)
  {
  }
}

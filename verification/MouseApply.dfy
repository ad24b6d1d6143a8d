/**
 Applying an edited profile to a Retro R8 mouse: only the parts that differ are written, each is read
 back, and what was written is put back when one fails.
 */
module MouseApply {
  import opened Bytes
  import opened Names
  import opened MouseMacros
  import opened MouseDevice
  import opened MouseCodec

  /** Everything a profile is written in, in the order it is written. */
  const ALL_PARTS: seq<Part> := [
    NamePart, LeftHandedPart, ButtonPart(0), ButtonPart(1), ButtonPart(2), ButtonPart(3), ButtonPart(4), ButtonPart(5),
    LiftOffPart, WheelSpeedPart, WheelDirPart, DpiPart(0), DpiPart(1), RatePart, StagePart,
    MacroPart(0), MacroPart(1), MacroPart(2), MacroPart(3)]

  /** Where the parts that are settings end. */
  const MACRO_PARTS: nat := 15

  /** A part's place in the order. */
  function PlaceOf(p: Part): (i: nat)
    requires p.Ok()
    ensures i < |ALL_PARTS| && ALL_PARTS[i] == p && (i < MACRO_PARTS <==> !p.MacroPart?)
  {
    match p
    case NamePart => 0
    case LeftHandedPart => 1
    case ButtonPart(b) => 2 + b
    case LiftOffPart => 8
    case WheelSpeedPart => 9
    case WheelDirPart => 10
    case DpiPart(a) => 11 + a
    case RatePart => 13
    case StagePart => 14
    case MacroPart(s) => 15 + s
  }

  lemma PartPlaces(i: nat)
    requires i < |ALL_PARTS|
    ensures ALL_PARTS[i].Ok() && PlaceOf(ALL_PARTS[i]) == i && (i < MACRO_PARTS <==> !ALL_PARTS[i].MacroPart?)
  {
  }

  // ---- What is the same

  /** The sixth rate counts only when there are six. */
  predicate RateSame(a: Rate, b: Rate) {
    && a.count == b.count && a.current == b.current && |a.rates| == |b.rates| == RATES
    && a.rates[..5] == b.rates[..5] && (a.count == 6 ==> a.rates[5] == b.rates[5])
  }

  predicate ValueSame(a: Value, b: Value) {
    if a.RateIs? && b.RateIs? then RateSame(a.rate, b.rate) else a == b
  }

  /** Two sets of settings that show the same. */
  ghost predicate SettingsSame(a: Settings, b: Settings)
    requires a.Ok() && b.Ok()
  {
    forall p: Part :: p.Ok() && !p.MacroPart? ==> ValueSame(ValueOf(a, p), ValueOf(b, p))
  }

  lemma SettingsSameMeans(a: Settings, b: Settings)
    requires a.Ok() && b.Ok()
    ensures SettingsSame(a, b) <==> RateSame(a.rate, b.rate) && a == b.(rate := a.rate)
  {
    if SettingsSame(a, b) {
      forall i | 0 <= i < BUTTONS
        ensures a.buttons[i] == b.buttons[i]
      {
        assert ValueSame(ValueOf(a, ButtonPart(i)), ValueOf(b, ButtonPart(i)));
      }
      assert ValueSame(ValueOf(a, NamePart), ValueOf(b, NamePart)) && ValueSame(ValueOf(a, LeftHandedPart), ValueOf(b, LeftHandedPart));
      assert ValueSame(ValueOf(a, LiftOffPart), ValueOf(b, LiftOffPart)) && ValueSame(ValueOf(a, WheelSpeedPart), ValueOf(b, WheelSpeedPart));
      assert ValueSame(ValueOf(a, WheelDirPart), ValueOf(b, WheelDirPart)) && ValueSame(ValueOf(a, StagePart), ValueOf(b, StagePart));
      assert ValueSame(ValueOf(a, DpiPart(0)), ValueOf(b, DpiPart(0))) && ValueSame(ValueOf(a, DpiPart(1)), ValueOf(b, DpiPart(1)));
      assert ValueSame(ValueOf(a, RatePart), ValueOf(b, RatePart));
      assert a.buttons == b.buttons && a.dpi == b.dpi;
    }
  }

  // ---- What a mouse holds

  /** What a mouse holds at one moment. */
  datatype Snap = Snap(held: Settings, store: Store, dpi: U16)
  {
    ghost predicate Ok() { held.Ok() && store.Ok() }
  }

  ghost function Now(m: Mouse): Snap
    reads m
  {
    Snap(m.held, m.store, m.stageDpi)
  }

  /** A part reads as a state has it. */
  ghost predicate IsAt(n: Snap, p: Part, s: State)
    requires n.Ok() && s.Ok() && p.Ok()
  {
    if p.MacroPart? then ReadsAs(n.store.macros[p.slot]) == Ok(s.macros[p.slot])
    else ValueSame(ValueOf(n.held, p), ValueOf(s.settings, p))
  }

  /** A part is as it was. */
  ghost predicate Untouched(a: Snap, b: Snap, p: Part)
    requires a.Ok() && b.Ok() && p.Ok()
  {
    if p.MacroPart? then a.store.macros[p.slot] == b.store.macros[p.slot] else ValueOf(a.held, p) == ValueOf(b.held, p)
  }

  /** The stage in use has the DPI the table of stages says. */
  ghost predicate StageMatches(n: Snap)
    requires n.Ok()
  {
    n.held.stage < STAGES ==> n.dpi == n.held.dpi[AXIS_X].values[n.held.stage]
  }

  /** A mouse whose every playing button has a macro that can be read. */
  ghost predicate MacrosReadable(n: Snap)
    requires n.Ok()
  {
    forall i :: 0 <= i < SLOTS && n.held.Plays(i) ==> ReadsAs(n.store.macros[i]).Ok?
  }

  /** What reading the whole profile gives: only the name where there is none, and a macro for each button that plays one. */
  ghost function Read(n: Snap): (r: Result<State>)
    requires n.Ok()
    ensures r.Ok? ==> r.value.Ok()
  {
    if !n.held.InUse() then Ok(Unread(n.held.name))
    else if !MacrosReadable(n) then Err
    else Ok(State(n.held, seq(SLOTS, i requires 0 <= i < SLOTS => if n.held.Plays(i) then ReadsAs(n.store.macros[i]).value else NO_MACRO)))
  }

  /** A state of which only the name was read. */
  function Unread(name: seq<Byte>): (s: State)
    requires |name| == PROFILE_NAME
    ensures s.Ok() && s.settings.name == name
  {
    var blank := Dpi([false, false, false, false, false, false, false, false], [0, 0, 0, 0, 0, 0]);
    var none := Entry(0, 0);
    State(Settings(name, [none, none, none, none, none, none], 0, 0, 0, 0, [blank, blank], Rate(0, 0, [0, 0, 0, 0, 0, 0]), 0),
          [NO_MACRO, NO_MACRO, NO_MACRO, NO_MACRO])
  }

  /** Reading the profile shows what a state shows. */
  ghost predicate Shows(n: Snap, s: State)
    requires n.Ok() && s.Ok()
  {
    && Read(n).Ok?
    && if s.settings.InUse() then
         SettingsSame(Read(n).value.settings, s.settings) && Read(n).value.macros == Visible(s).macros
       else !Read(n).value.settings.InUse()
  }

  /** A mouse shows a state with a profile exactly when each part that shows reads as the state has it. */
  lemma ShowsMeans(n: Snap, s: State)
    requires n.Ok() && s.Ok() && s.settings.InUse()
    ensures Shows(n, s) <==>
            && SettingsSame(n.held, s.settings)
            && forall i :: 0 <= i < SLOTS && s.settings.Plays(i) ==> IsAt(n, MacroPart(i), s)
  {
    if Shows(n, s) {
      assert ValueSame(ValueOf(Read(n).value.settings, NamePart), ValueOf(s.settings, NamePart));
      SettingsSameMeans(n.held, s.settings);
      forall i | 0 <= i < SLOTS && s.settings.Plays(i)
        ensures IsAt(n, MacroPart(i), s)
      {
        assert Read(n).value.macros[i] == Visible(s).macros[i];
      }
    }
    if SettingsSame(n.held, s.settings) && forall i :: 0 <= i < SLOTS && s.settings.Plays(i) ==> IsAt(n, MacroPart(i), s) {
      SettingsSameMeans(n.held, s.settings);
      forall i | 0 <= i < SLOTS && n.held.Plays(i)
        ensures ReadsAs(n.store.macros[i]) == Ok(s.macros[i])
      {
        assert IsAt(n, MacroPart(i), s);
      }
      assert Read(n).value.macros == Visible(s).macros;
    }
  }

  /** States that show the same are the same profile. */
  lemma SameProfile(a: State, b: State)
    requires a.Ok() && b.Ok() && a.settings.InUse() && b.settings.InUse()
    requires SettingsSame(a.settings, b.settings) && a.macros == b.macros
    ensures Decode(a) == Decode(b)
  {
    SettingsSameMeans(a.settings, b.settings);
    hide SettingsSame, DecodeName, PlanOf;
    assert Decode(a).stages == Decode(b).stages && Decode(a).assignments == Decode(b).assignments && Decode(a).macros == Decode(b).macros;
  }

  // ---- Reading the profile

  function WithValue(s: Settings, p: Part, v: Value): (r: Settings)
    requires s.Ok() && p.Ok() && !p.MacroPart? && exists from: Settings :: from.Ok() && ValueOf(from, p) == v
    ensures r.Ok() && ValueOf(r, p) == v && SameExcept(r, s, p)
  {
    match p
    case NamePart => s.(name := v.name)
    case LeftHandedPart => s.(leftHanded := v.byte)
    case ButtonPart(i) => s.(buttons := s.buttons[i := v.entry])
    case LiftOffPart => s.(liftOff := v.byte)
    case WheelSpeedPart => s.(wheelSpeed := v.byte)
    case WheelDirPart => s.(wheelDir := v.byte)
    case DpiPart(a) => s.(dpi := s.dpi[a := v.dpi])
    case RatePart => s.(rate := v.rate)
    case StagePart => s.(stage := v.byte)
  }

  /** The first n parts are as the mouse has them. */
  ghost predicate ReadUpTo(s: Settings, held: Settings, n: nat)
    requires s.Ok() && held.Ok() && n <= MACRO_PARTS
  {
    forall j :: 0 <= j < n ==> SettingAt(s, j) == SettingAt(held, j)
  }

  function SettingAt(s: Settings, i: nat): Value
    requires s.Ok() && i < MACRO_PARTS
  {
    PartPlaces(i);
    ValueOf(s, ALL_PARTS[i])
  }

  lemma ReadNext(s: Settings, next: Settings, held: Settings, i: nat)
    requires s.Ok() && held.Ok() && i < MACRO_PARTS && ReadUpTo(s, held, i) && SameExcept(next, s, ALL_PARTS[i])
    requires SettingAt(next, i) == SettingAt(held, i)
    ensures ReadUpTo(next, held, i + 1)
  {
    hide ValueOf;
    forall j | 0 <= j < i
      ensures SettingAt(next, j) == SettingAt(held, j)
    {
      PartPlaces(j);
      PartPlaces(i);
      assert SettingAt(s, j) == SettingAt(held, j);
    }
  }

  lemma AllRead(s: Settings, held: Settings)
    requires s.Ok() && held.Ok() && ReadUpTo(s, held, MACRO_PARTS)
    ensures s == held
  {
    forall p: Part | p.Ok() && !p.MacroPart?
      ensures ValueOf(s, p) == ValueOf(held, p)
    {
      var i := PlaceOf(p);
      assert SettingAt(s, i) == SettingAt(held, i);
    }
    SettingsSameMeans(s, held);
    assert ValueOf(s, RatePart) == ValueOf(held, RatePart);
  }

  /** Asks for one setting after another. */
  method ReadSettings(m: Mouse, name: seq<Byte>) returns (r: Result<Settings>)
    requires m.Valid() && name == m.held.name
    ensures r.Ok? ==> r.value == m.held
    ensures m.faults == NoFault ==> r.Ok?
  {
    var s := Unread(name).settings;
    assert SettingAt(s, 0) == SettingAt(m.held, 0);
    assert ReadUpTo(s, m.held, 1);
    hide ValueOf, WithValue, ReadUpTo, Unread;
    for i := 1 to MACRO_PARTS
      invariant s.Ok() && ReadUpTo(s, m.held, i)
    {
      PartPlaces(i);
      var seen := m.Get(ALL_PARTS[i]);
      if seen.None? { return Err; }
      var next := WithValue(s, ALL_PARTS[i], seen.value);
      ReadNext(s, next, m.held, i);
      s := next;
    }
    AllRead(s, m.held);
    return Ok(s);
  }

  /** Reads the macro of each button that plays one. */
  method ReadMacros(m: Mouse) returns (r: Result<seq<Macro>>)
    requires m.Valid() && m.held.InUse()
    modifies m`store
    ensures m.Valid() && m.store.macros == old(m.store.macros)
    ensures r.Ok? ==> MacrosReadable(Now(m)) && r.value == Read(Now(m)).value.macros
    ensures m.faults == NoFault ==> (r.Ok? <==> MacrosReadable(Now(m)))
  {
    var macros: seq<Macro> := [];
    for i := 0 to SLOTS
      invariant m.Valid() && m.store.macros == old(m.store.macros) && |macros| == i
      invariant forall j :: 0 <= j < i && m.held.Plays(j) ==> ReadsAs(m.store.macros[j]) == Ok(macros[j])
      invariant forall j :: 0 <= j < i && !m.held.Plays(j) ==> macros[j] == NO_MACRO
    {
      if m.held.Plays(i) {
        var got := ReadMacro(m, i + FIRST_BUTTON);
        if got.Err? { return Err; }
        macros := macros + [got.value];
      } else {
        macros := macros + [NO_MACRO];
      }
    }
    assert MacrosReadable(Now(m)) && macros == Read(Now(m)).value.macros;
    return Ok(macros);
  }

  /** Reads the whole profile: nothing but the name where the name says there is none. */
  method ReadProfile(m: Mouse) returns (r: Result<State>)
    requires m.Valid()
    modifies m`store
    ensures m.Valid() && m.store.macros == old(m.store.macros)
    ensures r.Ok? ==> r == Read(Now(m)) && AsRead(r.value)
    ensures m.faults == NoFault ==> r == Read(Now(m))
  {
    var name := m.Get(NamePart);
    if name.None? { return Err; }
    if name.value.name[0] == 0 && name.value.name[1] == 0 {
      return Ok(Unread(name.value.name));
    }
    var settings := ReadSettings(m, name.value.name);
    if settings.Err? { return Err; }
    var macros := ReadMacros(m);
    if macros.Err? { return Err; }
    return Ok(State(settings.value, macros.value));
  }

  // ---- What to write

  /**
   The stage in use is sent with its DPI, so it is sent again when that changes, and when a stage is
   switched on or off or given a value of its own.
   */
  predicate StageDue(want: Settings, have: Settings)
    requires want.Ok() && have.Ok()
  {
    && want.stage < STAGES
    && (|| want.stage != have.stage || want.dpi[AXIS_X].mask != have.dpi[AXIS_X].mask
        || want.dpi[AXIS_X].values[want.stage] != have.dpi[AXIS_X].values[want.stage]
        || want.dpi[AXIS_Y].mask != have.dpi[AXIS_Y].mask)
  }

  /** Whether a part is written: it differs, or every part is written because there is no profile. */
  predicate Due(p: Part, want: State, have: State, all: bool)
    requires want.Ok() && have.Ok() && p.Ok()
  {
    match p
    case StagePart => StageDue(want.settings, have.settings)
    case MacroPart(slot) =>
      && want.settings.Plays(slot) && want.macros[slot].records != []
      && (all || !have.settings.Plays(slot) || want.macros[slot] != have.macros[slot])
    case _ => all || !ValueSame(ValueOf(want.settings, p), ValueOf(have.settings, p))
  }

  /** What each part is compared by. */
  lemma DueMeans(want: State, have: State, all: bool)
    requires want.Ok() && have.Ok()
    ensures Due(NamePart, want, have, all) <==> all || want.settings.name != have.settings.name
    ensures Due(LeftHandedPart, want, have, all) <==> all || want.settings.leftHanded != have.settings.leftHanded
    ensures Due(LiftOffPart, want, have, all) <==> all || want.settings.liftOff != have.settings.liftOff
    ensures Due(WheelSpeedPart, want, have, all) <==> all || want.settings.wheelSpeed != have.settings.wheelSpeed
    ensures Due(WheelDirPart, want, have, all) <==> all || want.settings.wheelDir != have.settings.wheelDir
    ensures forall i: nat :: i < 6 ==> (Due(ButtonPart(i), want, have, all) <==> all || want.settings.buttons[i] != have.settings.buttons[i])
    ensures forall a: nat :: a < 2 ==> (Due(DpiPart(a), want, have, all) <==> all || want.settings.dpi[a] != have.settings.dpi[a])
  {
  }

  /** The rate is compared whole but for a sixth one that is not there. */
  lemma RateDueMeans(want: State, have: State, all: bool)
    requires want.Ok() && have.Ok()
    ensures var a, b := want.settings.rate, have.settings.rate;
            Due(RatePart, want, have, all) <==>
            || all || a.count != b.count || a.current != b.current
            || a.rates[0] != b.rates[0] || a.rates[1] != b.rates[1] || a.rates[2] != b.rates[2] || a.rates[3] != b.rates[3]
            || a.rates[4] != b.rates[4] || (a.count == 6 && a.rates[5] != b.rates[5])
  {
    var a, b := want.settings.rate, have.settings.rate;
    if a.rates[..5] == b.rates[..5] {
      assert forall i :: 0 <= i < 5 ==> a.rates[..5][i] == a.rates[i] && b.rates[..5][i] == b.rates[i];
    }
  }

  /** A macro is written for a button that is to play it, if it was not played or is another than before. */
  lemma MacroDueMeans(want: State, have: State, all: bool, slot: nat)
    requires want.Ok() && have.Ok() && slot < 4
    ensures Due(MacroPart(slot), want, have, all) <==>
            && want.settings.buttons[slot + 2].macro == 1 && |want.macros[slot].records| > 0
            && (all || have.settings.buttons[slot + 2].macro != 1 || want.macros[slot] != have.macros[slot])
  {
  }

  /** The stage in use is sent when it, its value or any stage's switch changes, and never for being a new profile's. */
  lemma StageDueMeans(want: State, have: State, all: bool)
    requires want.Ok() && have.Ok()
    ensures var w, h := want.settings, have.settings;
            Due(StagePart, want, have, all) <==>
            && w.stage < 6
            && (w.stage != h.stage || w.dpi[0].mask != h.dpi[0].mask || w.dpi[0].values[w.stage] != h.dpi[0].values[w.stage] || w.dpi[1].mask != h.dpi[1].mask)
  {
  }

  function PartsDue(want: State, have: State, all: bool, n: nat): (parts: seq<Part>)
    requires want.Ok() && have.Ok() && n <= |ALL_PARTS|
    ensures |parts| <= n
  {
    if n == 0 then []
    else
      PartPlaces(n - 1);
      var p := ALL_PARTS[n - 1];
      PartsDue(want, have, all, n - 1) + if Due(p, want, have, all) then [p] else []
  }

  method ListParts(want: State, have: State, all: bool) returns (parts: seq<Part>)
    requires want.Ok() && have.Ok()
    ensures parts == PartsDue(want, have, all, |ALL_PARTS|)
  {
    hide Due;
    parts := [];
    for i := 0 to |ALL_PARTS|
      invariant parts == PartsDue(want, have, all, i)
    {
      PartPlaces(i);
      if Due(ALL_PARTS[i], want, have, all) {
        parts := parts + [ALL_PARTS[i]];
      }
    }
  }

  ghost predicate Distinct(parts: seq<Part>) {
    && (forall i :: 0 <= i < |parts| ==> parts[i].Ok())
    && (forall i, j :: 0 <= i < j < |parts| ==> parts[i] != parts[j])
  }

  lemma {:induction false} PartDue(want: State, have: State, all: bool, n: nat, p: Part)
    requires want.Ok() && have.Ok() && n <= |ALL_PARTS|
    ensures p in PartsDue(want, have, all, n) <==> p.Ok() && PlaceOf(p) < n && Due(p, want, have, all)
  {
    if n > 0 {
      PartDue(want, have, all, n - 1, p);
      PartPlaces(n - 1);
      hide Due, PlaceOf;
      assert p.Ok() && PlaceOf(p) == n - 1 ==> p == ALL_PARTS[n - 1];
    }
  }

  lemma {:induction false} DueOnce(want: State, have: State, all: bool, n: nat)
    requires want.Ok() && have.Ok() && n <= |ALL_PARTS|
    ensures Distinct(PartsDue(want, have, all, n))
  {
    if n > 0 {
      DueOnce(want, have, all, n - 1);
      PartPlaces(n - 1);
      PartDue(want, have, all, n - 1, ALL_PARTS[n - 1]);
      hide Due, PlaceOf;
    }
  }

  /** The parts written are those that are due, each once. */
  lemma PartsDueAre(want: State, have: State, all: bool)
    requires want.Ok() && have.Ok()
    ensures forall p :: p in PartsDue(want, have, all, |ALL_PARTS|) <==> p.Ok() && Due(p, want, have, all)
    ensures Distinct(PartsDue(want, have, all, |ALL_PARTS|))
  {
    DueOnce(want, have, all, |ALL_PARTS|);
    hide Due, PartsDue;
    forall p: Part
      ensures p in PartsDue(want, have, all, |ALL_PARTS|) <==> p.Ok() && Due(p, want, have, all)
    {
      PartDue(want, have, all, |ALL_PARTS|, p);
    }
  }

  // ---- Writing

  /** Nothing but one part was touched. */
  ghost predicate OnlyPart(a: Snap, b: Snap, p: Part) {
    && a.Ok() && b.Ok() && (forall q: Part :: q.Ok() && q != p ==> Untouched(a, b, q))
    && (p != StagePart ==> a.dpi == b.dpi)
  }

  /** A state whose part the mouse takes. */
  predicate Writable(p: Part, s: State)
    requires s.Ok() && p.Ok()
  {
    match p
    case StagePart => s.settings.stage < STAGES
    case MacroPart(slot) => 1 <= |s.macros[slot].records| <= MAX_RECORDS && |s.macros[slot].name| == NAME_READ
    case _ => true
  }

  method WriteSetting(m: Mouse, p: Part, s: State) returns (ok: bool)
    requires m.Valid() && s.Ok() && p.Ok() && !p.MacroPart?
    modifies m`held, m`stageDpi, m`failures
    ensures m.failures <= old(m.failures) + 1 && (ok ==> m.failures == old(m.failures))
    ensures m.Valid() && OnlyPart(old(Now(m)), Now(m), p)
    ensures ok ==> IsAt(Now(m), p, s)
    ensures m.faults == NoFault && Writable(p, s) ==> ok
    ensures ok && p == StagePart ==> s.settings.stage < STAGES
    ensures ok && p == StagePart && m.faults != Silent ==> m.stageDpi == s.settings.dpi[AXIS_X].values[s.settings.stage]
  {
    if p == StagePart && s.settings.stage >= STAGES { return false; }
    var dpi := if p == StagePart then s.settings.dpi[AXIS_X].values[s.settings.stage] else 0;
    ghost var was := m.held;
    ok := m.Put(p, s.settings, dpi);
    if !ok { return; }
    var seen := m.Get(p);
    ok := seen.Some? && ValueSame(ValueOf(s.settings, p), seen.value);
  }

  method WriteMacroPart(m: Mouse, slot: nat, s: State) returns (ok: bool)
    requires m.Valid() && s.Ok() && slot < SLOTS
    modifies m`store, m`failures
    ensures m.failures <= old(m.failures) + 1 && (ok ==> m.failures == old(m.failures))
    ensures m.Valid() && OnlyPart(old(Now(m)), Now(m), MacroPart(slot))
    ensures ok ==> IsAt(Now(m), MacroPart(slot), s)
    ensures m.faults == NoFault && Writable(MacroPart(slot), s) ==> ok
  {
    var button := slot + FIRST_BUTTON;
    ok := WriteMacro(m, button, s.macros[slot]);
    if !ok { return; }
    if Writable(MacroPart(slot), s) {
      StoredReads(s.macros[slot]);
    }
    var got := ReadMacro(m, button);
    ok := got == Ok(s.macros[slot]);
  }

  /** Writes one part of a state and checks the mouse now holds it. */
  method WritePart(m: Mouse, p: Part, s: State) returns (ok: bool)
    requires m.Valid() && s.Ok() && p.Ok()
    modifies m
    ensures m.failures <= old(m.failures) + 1 && (ok ==> m.failures == old(m.failures))
    ensures m.Valid() && OnlyPart(old(Now(m)), Now(m), p)
    ensures ok ==> IsAt(Now(m), p, s)
    ensures m.faults == NoFault && Writable(p, s) ==> ok
    ensures ok && p == StagePart ==> s.settings.stage < STAGES
    ensures ok && p == StagePart && m.faults != Silent ==> m.stageDpi == s.settings.dpi[AXIS_X].values[s.settings.stage]
  {
    if p.MacroPart? {
      ok := WriteMacroPart(m, p.slot, s);
    } else {
      ok := WriteSetting(m, p, s);
    }
  }

  /** A macro the undo leaves as it is: none was there before. */
  predicate Leaves(p: Part, s: State)
    requires s.Ok() && p.Ok()
  {
    p.MacroPart? && s.macros[p.slot].records == []
  }

  /**
   Parts written in order: the first sure of them read as the state has them, and nothing outside the
   first touched of them changed.
   */
  ghost predicate Sofar(a: Snap, b: Snap, parts: seq<Part>, s: State, sure: nat, touched: nat, honest: bool)
    requires a.Ok() && b.Ok() && s.Ok() && Distinct(parts) && sure <= touched <= |parts|
  {
    && (forall q: Part :: q.Ok() && q in parts[..sure] && !Leaves(q, s) ==> IsAt(b, q, s))
    && (forall q: Part :: q.Ok() && (q !in parts[..touched] || Leaves(q, s)) ==> Untouched(a, b, q))
    && (StagePart !in parts[..touched] ==> b.dpi == a.dpi)
    && (StagePart in parts[..sure] ==> s.settings.stage < STAGES && (honest ==> b.dpi == s.settings.dpi[AXIS_X].values[s.settings.stage]))
  }

  lemma SofarNext(a: Snap, b: Snap, c: Snap, parts: seq<Part>, s: State, n: nat, ok: bool, honest: bool)
    requires a.Ok() && b.Ok() && c.Ok() && s.Ok() && Distinct(parts) && n < |parts|
    requires Sofar(a, b, parts, s, n, n, honest) && !Leaves(parts[n], s) && OnlyPart(b, c, parts[n])
    requires ok ==> IsAt(c, parts[n], s)
    requires ok && parts[n] == StagePart ==>
               s.settings.stage < STAGES && (honest ==> c.dpi == s.settings.dpi[AXIS_X].values[s.settings.stage])
    ensures Sofar(a, c, parts, s, if ok then n + 1 else n, n + 1, honest)
  {
    hide ReadsAs, ValueOf, ValueSame;
    var sure := if ok then n + 1 else n;
    assert parts[..n + 1] == parts[..n] + [parts[n]];
    assert parts[n] !in parts[..n];
    forall q: Part | q.Ok() && q in parts[..sure] && !Leaves(q, s)
      ensures IsAt(c, q, s)
    {
      if q != parts[n] {
        assert IsAt(b, q, s) && Untouched(b, c, q);
      }
    }
    forall q: Part | q.Ok() && (q !in parts[..n + 1] || Leaves(q, s))
      ensures Untouched(a, c, q)
    {
      assert Untouched(a, b, q) && Untouched(b, c, q);
    }
  }

  lemma SofarSkip(a: Snap, b: Snap, parts: seq<Part>, s: State, n: nat, honest: bool)
    requires a.Ok() && b.Ok() && s.Ok() && Distinct(parts) && n < |parts|
    requires Sofar(a, b, parts, s, n, n, honest) && Leaves(parts[n], s)
    ensures Sofar(a, b, parts, s, n + 1, n + 1, honest)
  {
    hide IsAt, Untouched;
    assert parts[..n + 1] == parts[..n] + [parts[n]];
  }

  /** Writes part after part, and says how many were written before one failed. */
  method WriteParts(m: Mouse, parts: seq<Part>, s: State) returns (done: nat)
    requires m.Valid() && s.Ok() && Distinct(parts) && forall p :: p in parts ==> !Leaves(p, s)
    modifies m
    ensures m.failures <= old(m.failures) + 1 && (done == |parts| ==> m.failures == old(m.failures))
    ensures m.Valid() && done <= |parts|
    ensures Sofar(old(Now(m)), Now(m), parts, s, done, Min(done + 1, |parts|), m.faults != Silent)
    ensures m.faults == NoFault && (forall p :: p in parts ==> Writable(p, s)) ==> done == |parts|
  {
    hide Sofar, OnlyPart, IsAt, Leaves, Writable;
    done := 0;
    ghost var a := Now(m);
    SofarStart(a, parts, s, m.faults != Silent);
    while done < |parts|
      invariant m.Valid() && done <= |parts| && m.failures == old(m.failures)
      invariant Sofar(a, Now(m), parts, s, done, done, m.faults != Silent)
    {
      ghost var b := Now(m);
      var ok := WritePart(m, parts[done], s);
      SofarNext(a, b, Now(m), parts, s, done, ok, m.faults != Silent);
      if !ok { return; }
      done := done + 1;
    }
  }

  lemma SofarStart(a: Snap, parts: seq<Part>, s: State, honest: bool)
    requires a.Ok() && s.Ok() && Distinct(parts)
    ensures Sofar(a, a, parts, s, 0, 0, honest)
  {
  }

  /** Puts parts back as they were, leaving alone a macro where there was none. */
  method UndoParts(m: Mouse, parts: seq<Part>, before: State) returns (ok: bool)
    requires m.Valid() && before.Ok() && Distinct(parts)
    modifies m
    ensures m.failures <= old(m.failures) + 1 && (ok ==> m.failures == old(m.failures))
    ensures m.Valid()
    ensures ok ==> Sofar(old(Now(m)), Now(m), parts, before, |parts|, |parts|, m.faults != Silent)
    ensures m.faults == NoFault && (forall p :: p in parts ==> Leaves(p, before) || Writable(p, before)) ==> ok
  {
    hide Sofar, OnlyPart, IsAt;
    ghost var a := Now(m);
    SofarStart(a, parts, before, m.faults != Silent);
    for i := 0 to |parts|
      invariant m.Valid() && Sofar(a, Now(m), parts, before, i, i, m.faults != Silent) && m.failures == old(m.failures)
    {
      if parts[i].MacroPart? && before.macros[parts[i].slot].records == [] {
        SofarSkip(a, Now(m), parts, before, i, m.faults != Silent);
        continue;
      }
      ghost var b := Now(m);
      ok := WritePart(m, parts[i], before);
      SofarNext(a, b, Now(m), parts, before, i, ok, m.faults != Silent);
      if !ok { return; }
    }
    return true;
  }

  // ---- What it comes to

  /** The parts an edit of what was read is written in: all of them for a profile there was none of. */
  function PartsFor(e: Profile, read: State): (parts: seq<Part>)
    requires e.Ok() && read.Ok() && Accepts(e, read)
  {
    var changed := PartsDue(NewState(e, read), Base(read), false, |ALL_PARTS|);
    if read.settings.InUse() || changed == [] then changed else PartsDue(NewState(e, read), Base(read), true, |ALL_PARTS|)
  }

  /** A state that reading a mouse gave. */
  ghost predicate WasRead(a: Snap, read: State) {
    a.Ok() && read.Ok() && Read(a) == Ok(read) && AsRead(read)
  }

  lemma ReadInUse(a: Snap, read: State)
    requires WasRead(a, read) && read.settings.InUse()
    ensures a.held == read.settings && Base(read) == read
    ensures forall i :: 0 <= i < SLOTS && read.settings.Plays(i) ==> ReadsAs(a.store.macros[i]) == Ok(read.macros[i])
  {
  }

  /** What an accepted edit asks of a mouse is something it takes. */
  lemma DueWritable(e: Profile, read: State, all: bool, p: Part)
    requires e.Ok() && AsRead(read) && Accepts(e, read) && p.Ok() && Due(p, NewState(e, read), Base(read), all)
    ensures Writable(p, NewState(e, read)) && !Leaves(p, NewState(e, read))
  {
    if p.MacroPart? {
      var w, s := Decode(read), Base(read);
      assert ButtonTakes(e, w, s, p.slot + 2);
      hide MouseName, DecodeName;
      var made := NewMacro(e.macros[p.slot], w.macros[p.slot], s.macros[p.slot]);
      assert NewState(e, read).macros[p.slot] == made;
      if e.macros[p.slot] == w.macros[p.slot] {
        assert made == s.macros[p.slot] && read.settings.InUse();
      }
    }
  }

  /** A stage out of range is one the edit left alone, so nothing is sent for it. */
  lemma StageKept(e: Profile, read: State)
    requires e.Ok() && read.Ok() && Accepts(e, read) && !StageDue(NewState(e, read).settings, Base(read).settings)
    ensures NewState(e, read).settings.stage == Base(read).settings.stage
  {
  }

  /** After every part due was written, a setting reads as wanted, unless it is the stage in use and was not sent. */
  lemma SettingArrives(a: Snap, b: Snap, e: Profile, read: State, honest: bool, p: Part)
    requires WasRead(a, read) && b.Ok() && e.Ok() && Accepts(e, read) && p.Ok() && !p.MacroPart?
    requires Distinct(PartsFor(e, read))
    requires Sofar(a, b, PartsFor(e, read), NewState(e, read), |PartsFor(e, read)|, |PartsFor(e, read)|, honest)
    requires read.settings.InUse() || (PartsFor(e, read) != [] && (p == StagePart ==> StageDue(NewState(e, read).settings, Base(read).settings)))
    ensures ValueSame(ValueOf(b.held, p), ValueOf(NewState(e, read).settings, p))
  {
    var want, parts := NewState(e, read), PartsFor(e, read);
    PartDue(want, Base(read), !read.settings.InUse(), |ALL_PARTS|, p);
    assert parts[..|parts|] == parts;
    if p in parts {
      assert IsAt(b, p, want);
    } else {
      assert Untouched(a, b, p);
      ReadInUse(a, read);
      if p == StagePart { StageKept(e, read); }
    }
  }

  lemma MacroArrives(a: Snap, b: Snap, e: Profile, read: State, honest: bool, slot: nat)
    requires WasRead(a, read) && b.Ok() && e.Ok() && Accepts(e, read) && slot < SLOTS
    requires Distinct(PartsFor(e, read)) && (read.settings.InUse() || PartsFor(e, read) != [])
    requires Sofar(a, b, PartsFor(e, read), NewState(e, read), |PartsFor(e, read)|, |PartsFor(e, read)|, honest)
    requires NewState(e, read).settings.Plays(slot)
    ensures IsAt(b, MacroPart(slot), NewState(e, read))
  {
    var want, parts, p := NewState(e, read), PartsFor(e, read), MacroPart(slot);
    PartDue(want, Base(read), !read.settings.InUse(), |ALL_PARTS|, p);
    PlayedHasRecords(e, read, slot);
    assert parts[..|parts|] == parts;
    hide NewState, Accepts, PlaceOf;
    if p !in parts {
      assert Untouched(a, b, p);
      ReadInUse(a, read);
    }
  }

  lemma PlayedHasRecords(e: Profile, read: State, slot: nat)
    requires e.Ok() && read.Ok() && Accepts(e, read) && slot < SLOTS && NewState(e, read).settings.Plays(slot)
    ensures NewState(e, read).macros[slot].records != []
  {
    assert ButtonTakes(e, Decode(read), Base(read), slot + 2);
  }

  /** A profile that was in use shows what was wanted once every part due is written. */
  lemma AppliedShows(a: Snap, b: Snap, e: Profile, read: State, honest: bool)
    requires WasRead(a, read) && b.Ok() && e.Ok() && Accepts(e, read) && read.settings.InUse()
    requires Distinct(PartsFor(e, read))
    requires Sofar(a, b, PartsFor(e, read), NewState(e, read), |PartsFor(e, read)|, |PartsFor(e, read)|, honest)
    ensures SettingsSame(b.held, NewState(e, read).settings) && Shows(b, NewState(e, read))
  {
    hide Sofar, NewState, PartsFor, Accepts;
    forall p: Part | p.Ok() && !p.MacroPart?
      ensures ValueSame(ValueOf(b.held, p), ValueOf(NewState(e, read).settings, p))
    {
      SettingArrives(a, b, e, read, honest, p);
    }
    AllArrived(a, b, e, read, honest);
  }

  lemma AllArrived(a: Snap, b: Snap, e: Profile, read: State, honest: bool)
    requires WasRead(a, read) && b.Ok() && e.Ok() && Accepts(e, read)
    requires Distinct(PartsFor(e, read)) && (read.settings.InUse() || PartsFor(e, read) != [])
    requires Sofar(a, b, PartsFor(e, read), NewState(e, read), |PartsFor(e, read)|, |PartsFor(e, read)|, honest)
    requires SettingsSame(b.held, NewState(e, read).settings)
    ensures Shows(b, NewState(e, read))
  {
    hide Sofar, NewState, PartsFor, Accepts;
    var want := NewState(e, read);
    if want.settings.InUse() {
      forall slot | 0 <= slot < SLOTS && want.settings.Plays(slot)
        ensures IsAt(b, MacroPart(slot), want)
      {
        MacroArrives(a, b, e, read, honest, slot);
      }
      ShowsMeans(b, want);
    } else {
      assert ValueSame(ValueOf(b.held, NamePart), ValueOf(want.settings, NamePart));
    }
  }

  /** A profile made where there was none shows what was wanted exactly when the stage in use is the wanted one. */
  lemma CreatedShows(a: Snap, b: Snap, e: Profile, read: State, honest: bool)
    requires WasRead(a, read) && b.Ok() && e.Ok() && Accepts(e, read) && !read.settings.InUse()
    requires Distinct(PartsFor(e, read)) && PartsFor(e, read) != [] && NewState(e, read).settings.InUse()
    requires Sofar(a, b, PartsFor(e, read), NewState(e, read), |PartsFor(e, read)|, |PartsFor(e, read)|, honest)
    ensures Shows(b, NewState(e, read)) <==>
            StageDue(NewState(e, read).settings, Base(read).settings) || a.held.stage == NewState(e, read).settings.stage
  {
    var want, parts := NewState(e, read), PartsFor(e, read);
    var due := StageDue(want.settings, Base(read).settings);
    PartDue(want, Base(read), true, |ALL_PARTS|, StagePart);
    assert parts[..|parts|] == parts;
    assert !due ==> Untouched(a, b, StagePart);
    hide Sofar, NewState, PartsFor, Accepts, PartsDue;
    forall p: Part | p.Ok() && !p.MacroPart? && (p == StagePart ==> due)
      ensures ValueSame(ValueOf(b.held, p), ValueOf(want.settings, p))
    {
      SettingArrives(a, b, e, read, honest, p);
    }
    if due || a.held.stage == want.settings.stage {
      AllArrived(a, b, e, read, honest);
    } else {
      assert !ValueSame(ValueOf(b.held, StagePart), ValueOf(want.settings, StagePart));
      ShowsMeans(b, want);
    }
  }

  /** A macro the undo does not write although its button played it: one without records. */
  predicate Skipped(p: Part, read: State)
    requires read.Ok() && p.Ok()
  {
    p.MacroPart? && read.settings.Plays(p.slot) && read.macros[p.slot].records == []
  }

  /** One of the first n parts is skipped by the undo. */
  ghost predicate AnySkipped(parts: seq<Part>, n: nat, read: State)
    requires read.Ok() && Distinct(parts) && n <= |parts|
  {
    exists k :: 0 <= k < n && Skipped(parts[k], read)
  }

  /**
   After a failed apply and an undo that succeeded, a mouse that had a profile shows it again if no part
   that was written or being written is one the undo skips, and does not if one that was written is. If
   only the part being written when the apply failed is, it depends on what that write did.
   */
  lemma UndoneShows(a: Snap, b: Snap, c: Snap, parts: seq<Part>, want: State, read: State, done: nat, honest: bool)
    requires WasRead(a, read) && read.settings.InUse() && b.Ok() && c.Ok() && want.Ok() && Distinct(parts)
    requires done < |parts| && Distinct(parts[..done + 1]) && forall p :: p in parts ==> !Leaves(p, want)
    requires Sofar(a, b, parts, want, done, done + 1, honest)
    requires Sofar(b, c, parts[..done + 1], read, done + 1, done + 1, honest)
    ensures SettingsSame(c.held, read.settings)
    ensures !AnySkipped(parts, done + 1, read) ==> Shows(c, read)
    ensures AnySkipped(parts, done, read) ==> !Shows(c, read)
    ensures !AnySkipped(parts, done, read) && Skipped(parts[done], read) ==> (Shows(c, read) <==> IsAt(b, parts[done], read))
  {
    assert read.Ok() && forall k :: 0 <= k < |parts| ==> parts[k].Ok();
    hide Sofar, Shows, IsAt, SettingsSame, WasRead, Leaves, Distinct, ReadsAs, Read, AsRead, ValueOf;
    UndoneSettings(a, b, c, parts, want, read, done, honest);
    ShowsMeans(c, read);
    forall i | 0 <= i < SLOTS && read.settings.Plays(i)
      ensures MacroPart(i) !in parts[..done + 1] || read.macros[i].records != [] ==> IsAt(c, MacroPart(i), read)
      ensures MacroPart(i) in parts[..done] && read.macros[i].records == [] ==> !IsAt(c, MacroPart(i), read)
      ensures MacroPart(i) == parts[done] && read.macros[i].records == [] ==> (IsAt(c, MacroPart(i), read) <==> IsAt(b, MacroPart(i), read))
    {
      UndoneMacro(a, b, c, parts, want, read, done, honest, i);
    }
    if AnySkipped(parts, done, read) {
      var k :| 0 <= k < done && Skipped(parts[k], read);
      assert parts[k] == parts[..done][k] && parts[k] == MacroPart(parts[k].slot);
    }
    forall i | 0 <= i < SLOTS && read.settings.Plays(i) && read.macros[i].records == [] && MacroPart(i) in parts[..done + 1]
      ensures MacroPart(i) == parts[done] || AnySkipped(parts, done, read)
      ensures AnySkipped(parts, done + 1, read)
    {
      var k :| 0 <= k < done + 1 && parts[..done + 1][k] == MacroPart(i);
      assert Skipped(parts[k], read);
    }
  }

  lemma UndoneSettings(a: Snap, b: Snap, c: Snap, parts: seq<Part>, want: State, read: State, done: nat, honest: bool)
    requires WasRead(a, read) && read.settings.InUse() && b.Ok() && c.Ok() && want.Ok() && Distinct(parts)
    requires done < |parts| && Distinct(parts[..done + 1])
    requires Sofar(a, b, parts, want, done, done + 1, honest)
    requires Sofar(b, c, parts[..done + 1], read, done + 1, done + 1, honest)
    ensures SettingsSame(c.held, read.settings)
  {
    ReadInUse(a, read);
    var undone := parts[..done + 1];
    assert undone[..done + 1] == undone;
    forall p: Part | p.Ok() && !p.MacroPart?
      ensures ValueSame(ValueOf(c.held, p), ValueOf(read.settings, p))
    {
      if p in undone {
        assert IsAt(c, p, read);
      } else {
        assert Untouched(a, b, p) && Untouched(b, c, p);
      }
    }
  }

  /** What an undo leaves of one macro some button played. */
  lemma UndoneMacro(a: Snap, b: Snap, c: Snap, parts: seq<Part>, want: State, read: State, done: nat, honest: bool, i: nat)
    requires WasRead(a, read) && read.settings.InUse() && b.Ok() && c.Ok() && want.Ok() && Distinct(parts)
    requires done < |parts| && Distinct(parts[..done + 1]) && forall p :: p in parts ==> !Leaves(p, want)
    requires Sofar(a, b, parts, want, done, done + 1, honest)
    requires Sofar(b, c, parts[..done + 1], read, done + 1, done + 1, honest)
    requires i < SLOTS && read.settings.Plays(i)
    ensures MacroPart(i) !in parts[..done + 1] || read.macros[i].records != [] ==> IsAt(c, MacroPart(i), read)
    ensures MacroPart(i) in parts[..done] && read.macros[i].records == [] ==> !IsAt(c, MacroPart(i), read)
    ensures MacroPart(i) == parts[done] && read.macros[i].records == [] ==> (IsAt(c, MacroPart(i), read) <==> IsAt(b, MacroPart(i), read))
  {
    ReadInUse(a, read);
    var p, undone := MacroPart(i), parts[..done + 1];
    assert undone[..done + 1] == undone && undone == parts[..done] + [parts[done]];
    hide ReadsAs, ValueOf, ValueSame;
    if p !in undone {
      assert Untouched(a, b, p) && Untouched(b, c, p);
    } else if read.macros[i].records != [] {
      assert !Leaves(p, read);
    } else {
      assert Leaves(p, read) && Untouched(b, c, p);
      if p in parts[..done] {
        assert p in parts && IsAt(b, p, want);
      }
    }
  }

  /** A macro some button played without records is written exactly when the edit has the button play one. */
  lemma SkippedWhen(e: Profile, read: State, i: nat)
    requires e.Ok() && AsRead(read) && Accepts(e, read) && read.settings.InUse() && i < SLOTS && Skipped(MacroPart(i), read)
    ensures MacroPart(i) in PartsFor(e, read) <==> e.assignments[i + 2].macro
  {
    PartDue(NewState(e, read), Base(read), false, |ALL_PARTS|, MacroPart(i));
    ButtonShows(e, read, i + 2);
    hide NewState, Accepts, PartsDue;
    if NewState(e, read).settings.Plays(i) { PlayedHasRecords(e, read, i); }
  }

  /** The stage in use keeps the DPI the table says, when acknowledgements are honest. */
  lemma StageFollows(a: Snap, b: Snap, e: Profile, read: State)
    requires WasRead(a, read) && b.Ok() && e.Ok() && Accepts(e, read) && read.settings.InUse()
    requires Distinct(PartsFor(e, read)) && StageMatches(a)
    requires Sofar(a, b, PartsFor(e, read), NewState(e, read), |PartsFor(e, read)|, |PartsFor(e, read)|, true)
    requires SettingsSame(b.held, NewState(e, read).settings)
    ensures StageMatches(b)
  {
    var want, parts := NewState(e, read), PartsFor(e, read);
    PartDue(want, Base(read), false, |ALL_PARTS|, StagePart);
    assert parts[..|parts|] == parts;
    ReadInUse(a, read);
    SettingsSameMeans(b.held, want.settings);
    if StagePart !in parts {
      assert !Due(StagePart, want, read, false);
      StageKept(e, read);
    }
  }

  lemma StageRestored(a: Snap, b: Snap, c: Snap, parts: seq<Part>, want: State, read: State, done: nat)
    requires WasRead(a, read) && read.settings.InUse() && b.Ok() && c.Ok() && want.Ok() && Distinct(parts)
    requires done < |parts| && Distinct(parts[..done + 1]) && StageMatches(a)
    requires Sofar(a, b, parts, want, done, done + 1, true)
    requires Sofar(b, c, parts[..done + 1], read, done + 1, done + 1, true)
    requires SettingsSame(c.held, read.settings)
    ensures StageMatches(c)
  {
    ReadInUse(a, read);
    var undone := parts[..done + 1];
    assert undone[..done + 1] == undone;
    SettingsSameMeans(c.held, read.settings);
  }

  // ---- Applying an edit

  /** What an apply reports: whether it was applied, and if not whether what was there is back. */
  datatype Report = Report(applied: bool, restored: bool)

  /** Takes a profile off again: the mouse had none, and must say so. */
  method ClearProfile(m: Mouse) returns (ok: bool)
    requires m.Valid()
    modifies m
    ensures m.failures <= old(m.failures) + 1 && (ok ==> m.failures == old(m.failures))
    ensures m.Valid() && (ok ==> !m.held.InUse())
  {
    ok := m.Clear();
    if !ok { return; }
    var name := m.Get(NamePart);
    ok := name.Some? && name.value.name[0] == 0 && name.value.name[1] == 0;
  }

  /** What an applied edit leaves the mouse showing. */
  ghost predicate Applied(a: Snap, b: Snap, e: Profile, read: State, honest: bool)
    requires WasRead(a, read) && b.Ok() && e.Ok() && Accepts(e, read)
  {
    var want := NewState(e, read);
    if read.settings.InUse() then Shows(b, want) && (honest && StageMatches(a) ==> StageMatches(b))
    else if PartsFor(e, read) == [] then b.held == a.held && Shows(b, read)
    else Shows(b, want) <==> StageDue(want.settings, Base(read).settings) || a.held.stage == want.settings.stage
  }

  /** What a mouse shows once an edit that failed at part `done` is undone. */
  ghost predicate Restored(a: Snap, c: Snap, parts: seq<Part>, done: nat, read: State, honest: bool)
    requires WasRead(a, read) && c.Ok() && Distinct(parts) && done < |parts|
  {
    if read.settings.InUse() then
      && (!AnySkipped(parts, done + 1, read) ==> Shows(c, read))
      && (AnySkipped(parts, done, read) ==> !Shows(c, read))
      && (honest && StageMatches(a) ==> StageMatches(c))
    else Shows(c, read)
  }

  /** If every button that played a macro played one with records, an undo that succeeded restores the profile. */
  lemma RecordsRestore(a: Snap, c: Snap, parts: seq<Part>, done: nat, read: State, honest: bool)
    requires WasRead(a, read) && c.Ok() && Distinct(parts) && done < |parts| && Restored(a, c, parts, done, read, honest)
    requires forall i :: 0 <= i < SLOTS && read.settings.Plays(i) ==> read.macros[i].records != []
    ensures Shows(c, read)
  {
    hide Shows, StageMatches;
  }

  lemma AllApplied(a: Snap, b: Snap, e: Profile, read: State, honest: bool)
    requires WasRead(a, read) && b.Ok() && e.Ok() && Accepts(e, read)
    requires Distinct(PartsFor(e, read)) && PartsFor(e, read) != []
    requires read.settings.InUse() || NewState(e, read).settings.InUse()
    requires Sofar(a, b, PartsFor(e, read), NewState(e, read), |PartsFor(e, read)|, |PartsFor(e, read)|, honest)
    ensures Applied(a, b, e, read, honest)
  {
    hide PartsFor, NewState, Accepts, Sofar, Read, AsRead, Shows, StageMatches, StageDue;
    if read.settings.InUse() {
      AppliedShows(a, b, e, read, honest);
      if honest && StageMatches(a) { StageFollows(a, b, e, read); }
    } else {
      CreatedShows(a, b, e, read, honest);
    }
  }

  /** Puts back what was there, or takes the profile off again where there was none. */
  method Rollback(m: Mouse, parts: seq<Part>, done: nat, read: State, ghost a: Snap, ghost want: State) returns (ok: bool)
    requires m.Valid() && WasRead(a, read) && want.Ok() && Distinct(parts) && done < |parts|
    requires Sofar(a, Now(m), parts, want, done, done + 1, m.faults != Silent) && forall p :: p in parts ==> !Leaves(p, want)
    modifies m
    ensures m.failures <= old(m.failures) + 1 && (ok ==> m.failures == old(m.failures))
    ensures m.Valid()
    ensures ok ==> Restored(a, Now(m), parts, done, read, m.faults != Silent)
  {
    hide Sofar, Shows, StageMatches, IsAt, Read, AsRead, Leaves;
    if !read.settings.InUse() {
      ok := ClearProfile(m);
      if ok { ClearedShows(Now(m), read); }
      return;
    }
    ghost var b := Now(m);
    ok := UndoParts(m, parts[..done + 1], read);
    if ok {
      UndoneShows(a, b, Now(m), parts, want, read, done, m.faults != Silent);
      if m.faults != Silent && StageMatches(a) { StageRestored(a, b, Now(m), parts, want, read, done); }
    }
  }

  /** A part of an edit's plan, the one an apply may fail at. */
  ghost predicate FailedAt(e: Profile, read: State, done: nat)
    requires e.Ok() && read.Ok() && Accepts(e, read)
  {
    Distinct(PartsFor(e, read)) && done < |PartsFor(e, read)|
  }

  /** Writes what an edit asks for and undoes it when a part fails; `done` says at which. */
  method CarryOut(m: Mouse, e: Profile, read: State, parts: seq<Part>, want: State) returns (r: Report, ghost done: nat)
    requires m.Valid() && WasRead(Now(m), read) && e.Ok() && Accepts(e, read) && want == NewState(e, read)
    requires parts == PartsFor(e, read) && parts != [] && (read.settings.InUse() || want.settings.InUse())
    modifies m
    ensures m.Valid()
    ensures (r.applied ==> m.failures == old(m.failures)) && (r.restored ==> m.failures <= old(m.failures) + 1)
    ensures r.applied ==> Applied(old(Now(m)), Now(m), e, read, m.faults != Silent)
    ensures r.restored ==> !r.applied && FailedAt(e, read, done) && Restored(old(Now(m)), Now(m), parts, done, read, m.faults != Silent)
    ensures m.faults == NoFault ==> r.applied
  {
    ghost var a := Now(m);
    PartsAccepted(e, read);
    hide PartsFor, NewState, Accepts, Sofar, WasRead, Applied, Restored, Writable, Leaves;
    var written := WriteParts(m, parts, want);
    done := written;
    if written == |parts| {
      AllApplied(a, Now(m), e, read, m.faults != Silent);
      r := Report(true, false);
      return;
    }
    var ok := Rollback(m, parts, written, read, a, want);
    r := Report(false, ok);
  }

  lemma PartsAccepted(e: Profile, read: State)
    requires e.Ok() && AsRead(read) && Accepts(e, read)
    ensures Distinct(PartsFor(e, read))
    ensures forall p :: p in PartsFor(e, read) ==> Writable(p, NewState(e, read)) && !Leaves(p, NewState(e, read))
  {
    PartsDueAre(NewState(e, read), Base(read), false);
    PartsDueAre(NewState(e, read), Base(read), true);
    hide NewState, Accepts, PartsDue, Due, Writable, Leaves;
    forall p | p in PartsFor(e, read)
      ensures Writable(p, NewState(e, read)) && !Leaves(p, NewState(e, read))
    {
      if Due(p, NewState(e, read), Base(read), false) {
        DueWritable(e, read, false, p);
      } else {
        DueWritable(e, read, true, p);
      }
    }
  }

  lemma ClearedShows(c: Snap, read: State)
    requires c.Ok() && read.Ok() && !c.held.InUse() && !read.settings.InUse()
    ensures Shows(c, read)
  {
  }

  /** Two moments between which a mouse's settings and macros did not change. */
  ghost predicate Unchanged(a: Snap, b: Snap) {
    a.held == b.held && a.store.macros == b.store.macros && a.dpi == b.dpi
  }

  /** Whether a mouse without faults takes an edit: its profile can be read, the edit is accepted, and a new profile has a name. */
  ghost predicate Taken(a: Snap, e: Profile)
    requires a.Ok() && e.Ok()
  {
    Read(a).Ok? && Accepts(e, Read(a).value) && CanStart(e, Read(a).value)
  }

  ghost predicate CanStart(e: Profile, read: State)
    requires e.Ok() && read.Ok() && Accepts(e, read)
  {
    PartsFor(e, read) != [] ==> read.settings.InUse() || NewState(e, read).settings.InUse()
  }

  /** What an apply writes: nothing for an edit that changes nothing, everything for a new profile, which needs a name. */
  method PlanParts(e: Profile, read: State, want: State) returns (r: Result<seq<Part>>)
    requires e.Ok() && read.Ok() && Accepts(e, read) && want == NewState(e, read)
    ensures r.Ok? <==> CanStart(e, read)
    ensures r.Ok? ==> r.value == PartsFor(e, read)
  {
    hide NewState, Accepts, PartsDue;
    var parts := ListParts(want, Base(read), false);
    if !read.settings.InUse() && parts != [] {
      CreatedHasParts(want, Base(read));
      if !want.settings.InUse() { return Err; }
      parts := ListParts(want, Base(read), true);
    }
    return Ok(parts);
  }

  /** Reads what is there and works out what to write, before anything is sent. */
  method Prepare(m: Mouse, e: Profile) returns (r: Result<(State, seq<Part>)>, backup: State)
    requires m.Valid() && e.Ok()
    modifies m`store
    ensures m.Valid() && backup.Ok() && Unchanged(old(Now(m)), Now(m))
    ensures r.Ok? ==> WasRead(Now(m), backup) && Accepts(e, backup) && CanStart(e, backup)
    ensures r.Ok? ==> r.value == (NewState(e, backup), PartsFor(e, backup))
    ensures m.faults == NoFault ==> (r.Ok? <==> Taken(Now(m), e))
  {
    hide NewState, Accepts, PartsFor, CanStart, Read, AsRead;
    backup := Unread(Fill(PROFILE_NAME, 0));
    var read := ReadProfile(m);
    if read.Err? { return Err, backup; }
    backup := read.value;
    var want := EncodeProfile(e, backup);
    if want.Err? { return Err, backup; }
    var parts := PlanParts(e, backup, want.value);
    if parts.Err? { return Err, backup; }
    return Ok((want.value, parts.value)), backup;
  }

  /**
   Applies an edited profile. It reads what is there and keeps it, writes only what differs, reads each
   part back, and puts back what was there when one fails, which `done` names. Reads are truthful;
   writes may go wrong in any way the mouse's faults allow.
   */
  method Apply(m: Mouse, e: Profile) returns (r: Result<Report>, backup: State, ghost done: nat)
    requires m.Valid() && e.Ok()
    modifies m
    ensures m.Valid() && backup.Ok()
    ensures r.Err? ==> Unchanged(old(Now(m)), Now(m)) && m.failures == old(m.failures)
    ensures r.Ok? && r.value.applied ==> m.failures == old(m.failures)
    ensures r.Ok? && r.value.restored ==> m.failures <= old(m.failures) + 1
    ensures r.Ok? ==> WasRead(old(Now(m)), backup) && Accepts(e, backup)
    ensures r.Ok? && r.value.applied ==> Applied(old(Now(m)), Now(m), e, backup, m.faults != Silent)
    ensures r.Ok? && r.value.restored ==> !r.value.applied && FailedAt(e, backup, done)
    ensures r.Ok? && r.value.restored ==>
              Restored(old(Now(m)), Now(m), PartsFor(e, backup), done, backup, m.faults != Silent)
    ensures m.faults == NoFault && r.Ok? ==> r.value.applied
    ensures m.faults == NoFault ==> (r.Ok? <==> Taken(old(Now(m)), e))
  {
    hide NewState, Accepts, PartsFor, Read, AsRead, Applied, Restored, Unchanged, FailedAt;
    ghost var a, honest := Now(m), m.faults != Silent;
    done := 0;
    var plan;
    plan, backup := Prepare(m, e);
    ghost var b := Now(m);
    SameTaken(a, b, e);
    if plan.Err? {
      r := Err;
      return;
    }
    if plan.value.1 == [] {
      NothingDue(a, b, e, backup, honest);
      r := Ok(Report(true, false));
      return;
    }
    var report;
    report, done := CarryOut(m, e, backup, plan.value.1, plan.value.0);
    SameStart(a, b, Now(m), e, backup, done, honest);
    r := Ok(report);
  }

  lemma SameTaken(a: Snap, b: Snap, e: Profile)
    requires a.Ok() && b.Ok() && Unchanged(a, b) && e.Ok()
    ensures Read(a) == Read(b) && (Taken(a, e) <==> Taken(b, e))
  {
    hide NewState, Accepts, PartsFor;
  }

  lemma CreatedHasParts(want: State, have: State)
    requires want.Ok() && have.Ok()
    ensures PartsDue(want, have, true, |ALL_PARTS|) != []
  {
    PartDue(want, have, true, |ALL_PARTS|, NamePart);
  }

  lemma NothingDue(a: Snap, b: Snap, e: Profile, read: State, honest: bool)
    requires a.Ok() && WasRead(b, read) && b.Ok() && Unchanged(a, b) && e.Ok() && Accepts(e, read) && PartsFor(e, read) == []
    ensures WasRead(a, read) && Applied(a, b, e, read, honest)
  {
    assert Read(a) == Read(b);
    if read.settings.InUse() {
      assert Sofar(a, b, [], NewState(e, read), 0, 0, honest);
      hide Sofar, NewState, Accepts, PartsFor, Shows;
      AppliedShows(a, b, e, read, honest);
    }
  }

  /** Reading moves nothing but the place the next records come from. */
  lemma SameStart(a: Snap, b: Snap, c: Snap, e: Profile, read: State, done: nat, honest: bool)
    requires a.Ok() && WasRead(b, read) && c.Ok() && Unchanged(a, b) && e.Ok() && Accepts(e, read)
    ensures WasRead(a, read)
    ensures Applied(b, c, e, read, honest) ==> Applied(a, c, e, read, honest)
    ensures FailedAt(e, read, done) && Restored(b, c, PartsFor(e, read), done, read, honest) ==>
              Restored(a, c, PartsFor(e, read), done, read, honest)
  {
    assert Read(a) == Read(b);
    hide Accepts, NewState, PartsFor, Shows;
  }
}

/**
 A Retro R8 mouse's profile: what its stored settings show, what an edit of them stores, and what the
 result then shows.
 */
module MouseCodec {
  import opened Bytes
  import opened Names
  import opened MouseMacros
  import opened MouseDevice

  const STEP_LIMIT: nat := 79
  const UNTIL_RELEASED: int := 0xffff
  const DPI_MAX: int := 26000
  const DPI_STEP: int := 50
  const HZ: seq<int> := [250, 500, 1000, 2000, 4000, 8000]
  /** What each button does in a new profile. */
  const NORMAL: seq<U32> := [2, 3, 5, 4, 0, 0]
  const DEFAULT_STAGES: seq<U16> := [800, 1200, 1600, 2400, 3200, 6400]
  const DEFAULT_RATES: seq<U16> := [250, 500, 1000, 2000, 4000, 8000]

  const KEY_DOWN: Byte := 10
  const KEY_UP: Byte := 2
  const BUTTON_DOWN: Byte := 15
  const BUTTON_UP: Byte := 7

  /** Settings and macros as the session holds them; a button that plays no macro has NO_MACRO. */
  datatype State = State(settings: Settings, macros: seq<Macro>)
  {
    predicate Ok() { settings.Ok() && |macros| == SLOTS }
  }

  const NO_MACRO := Macro(0, 0, [], [])

  // ---- What a profile shows

  datatype Assignment = Assignment(does: U32, macro: bool)
  datatype Stage = Stage(enabled: bool, x: int, split: bool, y: int)
  datatype MacroStep = MacroStep(kind: Byte, code: U16, delay: int)
  datatype MacroPlan = MacroPlan(name: Name, steps: seq<MacroStep>, repeats: int, interval: int)

  const NO_PLAN := MacroPlan([], [], 0, 0)

  datatype Profile = Profile(
    inUse: bool, name: Name, leftHanded: bool, assignments: seq<Assignment>, stages: seq<Stage>, active: int,
    pollingRate: int, liftOff: int, wheelSpeed: int, wheelNatural: bool, macros: seq<MacroPlan>)
  {
    predicate Ok() { |assignments| == BUTTONS && |stages| == STAGES && |macros| == SLOTS && WellFormed(name) }
  }

  const DEFAULTS := Settings(
    Fill(PROFILE_NAME, 0), [Entry(0, 2), Entry(0, 3), Entry(0, 5), Entry(0, 4), Entry(0, 0), Entry(0, 0)], 0, 1, 0, 0,
    [Dpi([true, true, true, true, true, true, false, false], DEFAULT_STAGES),
     Dpi([false, false, false, false, false, false, false, false], DEFAULT_STAGES)],
    Rate(6, 1, DEFAULT_RATES), 0)

  /** What a write starts from: what was read, or the defaults where there is no profile. */
  function Base(read: State): (s: State)
    requires read.Ok()
    ensures s.Ok()
  {
    if read.settings.InUse() then read else State(DEFAULTS, [NO_MACRO, NO_MACRO, NO_MACRO, NO_MACRO])
  }

  /** The rates offered: as many as the mouse says it has. */
  function RatesOffered(r: Rate): (hz: seq<int>) {
    if 1 <= r.count < 6 then HZ[..r.count] else HZ
  }

  function StepOf(r: MacroRecord): MacroStep { MacroStep(r.state, r.code, r.timer) }

  function StepsOf(rs: seq<MacroRecord>): (steps: seq<MacroStep>)
    ensures |steps| == |rs|
  {
    seq(|rs|, i requires 0 <= i < |rs| => StepOf(rs[i]))
  }

  function PlanOf(m: Macro): MacroPlan {
    if m.records == [] then NO_PLAN else MacroPlan(DecodeName(m.name), StepsOf(m.records), m.cycles, m.interval)
  }

  function StageOf(x: Dpi, y: Dpi, i: nat): Stage
    requires i < |x.mask| && i < |x.values| && i < |y.mask| && i < |y.values|
  {
    Stage(x.mask[i], x.values[i], y.mask[i], y.values[i])
  }

  function Decode(read: State): (p: Profile)
    requires read.Ok()
    ensures p.Ok()
  {
    var s := Base(read);
    Profile(
      read.settings.InUse(), DecodeName(s.settings.name), s.settings.leftHanded == 1,
      seq(BUTTONS, i requires 0 <= i < BUTTONS => Assignment(s.settings.buttons[i].plain, s.settings.buttons[i].macro == 1)),
      seq(STAGES, i requires 0 <= i < STAGES => StageOf(s.settings.dpi[AXIS_X], s.settings.dpi[AXIS_Y], i)),
      s.settings.stage, if s.settings.rate.current < 6 then HZ[s.settings.rate.current] else 0, s.settings.liftOff,
      Min(14, s.settings.wheelSpeed), s.settings.wheelDir == 1,
      seq(SLOTS, i requires 0 <= i < SLOTS => PlanOf(s.macros[i])))
  }

  /** Two hundred and fifty to eight thousand times a second, in six steps, or fewer of them from the first on. */
  lemma OfferedRates(r: Rate)
    ensures RatesOffered(r) <= [250, 500, 1000, 2000, 4000, 8000]
    ensures |RatesOffered(r)| == if r.count == 0 || r.count > 5 then 6 else r.count
  {
  }

  /** A mouse without a profile: the buttons as they are, six stages all on, five hundred times a second, no macros. */
  lemma NothingStored(read: State, i: nat)
    requires read.Ok() && !read.settings.InUse() && i < 6
    ensures var p := Decode(read);
            && !p.inUse && p.name == [] && !p.leftHanded && p.active == 0 && p.pollingRate == 500 && p.liftOff == 1
            && p.wheelSpeed == 0 && !p.wheelNatural && p.macros == [NO_PLAN, NO_PLAN, NO_PLAN, NO_PLAN]
            && p.assignments[i] == Assignment([2, 3, 5, 4, 0, 0][i], false)
            && p.stages[i] == Stage(true, [800, 1200, 1600, 2400, 3200, 6400][i], false, [800, 1200, 1600, 2400, 3200, 6400][i])
  {
    var s := Base(read).settings;
    assert s == DEFAULTS;
    NoName(s.name);
  }

  lemma NoName(raw: seq<Byte>)
    requires raw == Fill(PROFILE_NAME, 0)
    ensures DecodeName(raw) == []
  {
    assert raw[0] == 0 && raw[1] == 0;
  }

  /** A stored profile: flags that are one, a rate by its place or none, a wheel speed of at most fourteen, no plan without records. */
  lemma StoredShows(read: State, i: nat)
    requires read.Ok() && read.settings.InUse() && i < SLOTS
    ensures var p, s := Decode(read), read.settings;
            && p.inUse && (p.leftHanded <==> s.leftHanded == 1) && (p.wheelNatural <==> s.wheelDir == 1)
            && p.pollingRate == (if s.rate.current < 6 then [250, 500, 1000, 2000, 4000, 8000][s.rate.current] else 0)
            && p.wheelSpeed == (if s.wheelSpeed > 14 then 14 else s.wheelSpeed)
            && (read.macros[i].records == [] ==> p.macros[i] == MacroPlan([], [], 0, 0))
  {
    hide DecodeName;
  }

  // ---- What an edit may be

  predicate Offered(f: U32) {
    || 0 <= f <= 5 || 7 <= f <= 9 || 11 <= f <= 16 || 32 <= f <= 36 || 71 <= f <= 78 || f == 83 || 88 <= f <= 89
    || 109 <= f <= 125 || 127 <= f <= 207 || f == 209 || 211 <= f <= 215 || f == 230 || 241 <= f <= 252
  }

  predicate DpiOk(v: int) { DPI_STEP <= v <= DPI_MAX && v % DPI_STEP == 0 }

  predicate StageTakes(e: Stage, w: Stage) {
    (e.x != w.x ==> DpiOk(e.x)) && (e.y != w.y || (e.split && !w.split) ==> DpiOk(e.y))
  }

  predicate StepOk(s: MacroStep) {
    && 0 <= s.delay <= 60000
    && if s.kind == KEY_DOWN || s.kind == KEY_UP then
         (4 <= s.code <= 99 && s.code != 50) || 0xe0 <= s.code <= 0xe7 || s.code == 0x20e1
       else (s.kind == BUTTON_DOWN || s.kind == BUTTON_UP) && s.code <= 4
  }

  predicate PlanOk(m: MacroPlan) {
    && 1 <= |m.steps| <= STEP_LIMIT && (forall i :: 0 <= i < |m.steps| ==> StepOk(m.steps[i]))
    && (1 <= m.repeats <= 99 || m.repeats == UNTIL_RELEASED) && 0 <= m.interval <= 60000
  }

  /** What neither mouse is given, comparing an edit with what was read: anything unchanged is left alone. */
  predicate CommonOk(e: Profile, w: Profile, hz: seq<int>)
    requires e.Ok() && w.Ok()
  {
    && (e.name != w.name ==> e.name != [])
    && (forall i :: 0 <= i < STAGES ==> StageTakes(e.stages[i], w.stages[i]))
    && (e.stages != w.stages ==> exists i :: 0 <= i < STAGES && e.stages[i].enabled)
    && (e.active != w.active ==> 0 <= e.active < STAGES)
    && (0 <= e.active < STAGES && !e.stages[e.active].enabled ==> e.active == w.active && !w.stages[e.active].enabled)
    && (e.pollingRate != w.pollingRate ==> e.pollingRate in hz)
    && (e.liftOff != w.liftOff ==> e.liftOff == 1 || e.liftOff == 2)
    && (e.wheelSpeed != w.wheelSpeed ==> 0 <= e.wheelSpeed <= 14)
  }

  predicate PlanTakes(e: MacroPlan, w: MacroPlan) { e == w || e.steps == [] || (PlanOk(e) && |e.name| <= NAME_READ / 2) }

  predicate AssignmentTakes(i: nat, e: Assignment, w: Assignment) { e == w || if e.macro then i >= 2 else Offered(e.does) }

  // ---- What it stores

  function MouseName(name: Name, size: nat): (raw: seq<Byte>)
    requires 2 * |name| <= size
    ensures |raw| == size
  {
    UnitBytes(name) + Fill(size - 2 * |name|, 0)
  }

  function RecordFor(s: MacroStep): MacroRecord { MacroRecord(s.kind, s.code, Low16(s.delay)) }

  function Wire(m: MacroPlan): (r: Macro)
    requires |m.name| <= NAME_READ / 2
    ensures |r.name| == NAME_READ && |r.records| == |m.steps|
  {
    Macro(Low16(m.repeats), Low16(m.interval), MouseName(m.name, NAME_READ),
          seq(|m.steps|, i requires 0 <= i < |m.steps| => RecordFor(m.steps[i])))
  }

  function NewMacro(e: MacroPlan, w: MacroPlan, kept: Macro): Macro
    requires PlanTakes(e, w)
  {
    if e == w then kept else if e.steps == [] then NO_MACRO else Wire(e)
  }

  function NewEntry(i: nat, e: Assignment, w: Assignment, kept: Entry): Entry
    requires i < BUTTONS
  {
    if e == w then kept else if e.macro then Entry(1, NORMAL[i]) else Entry(0, e.does)
  }

  function NewDpi(d: Dpi, on: seq<bool>, v: seq<int>, was: seq<int>): (r: Dpi)
    requires |d.mask| == 8 && |d.values| == |on| == |v| == |was| == STAGES
    ensures |r.mask| == 8 && |r.values| == STAGES
  {
    Dpi(on + d.mask[STAGES..], seq(STAGES, i requires 0 <= i < STAGES => if v[i] != was[i] then Low16(v[i]) else d.values[i]))
  }

  function Place(hz: int, n: nat): (place: nat)
    requires n <= |HZ| && exists i :: 0 <= i < n && HZ[i] == hz
    ensures place < n && HZ[place] == hz
  {
    if HZ[n - 1] == hz then n - 1 else Place(hz, n - 1)
  }

  /** A macro is only given to a button that plays it, and a button that plays one has one. */
  predicate MacroFits(e: Profile, w: Profile, s: State, slot: nat)
    requires e.Ok() && w.Ok() && s.Ok() && slot < SLOTS && PlanTakes(e.macros[slot], w.macros[slot])
  {
    var m := NewMacro(e.macros[slot], w.macros[slot], s.macros[slot]);
    if NewEntry(slot + 2, e.assignments[slot + 2], w.assignments[slot + 2], s.settings.buttons[slot + 2]).macro == 1 then
      m.records != []
    else m.records == [] || e.macros[slot] == w.macros[slot]
  }

  predicate ButtonTakes(e: Profile, w: Profile, s: State, i: nat)
    requires e.Ok() && w.Ok() && s.Ok() && i < BUTTONS
    requires forall slot :: 0 <= slot < SLOTS ==> PlanTakes(e.macros[slot], w.macros[slot])
  {
    AssignmentTakes(i, e.assignments[i], w.assignments[i]) && (i >= 2 ==> MacroFits(e, w, s, i - 2))
  }

  /** Whether the source takes an edit of what was read. */
  predicate Accepts(e: Profile, read: State)
    requires e.Ok() && read.Ok()
  {
    var w, s := Decode(read), Base(read);
    && CommonOk(e, w, RatesOffered(s.settings.rate))
    && (e.name != w.name ==> |e.name| <= PROFILE_NAME / 2)
    && (forall slot :: 0 <= slot < SLOTS ==> PlanTakes(e.macros[slot], w.macros[slot]))
    && (forall i :: 0 <= i < BUTTONS ==> ButtonTakes(e, w, s, i))
  }

  function NewMacros(e: Profile, w: Profile, s: State, n: nat): (ms: seq<Macro>)
    requires e.Ok() && w.Ok() && s.Ok() && n <= SLOTS
    requires forall slot :: 0 <= slot < SLOTS ==> PlanTakes(e.macros[slot], w.macros[slot])
    ensures |ms| == n && forall i :: 0 <= i < n ==> ms[i] == NewMacro(e.macros[i], w.macros[i], s.macros[i])
  {
    seq(n, i requires 0 <= i < n => NewMacro(e.macros[i], w.macros[i], s.macros[i]))
  }

  function NewButtons(e: Profile, w: Profile, s: State, n: nat): (bs: seq<Entry>)
    requires e.Ok() && w.Ok() && s.Ok() && n <= BUTTONS
    ensures |bs| == n
    ensures forall i :: 0 <= i < n ==> bs[i] == NewEntry(i, e.assignments[i], w.assignments[i], s.settings.buttons[i])
  {
    seq(n, i requires 0 <= i < n => NewEntry(i, e.assignments[i], w.assignments[i], s.settings.buttons[i]))
  }

  function Enabled(p: Profile): (on: seq<bool>)
    requires p.Ok()
    ensures |on| == STAGES && forall i :: 0 <= i < STAGES ==> on[i] == p.stages[i].enabled
  {
    seq(STAGES, i requires 0 <= i < STAGES => p.stages[i].enabled)
  }

  function Split(p: Profile): (on: seq<bool>)
    requires p.Ok()
    ensures |on| == STAGES && forall i :: 0 <= i < STAGES ==> on[i] == p.stages[i].split
  {
    seq(STAGES, i requires 0 <= i < STAGES => p.stages[i].split)
  }

  function Xs(p: Profile): (v: seq<int>)
    requires p.Ok()
    ensures |v| == STAGES && forall i :: 0 <= i < STAGES ==> v[i] == p.stages[i].x
  {
    seq(STAGES, i requires 0 <= i < STAGES => p.stages[i].x)
  }

  function Ys(p: Profile): (v: seq<int>)
    requires p.Ok()
    ensures |v| == STAGES && forall i :: 0 <= i < STAGES ==> v[i] == p.stages[i].y
  {
    seq(STAGES, i requires 0 <= i < STAGES => p.stages[i].y)
  }

  function Flag(on: bool): Byte { if on then 1 else 0 }

  function NewRate(e: Profile, w: Profile, r: Rate): Rate
    requires e.pollingRate == w.pollingRate || e.pollingRate in RatesOffered(r)
  {
    if e.pollingRate == w.pollingRate then r else r.(current := Place(e.pollingRate, |HZ|))
  }

  /** Every setting but the buttons' and the stages', as an edit leaves it. */
  function NewScalars(e: Profile, w: Profile, s: Settings): Settings
    requires (e.name != w.name ==> |e.name| <= PROFILE_NAME / 2) && (e.active != w.active ==> 0 <= e.active < STAGES)
    requires e.liftOff != w.liftOff ==> e.liftOff == 1 || e.liftOff == 2
    requires e.wheelSpeed != w.wheelSpeed ==> 0 <= e.wheelSpeed <= 14
    requires e.pollingRate == w.pollingRate || e.pollingRate in RatesOffered(s.rate)
  {
    s.(name := if e.name == w.name then s.name else MouseName(e.name, PROFILE_NAME),
       leftHanded := if e.leftHanded == w.leftHanded then s.leftHanded else Flag(e.leftHanded),
       liftOff := if e.liftOff == w.liftOff then s.liftOff else e.liftOff,
       wheelSpeed := if e.wheelSpeed == w.wheelSpeed then s.wheelSpeed else e.wheelSpeed,
       wheelDir := if e.wheelNatural == w.wheelNatural then s.wheelDir else Flag(e.wheelNatural),
       rate := NewRate(e, w, s.rate),
       stage := if e.active == w.active then s.stage else e.active)
  }

  function NewStages(e: Profile, w: Profile, dpi: seq<Dpi>): (r: seq<Dpi>)
    requires e.Ok() && w.Ok() && |dpi| == 2
    requires forall a :: 0 <= a < 2 ==> |dpi[a].mask| == 8 && |dpi[a].values| == STAGES
    ensures |r| == 2 && forall a :: 0 <= a < 2 ==> |r[a].mask| == 8 && |r[a].values| == STAGES
  {
    [NewDpi(dpi[AXIS_X], Enabled(e), Xs(e), Xs(w)), NewDpi(dpi[AXIS_Y], Split(e), Ys(e), Ys(w))]
  }

  /** What the mouse should hold once an accepted edit is applied to what was read. */
  function NewState(e: Profile, read: State): (s: State)
    requires e.Ok() && read.Ok() && Accepts(e, read)
    ensures s.Ok()
  {
    var w, s := Decode(read), Base(read);
    State(NewScalars(e, w, s.settings).(buttons := NewButtons(e, w, s, BUTTONS), dpi := NewStages(e, w, s.settings.dpi)),
          NewMacros(e, w, s, SLOTS))
  }

  // ---- The checks, as they are made

  /** The spans of the function table a button can be given. */
  const SPANS: seq<(U32, U32)> := [
    (0, 5), (7, 9), (11, 16), (32, 36), (71, 78), (83, 83), (88, 89), (109, 125),
    (127, 207), (209, 209), (211, 215), (230, 230), (241, 252)]

  method FunctionOffered(f: U32) returns (ok: bool)
    ensures ok <==> Offered(f)
  {
    for i := 0 to |SPANS|
      invariant forall j :: 0 <= j < i ==> !(SPANS[j].0 <= f <= SPANS[j].1)
    {
      if SPANS[i].0 <= f <= SPANS[i].1 {
        OfferedIsInASpan(f, i);
        return true;
      }
    }
    OfferedHasASpan(f);
    return false;
  }

  lemma OfferedIsInASpan(f: U32, i: nat)
    requires i < |SPANS| && SPANS[i].0 <= f <= SPANS[i].1
    ensures Offered(f)
  {
  }

  lemma OfferedHasASpan(f: U32)
    ensures Offered(f) ==> exists i :: 0 <= i < |SPANS| && SPANS[i].0 <= f <= SPANS[i].1
  {
    if f <= 36 {
      assert SPANS[0] == (0, 5) && SPANS[1] == (7, 9) && SPANS[2] == (11, 16) && SPANS[3] == (32, 36);
    } else if f <= 125 {
      assert SPANS[4] == (71, 78) && SPANS[5] == (83, 83) && SPANS[6] == (88, 89) && SPANS[7] == (109, 125);
    } else {
      assert SPANS[8] == (127, 207) && SPANS[9] == (209, 209) && SPANS[10] == (211, 215) && SPANS[11] == (230, 230) && SPANS[12] == (241, 252);
    }
  }

  method CheckStages(e: Profile, w: Profile) returns (ok: bool, enabled: nat)
    requires e.Ok() && w.Ok()
    ensures ok <==> forall i :: 0 <= i < STAGES ==> StageTakes(e.stages[i], w.stages[i])
    ensures ok ==> (enabled > 0 <==> exists i :: 0 <= i < STAGES && e.stages[i].enabled)
  {
    enabled := 0;
    for i := 0 to STAGES
      invariant forall j :: 0 <= j < i ==> StageTakes(e.stages[j], w.stages[j])
      invariant enabled > 0 <==> exists j :: 0 <= j < i && e.stages[j].enabled
    {
      var stage, before := e.stages[i], w.stages[i];
      ghost var takes := StageTakes(stage, before);
      if stage.enabled { enabled := enabled + 1; }
      if stage.x != before.x && (stage.x < 50 || stage.x > 26000 || stage.x % 50 != 0) { return false, enabled; }
      if (stage.y != before.y || (stage.split && !before.split)) && (stage.y < 50 || stage.y > 26000 || stage.y % 50 != 0) {
        return false, enabled;
      }
    }
    return true, enabled;
  }

  method CheckCommon(e: Profile, w: Profile, hz: seq<int>) returns (ok: bool)
    requires e.Ok() && w.Ok()
    ensures ok <==> CommonOk(e, w, hz)
  {
    if e.name != w.name && e.name == [] { return false; }
    var stages, enabled := CheckStages(e, w);
    if !stages { return false; }
    hide StageTakes;
    if e.stages != w.stages && enabled == 0 { return false; }
    var active := e.active;
    if active != w.active && (active < 0 || active >= STAGES) { return false; }
    if 0 <= active < STAGES && !e.stages[active].enabled && (active != w.active || w.stages[active].enabled) { return false; }
    if e.pollingRate != w.pollingRate {
      var offered := false;
      for i := 0 to |hz|
        invariant offered <==> e.pollingRate in hz[..i]
      {
        assert hz[..i + 1] == hz[..i] + [hz[i]];
        offered := offered || hz[i] == e.pollingRate;
      }
      assert hz[..|hz|] == hz;
      if !offered { return false; }
    }
    if e.liftOff != w.liftOff && e.liftOff != 1 && e.liftOff != 2 { return false; }
    return e.wheelSpeed == w.wheelSpeed || !(e.wheelSpeed < 0 || e.wheelSpeed > 14);
  }

  method ValidatePlan(m: MacroPlan) returns (ok: bool)
    ensures ok <==> PlanOk(m)
  {
    if |m.steps| == 0 || |m.steps| > STEP_LIMIT { return false; }
    for i := 0 to |m.steps|
      invariant forall j :: 0 <= j < i ==> StepOk(m.steps[j])
    {
      var step := m.steps[i];
      ghost var good := StepOk(m.steps[i]);
      if step.delay < 0 || step.delay > 60000 { return false; }
      match step.kind {
        case 10 | 2 =>
          var key := 4 <= step.code <= 99 && step.code != 50;
          if !key && (step.code < 0xe0 || step.code > 0xe7) && step.code != 0x20e1 { return false; }
        case 15 | 7 =>
          if step.code > 4 { return false; }
        case _ => return false;
      }
    }
    if (m.repeats < 1 || m.repeats > 99) && m.repeats != 0xffff { return false; }
    return 0 <= m.interval <= 60000;
  }

  method EncodeMacros(e: Profile, w: Profile, s: State) returns (r: Result<seq<Macro>>)
    requires e.Ok() && w.Ok() && s.Ok()
    ensures r.Ok? <==> forall slot :: 0 <= slot < SLOTS ==> PlanTakes(e.macros[slot], w.macros[slot])
    ensures r.Ok? ==> r.value == NewMacros(e, w, s, SLOTS)
  {
    var macros := s.macros;
    for slot := 0 to SLOTS
      invariant |macros| == SLOTS && forall j :: slot <= j < SLOTS ==> macros[j] == s.macros[j]
      invariant forall j :: 0 <= j < slot ==> PlanTakes(e.macros[j], w.macros[j])
      invariant forall j :: 0 <= j < slot ==> macros[j] == NewMacro(e.macros[j], w.macros[j], s.macros[j])
    {
      var m := e.macros[slot];
      if m == w.macros[slot] { continue; }
      macros := macros[slot := NO_MACRO];
      if m.steps == [] { continue; }
      var valid := ValidatePlan(m);
      if !valid || |m.name| > NAME_READ / 2 {
        assert !PlanTakes(e.macros[slot], w.macros[slot]);
        return Err;
      }
      macros := macros[slot := Wire(m)];
    }
    return Ok(macros);
  }

  method EncodeButtons(e: Profile, w: Profile, s: State, macros: seq<Macro>) returns (r: Result<seq<Entry>>)
    requires e.Ok() && w.Ok() && s.Ok()
    requires forall slot :: 0 <= slot < SLOTS ==> PlanTakes(e.macros[slot], w.macros[slot])
    requires macros == NewMacros(e, w, s, SLOTS)
    ensures r.Ok? <==> forall i :: 0 <= i < BUTTONS ==> ButtonTakes(e, w, s, i)
    ensures r.Ok? ==> r.value == NewButtons(e, w, s, BUTTONS)
  {
    hide NewMacro;
    var buttons := s.settings.buttons;
    for i := 0 to BUTTONS
      invariant |buttons| == BUTTONS && forall j :: i <= j < BUTTONS ==> buttons[j] == s.settings.buttons[j]
      invariant forall j :: 0 <= j < i ==> ButtonTakes(e, w, s, j)
      invariant forall j :: 0 <= j < i ==> buttons[j] == NewEntry(j, e.assignments[j], w.assignments[j], s.settings.buttons[j])
    {
      ghost var takes := ButtonTakes(e, w, s, i);
      var a := e.assignments[i];
      if a != w.assignments[i] {
        if a.macro && i < 2 { return Err; }
        if !a.macro {
          var offered := FunctionOffered(a.does);
          if !offered { return Err; }
        }
        buttons := buttons[i := if a.macro then Entry(1, NORMAL[i]) else Entry(0, a.does)];
      }
      if i >= 2 {
        var plays, steps := buttons[i].macro == 1, |macros[i - 2].records|;
        if plays && steps == 0 { return Err; }
        if !plays && steps > 0 && e.macros[i - 2] != w.macros[i - 2] { return Err; }
      }
    }
    return Ok(buttons);
  }

  /** An axis whose first n stages are done. */
  ghost predicate AxisDone(was: Dpi, now: Dpi, on: seq<bool>, v: seq<int>, before: seq<int>, n: nat)
    requires |was.mask| == 8 && |was.values| == |on| == |v| == |before| == STAGES && n <= STAGES
  {
    && |now.mask| == 8 && |now.values| == STAGES
    && (forall j :: 0 <= j < n ==> now.mask[j] == on[j])
    && (forall j :: n <= j < 8 ==> now.mask[j] == was.mask[j])
    && (forall j :: 0 <= j < n ==> now.values[j] == if v[j] != before[j] then Low16(v[j]) else was.values[j])
    && (forall j :: n <= j < STAGES ==> now.values[j] == was.values[j])
  }

  lemma AllDone(was: Dpi, now: Dpi, on: seq<bool>, v: seq<int>, before: seq<int>)
    requires |was.mask| == 8 && |was.values| == |on| == |v| == |before| == STAGES
    requires AxisDone(was, now, on, v, before, STAGES)
    ensures now == NewDpi(was, on, v, before)
  {
    assert now.mask == on + was.mask[STAGES..];
    assert now.values == NewDpi(was, on, v, before).values;
  }

  method EncodeStage(d: Dpi, i: nat, on: bool, wasOn: bool, v: int, was: int, ghost from: Dpi,
                     ghost ons: seq<bool>, ghost vs: seq<int>, ghost olds: seq<int>) returns (r: Dpi)
    requires |from.mask| == 8 && |from.values| == |ons| == |vs| == |olds| == STAGES && i < STAGES
    requires AxisDone(from, d, ons, vs, olds, i)
    requires on == ons[i] && wasOn == from.mask[i] && v == vs[i] && was == olds[i]
    ensures AxisDone(from, r, ons, vs, olds, i + 1)
  {
    r := d;
    if on != wasOn { r := r.(mask := r.mask[i := on]); }
    if v != was { r := r.(values := r.values[i := Low16(v)]); }
  }

  /** Puts an edit's stages into the stored ones, a bit and a value at a time. */
  method EncodeStages(dpi: seq<Dpi>, e: Profile, w: Profile) returns (r: seq<Dpi>)
    requires e.Ok() && w.Ok() && |dpi| == 2
    requires forall a :: 0 <= a < 2 ==> |dpi[a].mask| == 8 && |dpi[a].values| == STAGES
    requires forall i :: 0 <= i < STAGES ==> w.stages[i] == StageOf(dpi[AXIS_X], dpi[AXIS_Y], i)
    ensures r == NewStages(e, w, dpi)
  {
    hide AxisDone;
    var x, y := dpi[AXIS_X], dpi[AXIS_Y];
    NoneDone(x, Enabled(e), Xs(e), Xs(w));
    NoneDone(y, Split(e), Ys(e), Ys(w));
    for i := 0 to STAGES
      invariant AxisDone(dpi[AXIS_X], x, Enabled(e), Xs(e), Xs(w), i)
      invariant AxisDone(dpi[AXIS_Y], y, Split(e), Ys(e), Ys(w), i)
    {
      var stage, was := e.stages[i], w.stages[i];
      x := EncodeStage(x, i, stage.enabled, was.enabled, stage.x, was.x, dpi[AXIS_X], Enabled(e), Xs(e), Xs(w));
      y := EncodeStage(y, i, stage.split, was.split, stage.y, was.y, dpi[AXIS_Y], Split(e), Ys(e), Ys(w));
    }
    AllDone(dpi[AXIS_X], x, Enabled(e), Xs(e), Xs(w));
    AllDone(dpi[AXIS_Y], y, Split(e), Ys(e), Ys(w));
    return [x, y];
  }

  lemma NoneDone(d: Dpi, on: seq<bool>, v: seq<int>, before: seq<int>)
    requires |d.mask| == 8 && |d.values| == |on| == |v| == |before| == STAGES
    ensures AxisDone(d, d, on, v, before, 0)
  {
  }

  method EncodeScalars(e: Profile, w: Profile, was: Settings) returns (s: Settings)
    requires (e.name != w.name ==> |e.name| <= PROFILE_NAME / 2) && (e.active != w.active ==> 0 <= e.active < STAGES)
    requires e.liftOff != w.liftOff ==> e.liftOff == 1 || e.liftOff == 2
    requires e.wheelSpeed != w.wheelSpeed ==> 0 <= e.wheelSpeed <= 14
    requires e.pollingRate == w.pollingRate || e.pollingRate in RatesOffered(was.rate)
    ensures s == NewScalars(e, w, was)
  {
    assert NewRate(e, w, was.rate) ==
           if e.pollingRate == w.pollingRate then was.rate else was.rate.(current := Place(e.pollingRate, |HZ|));
    hide MouseName, NewRate, Place, RatesOffered, Flag;
    s := was;
    if e.name != w.name { s := s.(name := MouseName(e.name, PROFILE_NAME)); }
    if e.leftHanded != w.leftHanded { s := s.(leftHanded := Flag(e.leftHanded)); }
    if e.active != w.active { s := s.(stage := e.active); }
    if e.pollingRate != w.pollingRate { s := s.(rate := s.rate.(current := Place(e.pollingRate, |HZ|))); }
    if e.liftOff != w.liftOff { s := s.(liftOff := e.liftOff); }
    if e.wheelSpeed != w.wheelSpeed { s := s.(wheelSpeed := e.wheelSpeed); }
    if e.wheelNatural != w.wheelNatural { s := s.(wheelDir := Flag(e.wheelNatural)); }
  }

  /** The settings the mouse should hold once an edit is applied over what was read, or a refusal. */
  method EncodeProfile(e: Profile, read: State) returns (r: Result<State>)
    requires e.Ok() && read.Ok()
    ensures r.Ok? <==> Accepts(e, read)
    ensures r.Ok? ==> r.value == NewState(e, read)
  {
    var w, state := Decode(read), Base(read);
    var common := CheckCommon(e, w, RatesOffered(state.settings.rate));
    if !common { return Err; }
    if e.name != w.name && |e.name| > PROFILE_NAME / 2 { return Err; }
    var macros := EncodeMacros(e, w, state);
    if macros.Err? { return Err; }
    var buttons := EncodeButtons(e, w, state, macros.value);
    if buttons.Err? { return Err; }
    var dpi := EncodeStages(state.settings.dpi, e, w);
    var settings := EncodeScalars(e, w, state.settings);
    return Ok(State(settings.(buttons := buttons.value, dpi := dpi), macros.value));
  }

  // ---- What the result shows

  /** What a read finds: nothing but the name without a profile, and only the macros some button plays. */
  function Visible(s: State): (v: State)
    requires s.Ok()
    ensures v.Ok()
  {
    s.(macros := seq(SLOTS, i requires 0 <= i < SLOTS => if s.settings.Plays(i) then s.macros[i] else NO_MACRO))
  }

  /** A state as a read gives it: a macro where a button plays one, as much of its name as is read. */
  predicate AsRead(read: State) {
    && read.Ok()
    && forall i :: 0 <= i < SLOTS ==>
         if read.settings.Plays(i) then |read.macros[i].name| == NAME_READ && |read.macros[i].records| <= MAX_RECORDS
         else read.macros[i] == NO_MACRO
  }

  /** An edit as it reads back: a button newly given a macro has its usual function, and no macro is kept unplayed. */
  function Normal(e: Profile, w: Profile): (n: Profile)
    requires e.Ok() && w.Ok()
    ensures n.Ok()
  {
    e.(inUse := true,
       assignments := seq(BUTTONS, i requires 0 <= i < BUTTONS => NormalAssignment(i, e.assignments[i], w.assignments[i])),
       macros := seq(SLOTS, i requires 0 <= i < SLOTS => if e.assignments[i + 2].macro then e.macros[i] else NO_PLAN))
  }

  function NormalAssignment(i: nat, e: Assignment, w: Assignment): Assignment
    requires i < BUTTONS
  {
    if e != w && e.macro then e.(does := NORMAL[i]) else e
  }

  /** Every name the edit gives is one the stored form can carry. */
  predicate NamesRead(e: Profile, w: Profile)
    requires e.Ok() && w.Ok()
  {
    && (e.name == w.name || Storable(e.name))
    && forall i :: 0 <= i < SLOTS && e.assignments[i + 2].macro ==> e.macros[i] == w.macros[i] || Storable(e.macros[i].name)
  }

  lemma MouseNameReads(name: Name, size: nat)
    requires WellFormed(name) && 2 * |name| <= size
    ensures DecodeName(MouseName(name, size)) == name <==> Storable(name)
  {
    StoredUnitsOf(name, size - 2 * |name|);
  }

  lemma WireReads(m: MacroPlan)
    requires PlanOk(m) && |m.name| <= NAME_READ / 2 && WellFormed(m.name)
    ensures PlanOf(Wire(m)) == m.(name := DecodeName(MouseName(m.name, NAME_READ)))
    ensures PlanOf(Wire(m)) == m <==> Storable(m.name)
  {
    MouseNameReads(m.name, NAME_READ);
    hide MouseName, DecodeName;
    forall i | 0 <= i < |m.steps|
      ensures StepOf(RecordFor(m.steps[i])) == m.steps[i]
    {
      assert StepOk(m.steps[i]);
    }
    assert StepsOf(Wire(m).records) == m.steps;
  }

  lemma NewNameShows(e: Profile, read: State)
    requires e.Ok() && read.Ok() && Accepts(e, read) && (read.settings.InUse() || e.name != [])
    ensures var n, w := NewState(e, read).settings, Decode(read);
            (n.InUse() && DecodeName(n.name) == e.name) <==> (e.name == w.name || Storable(e.name))
  {
    var w := Decode(read);
    if e.name == w.name {
      DefaultName();
    } else {
      MouseNameReads(e.name, PROFILE_NAME);
      assert UnitBytes(e.name)[0] == e.name[0] / 256 && UnitBytes(e.name)[1] == e.name[0] % 256;
    }
  }

  lemma DefaultName()
    ensures DecodeName(DEFAULTS.name) == []
  {
    assert DEFAULTS.name[0] == 0 && DEFAULTS.name[1] == 0;
  }

  lemma ButtonShows(e: Profile, read: State, i: nat)
    requires e.Ok() && read.Ok() && Accepts(e, read) && i < BUTTONS
    ensures var entry := NewState(e, read).settings.buttons[i];
            Assignment(entry.plain, entry.macro == 1) == NormalAssignment(i, e.assignments[i], Decode(read).assignments[i])
    ensures NewState(e, read).settings.buttons[i].macro == 1 <==> e.assignments[i].macro
  {
  }

  lemma StageShows(e: Profile, read: State, i: nat)
    requires e.Ok() && read.Ok() && Accepts(e, read) && i < STAGES
    ensures var dpi := NewState(e, read).settings.dpi;
            StageOf(dpi[AXIS_X], dpi[AXIS_Y], i) == e.stages[i]
  {
    var w, dpi := Decode(read), Base(read).settings.dpi;
    assert StageTakes(e.stages[i], w.stages[i]) && w.stages[i] == StageOf(dpi[AXIS_X], dpi[AXIS_Y], i);
    assert NewState(e, read).settings.dpi == NewStages(e, w, dpi);
    NewStageShows(dpi, e, w, i);
  }

  lemma NewStageShows(dpi: seq<Dpi>, e: Profile, w: Profile, i: nat)
    requires e.Ok() && w.Ok() && |dpi| == 2 && i < STAGES
    requires forall a :: 0 <= a < 2 ==> |dpi[a].mask| == 8 && |dpi[a].values| == STAGES
    requires StageTakes(e.stages[i], w.stages[i]) && w.stages[i] == StageOf(dpi[AXIS_X], dpi[AXIS_Y], i)
    ensures StageOf(NewStages(e, w, dpi)[AXIS_X], NewStages(e, w, dpi)[AXIS_Y], i) == e.stages[i]
  {
    assert Xs(e)[i] == e.stages[i].x && Xs(w)[i] == w.stages[i].x && Ys(e)[i] == e.stages[i].y && Ys(w)[i] == w.stages[i].y;
  }

  lemma SettingsShow(e: Profile, read: State)
    requires e.Ok() && read.Ok() && Accepts(e, read)
    ensures var n := NewState(e, read).settings;
            && (n.leftHanded == 1) == e.leftHanded && n.stage == e.active && n.liftOff == e.liftOff
            && Min(14, n.wheelSpeed) == e.wheelSpeed && (n.wheelDir == 1) == e.wheelNatural
            && (if n.rate.current < 6 then HZ[n.rate.current] else 0) == e.pollingRate
  {
  }

  lemma MacroShows(e: Profile, read: State, i: nat)
    requires e.Ok() && AsRead(read) && Accepts(e, read) && i < SLOTS && WellFormed(e.macros[i].name)
    ensures var w, v := Decode(read), Visible(NewState(e, read)).macros[i];
            var plays := e.assignments[i + 2].macro;
            PlanOf(v) == (if plays then e.macros[i] else NO_PLAN) <==>
            (plays ==> e.macros[i] == w.macros[i] || Storable(e.macros[i].name))
  {
    var w, s := Decode(read), Base(read);
    assert ButtonTakes(e, w, s, i + 2);
    ButtonShows(e, read, i + 2);
    hide DecodeName, UnitBytes, Readable, StoredUnits;
    if e.assignments[i + 2].macro && e.macros[i] != w.macros[i] {
      WireReads(e.macros[i]);
    }
  }

  /**
   What an accepted edit stores reads back as the edit's normal form exactly when the names it gives
   are storable.
   */
  lemma ProfileRoundTrip(e: Profile, read: State)
    requires e.Ok() && AsRead(read) && Accepts(e, read) && (read.settings.InUse() || e.name != [])
    requires forall i :: 0 <= i < SLOTS ==> WellFormed(e.macros[i].name)
    ensures Decode(Visible(NewState(e, read))) == Normal(e, Decode(read)) <==> NamesRead(e, Decode(read))
  {
    var w, n := Decode(read), NewState(e, read);
    var v := Visible(n);
    NewNameShows(e, read);
    SettingsShow(e, read);
    forall i | 0 <= i < BUTTONS
      ensures var entry := n.settings.buttons[i];
              Assignment(entry.plain, entry.macro == 1) == NormalAssignment(i, e.assignments[i], w.assignments[i])
    {
      ButtonShows(e, read, i);
    }
    forall i | 0 <= i < STAGES
      ensures StageOf(n.settings.dpi[AXIS_X], n.settings.dpi[AXIS_Y], i) == e.stages[i]
    {
      StageShows(e, read, i);
    }
    forall i | 0 <= i < SLOTS
      ensures PlanOf(v.macros[i]) == (if e.assignments[i + 2].macro then e.macros[i] else NO_PLAN) <==>
              (e.assignments[i + 2].macro ==> e.macros[i] == w.macros[i] || Storable(e.macros[i].name))
    {
      MacroShows(e, read, i);
    }
    if n.settings.InUse() {
      Shown(v, e, w);
    }
  }

  /** A profile shows as another does exactly when each of its parts does. */
  lemma Shown(v: State, e: Profile, w: Profile)
    requires v.Ok() && v.settings.InUse() && e.Ok() && w.Ok()
    ensures Decode(v) == Normal(e, w) <==>
            && DecodeName(v.settings.name) == e.name && (v.settings.leftHanded == 1) == e.leftHanded
            && v.settings.stage == e.active && v.settings.liftOff == e.liftOff
            && Min(14, v.settings.wheelSpeed) == e.wheelSpeed && (v.settings.wheelDir == 1) == e.wheelNatural
            && (if v.settings.rate.current < 6 then HZ[v.settings.rate.current] else 0) == e.pollingRate
            && (forall i :: 0 <= i < BUTTONS ==>
                  Assignment(v.settings.buttons[i].plain, v.settings.buttons[i].macro == 1)
                  == NormalAssignment(i, e.assignments[i], w.assignments[i]))
            && (forall i :: 0 <= i < STAGES ==> StageOf(v.settings.dpi[AXIS_X], v.settings.dpi[AXIS_Y], i) == e.stages[i])
            && (forall i :: 0 <= i < SLOTS ==>
                  PlanOf(v.macros[i]) == if e.assignments[i + 2].macro then e.macros[i] else NO_PLAN)
  {
    hide StageOf, PlanOf, NormalAssignment, DecodeName;
    var d, n := Decode(v), Normal(e, w);
    assert Base(v) == v;
    assert forall i :: 0 <= i < BUTTONS ==>
        d.assignments[i] == Assignment(v.settings.buttons[i].plain, v.settings.buttons[i].macro == 1);
    assert forall i :: 0 <= i < STAGES ==> d.stages[i] == StageOf(v.settings.dpi[AXIS_X], v.settings.dpi[AXIS_Y], i);
    assert forall i :: 0 <= i < SLOTS ==> d.macros[i] == PlanOf(v.macros[i]);
    assert n.stages == e.stages;
    assert d.assignments == n.assignments <==> forall i :: 0 <= i < BUTTONS ==> d.assignments[i] == n.assignments[i];
    assert d.stages == n.stages <==> forall i :: 0 <= i < STAGES ==> d.stages[i] == n.stages[i];
    assert d.macros == n.macros <==> forall i :: 0 <= i < SLOTS ==> d.macros[i] == n.macros[i];
  }
}

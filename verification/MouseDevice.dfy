/**
 A Retro R8 mouse: one command for each setting, macros in several reports, nothing to commit. It
 answers reads truthfully and, as its faults allow, mistreats writes. With it, the session's macro
 transfers.
 */
module MouseDevice {
  import opened Bytes
  import opened MouseMacros

  const PROFILE_NAME: nat := 20
  const BUTTONS: nat := 6
  const STAGES: nat := 6
  const RATES: nat := 6
  const AXIS_X: nat := 0
  const AXIS_Y: nat := 1

  /** What a button does: macro is 1 when it plays its macro instead of its function. */
  datatype Entry = Entry(macro: Byte, plain: U32)

  /** The stages along one axis; a mask byte is its eight bits. */
  datatype Dpi = Dpi(mask: seq<bool>, values: seq<U16>)

  datatype Rate = Rate(count: Byte, current: Byte, rates: seq<U16>)

  /** Every setting with a command of its own. */
  datatype Settings = Settings(
    name: seq<Byte>, buttons: seq<Entry>, leftHanded: Byte, liftOff: Byte, wheelSpeed: Byte, wheelDir: Byte,
    dpi: seq<Dpi>, rate: Rate, stage: Byte)
  {
    predicate Ok() {
      && |name| == PROFILE_NAME && |buttons| == BUTTONS && |dpi| == 2 && |rate.rates| == RATES
      && forall a :: 0 <= a < 2 ==> |dpi[a].mask| == 8 && |dpi[a].values| == STAGES
    }
    predicate InUse()
      requires Ok()
    {
      name[0] != 0 || name[1] != 0
    }
    predicate Plays(slot: nat)
      requires Ok() && slot < SLOTS
    {
      buttons[slot + 2].macro == 1
    }
  }

  /** What is written in one go. */
  datatype Part =
    | NamePart | LeftHandedPart | ButtonPart(button: nat) | LiftOffPart | WheelSpeedPart | WheelDirPart
    | DpiPart(axis: nat) | RatePart | StagePart | MacroPart(slot: nat)
  {
    predicate Ok() {
      (ButtonPart? ==> button < BUTTONS) && (DpiPart? ==> axis < 2) && (MacroPart? ==> slot < SLOTS)
    }
  }

  datatype Value =
    | NameIs(name: seq<Byte>) | ByteIs(byte: Byte) | ButtonIs(entry: Entry) | DpiIs(dpi: Dpi) | RateIs(rate: Rate)

  function ValueOf(s: Settings, part: Part): Value
    requires s.Ok() && part.Ok() && !part.MacroPart?
  {
    match part
    case NamePart => NameIs(s.name)
    case LeftHandedPart => ByteIs(s.leftHanded)
    case ButtonPart(i) => ButtonIs(s.buttons[i])
    case LiftOffPart => ByteIs(s.liftOff)
    case WheelSpeedPart => ByteIs(s.wheelSpeed)
    case WheelDirPart => ByteIs(s.wheelDir)
    case DpiPart(a) => DpiIs(s.dpi[a])
    case RatePart => RateIs(s.rate)
    case StagePart => ByteIs(s.stage)
  }

  /** One set of settings with a part of another's. */
  function Overwritten(s: Settings, part: Part, from: Settings): (r: Settings)
    requires s.Ok() && from.Ok() && part.Ok() && !part.MacroPart?
    ensures r.Ok()
  {
    match part
    case NamePart => s.(name := from.name)
    case LeftHandedPart => s.(leftHanded := from.leftHanded)
    case ButtonPart(i) => s.(buttons := s.buttons[i := from.buttons[i]])
    case LiftOffPart => s.(liftOff := from.liftOff)
    case WheelSpeedPart => s.(wheelSpeed := from.wheelSpeed)
    case WheelDirPart => s.(wheelDir := from.wheelDir)
    case DpiPart(a) => s.(dpi := s.dpi[a := from.dpi[a]])
    case RatePart => s.(rate := from.rate)
    case StagePart => s.(stage := from.stage)
  }

  /** What a write of a part leaves stored: a sixth rate is only kept when there are six. */
  function Stored(s: Settings, part: Part, from: Settings): (r: Settings)
    requires s.Ok() && from.Ok() && part.Ok() && !part.MacroPart?
    ensures r.Ok()
  {
    if part == RatePart && from.rate.count != 6 then
      s.(rate := from.rate.(rates := from.rate.rates[5 := s.rate.rates[5]]))
    else Overwritten(s, part, from)
  }

  /** Two sets of settings that agree on every part but one. */
  ghost predicate SameExcept(a: Settings, b: Settings, part: Part) {
    a.Ok() && b.Ok() && forall q: Part :: q.Ok() && !q.MacroPart? && q != part ==> ValueOf(a, q) == ValueOf(b, q)
  }

  lemma OverwrittenSame(s: Settings, part: Part, from: Settings)
    requires s.Ok() && from.Ok() && part.Ok() && !part.MacroPart?
    ensures SameExcept(Overwritten(s, part, from), s, part) && SameExcept(Stored(s, part, from), s, part)
  {
  }

  /** Two stores that agree on every macro but one. */
  ghost predicate OnlySlot(a: Store, b: Store, slot: nat) {
    |a.macros| == |b.macros| && forall i :: 0 <= i < |a.macros| && i != slot ==> a.macros[i] == b.macros[i]
  }

  /**
   What may go wrong: nothing; a write that is not acknowledged, which may have done anything to what it
   is about; or any write doing anything to what it is about, whatever is answered.
   */
  datatype Faults = NoFault | Unacknowledged | Silent

  class Mouse {
    const faults: Faults
    var held: Settings
    /** The DPI that came with the stage in use. */
    var stageDpi: U16
    var store: Store
    /** How many writes were not acknowledged. */
    var failures: nat

    ghost predicate Valid()
      reads this
    {
      held.Ok() && store.Ok()
    }

    constructor (faults: Faults, held: Settings, stageDpi: U16, store: Store)
      requires held.Ok() && store.Ok()
      ensures Valid() && this.faults == faults && this.held == held && this.stageDpi == stageDpi && this.store == store
      ensures failures == 0
    {
      failures := 0;
      this.faults, this.held, this.stageDpi, this.store := faults, held, stageDpi, store;
    }

    /** Writes one setting; dpi goes along with the stage in use. */
    method Put(part: Part, from: Settings, dpi: U16) returns (acked: bool)
      requires Valid() && from.Ok() && part.Ok() && !part.MacroPart?
      modifies this`held, this`stageDpi, this`failures
      ensures failures == old(failures) + if acked then 0 else 1
      ensures Valid() && SameExcept(held, old(held), part)
      ensures part != StagePart ==> stageDpi == old(stageDpi)
      ensures faults == NoFault ==> acked
      ensures acked && faults != Silent ==> held == Stored(old(held), part, from)
      ensures acked && faults != Silent && part == StagePart ==> stageDpi == dpi
    {
      OverwrittenSame(held, part, from);
      var lands: bool := *;
      acked := *;
      if faults == NoFault || lands {
        acked := acked || faults == NoFault;
        if !acked { failures := failures + 1; }
        held := Stored(held, part, from);
        if part == StagePart { stageDpi := dpi; }
        return;
      }
      acked := acked && faults == Silent;
      if !acked { failures := failures + 1; }
      var junk: Settings := *;
      if junk.Ok() {
        OverwrittenSame(held, part, junk);
        held := Overwritten(held, part, junk);
        if part == StagePart { stageDpi := *; }
      }
    }

    /** Reads one setting, or gets no answer. */
    method Get(part: Part) returns (seen: Option<Value>)
      requires Valid() && part.Ok() && !part.MacroPart?
      ensures seen.Some? ==> seen.value == ValueOf(held, part)
      ensures faults == NoFault ==> seen.Some?
    {
      var answered: bool := *;
      seen := if answered || faults == NoFault then Some(ValueOf(held, part)) else None;
    }

    /** One report of a macro being written. */
    method Receive(p: seq<Byte>) returns (acked: bool)
      requires Valid() && |p| == FRAME
      modifies this`store, this`failures
      ensures failures == old(failures) + if acked then 0 else 1
      ensures Valid()
      ensures About(old(store), p).None? ==> store.macros == old(store.macros)
      ensures About(old(store), p).Some? ==> OnlySlot(old(store), store, About(old(store), p).value)
      ensures acked ==> store.at == if p[0] == HEADER && ButtonOk(p[2]) then SlotOf(p[2]) else old(store.at)
      ensures faults == NoFault ==> (store, acked) == Step(old(store), p)
      ensures acked && faults == Unacknowledged ==> (store, true) == Step(old(store), p)
    {
      var (now, fine) := Step(store, p);
      if faults == NoFault {
        store := now;
        if !fine { failures := failures + 1; }
        return fine;
      }
      var lands: bool := *;
      if fine && lands {
        store := now;
        acked := *;
        if !acked { failures := failures + 1; }
        return;
      }
      acked := *;
      acked := acked && faults == Silent;
      if !acked { failures := failures + 1; }
      var junk: Macro, incoming: seq<Byte>, moves: bool := *, *, *;
      var about := About(store, p);
      if about.Some? && |junk.name| == NAME_LEN {
        var at := if p[0] == HEADER && (acked || moves) then about.value else store.at;
        store := Store(store.macros[about.value := junk], at, incoming);
      } else if about.Some? && p[0] == HEADER && acked {
        store := store.(at := about.value);
      }
    }

    /** One report of a macro being read. */
    method Ask(p: seq<Byte>) returns (reply: Option<seq<Byte>>)
      requires Valid() && |p| == FRAME
      modifies this`store
      ensures Valid() && store.macros == old(store.macros)
      ensures reply.Some? || faults == NoFault ==> (store.at, reply) == Answer(old(store), p)
    {
      var (at, answer) := Answer(store, p);
      store := store.(at := at);
      var answered: bool := *;
      return if answered || faults == NoFault then answer else None;
    }

    /** Removes the profile: what that does to the settings is not known, but an honest mouse has no name then. */
    method Clear() returns (acked: bool)
      requires Valid()
      modifies this
      ensures Valid()
      ensures faults == NoFault ==> acked
      ensures acked && faults != Silent ==> !held.InUse()
      ensures failures == old(failures) + if acked then 0 else 1
    {
      var settings: Settings, macros: Store := *, *;
      if settings.Ok() { held := settings; }
      if macros.Ok() { store := macros; }
      stageDpi := *;
      acked := *;
      if faults == NoFault || (acked && faults != Silent) {
        held, acked := held.(name := Fill(PROFILE_NAME, 0)), true;
      }
      if !acked { failures := failures + 1; }
    }
  }

  // ---- Writing a macro

  method SendHeader(m: Mouse, button: Byte, macro: Macro) returns (ok: bool)
    requires m.Valid() && ButtonOk(button) && Sendable(macro)
    modifies m`store, m`failures
    ensures m.failures <= old(m.failures) + 1 && (ok ==> m.failures == old(m.failures))
    ensures m.Valid() && OnlySlot(old(m.store), m.store, SlotOf(button))
    ensures ok ==> m.store.at == SlotOf(button)
    ensures m.faults == NoFault ==> ok
    ensures ok && m.faults != Silent ==>
              m.store.incoming == [] && Begun(m.store, SlotOf(button), macro, 0)
  {
    HeaderTaken(m.store, button, macro);
    HeaderAbout(m.store, button, macro);
    ok := m.Receive(Frame(HeaderData(button, macro)));
  }

  lemma HeaderAbout(st: Store, button: Byte, m: Macro)
    requires ButtonOk(button) && Sendable(m)
    ensures var p := Frame(HeaderData(button, m));
            p[0] == HEADER && p[2] == button && About(st, p) == Some(SlotOf(button))
  {
    FrameStart(HeaderData(button, m));
  }

  lemma NameAbout(st: Store, button: Byte, name: seq<Byte>, block: nat)
    requires ButtonOk(button) && |name| == NAME_LEN && block < 3
    ensures var p := Frame(NameData(button, name, block));
            p[0] == NAME && About(st, p) == Some(SlotOf(button))
  {
    FrameStart(NameData(button, name, block));
  }

  /** A macro whose header and first name blocks have come, and no records yet. */
  ghost predicate Begun(st: Store, slot: nat, m: Macro, blocks: nat)
    requires st.Ok() && slot < SLOTS && Sendable(m) && blocks <= 3
  {
    var now := st.macros[slot];
    && now.cycles == m.cycles && now.interval == m.interval && now.records == []
    && now.name[..NAME_BLOCK * blocks] == FullName(m)[..NAME_BLOCK * blocks]
  }

  method SendNameBlock(m: Mouse, button: Byte, macro: Macro, block: nat) returns (ok: bool)
    requires m.Valid() && ButtonOk(button) && Sendable(macro) && block < 3
    requires m.faults != Silent ==> m.store.incoming == [] && Begun(m.store, SlotOf(button), macro, block)
    modifies m`store, m`failures
    ensures m.failures <= old(m.failures) + 1 && (ok ==> m.failures == old(m.failures))
    ensures m.Valid() && OnlySlot(old(m.store), m.store, SlotOf(button))
    ensures ok ==> m.store.at == old(m.store.at)
    ensures m.faults == NoFault ==> ok
    ensures ok && m.faults != Silent ==> m.store.incoming == [] && Begun(m.store, SlotOf(button), macro, block + 1)
  {
    var name := FullName(macro);
    NameTaken(m.store, button, name, block);
    NameAbout(m.store, button, name, block);
    ghost var was := m.store.macros[SlotOf(button)].name;
    ok := m.Receive(Frame(NameData(button, name, block)));
    ghost var from := NAME_BLOCK * block;
    assert name[..from] + name[from..from + NAME_BLOCK] == name[..from + NAME_BLOCK];
    assert was[..from] == name[..from] ==>
        (was[..from] + name[from..from + NAME_BLOCK] + was[from + NAME_BLOCK..])[..from + NAME_BLOCK] == name[..from + NAME_BLOCK];
  }

  /** One report of records, the store already holding the ones before it. */
  method SendRecordPair(m: Mouse, macro: Macro, at: nat) returns (ok: bool)
    requires m.Valid() && Sendable(macro) && at < |macro.records|
    requires m.faults != Silent ==> m.store.incoming == Raw(macro.records, |macro.records|)[..RECORD * at]
    modifies m`store, m`failures
    ensures m.failures <= old(m.failures) + 1 && (ok ==> m.failures == old(m.failures))
    ensures m.Valid() && OnlySlot(old(m.store), m.store, old(m.store.at))
    ensures ok ==> m.store.at == old(m.store.at)
    ensures m.faults == NoFault ==> ok
    ensures var next := at + Carries(macro.records, at);
            ok && m.faults != Silent && next < |macro.records| ==>
              m.store == old(m.store).(incoming := Raw(macro.records, |macro.records|)[..RECORD * next])
    ensures var next := at + Carries(macro.records, at);
            ok && m.faults != Silent && next == |macro.records| ==>
              m.store.macros == old(m.store.macros)[m.store.at := old(m.store.macros[m.store.at]).(records := macro.records)]
  {
    if m.faults != Silent {
      RecordsTaken(m.store, macro.records, at);
    }
    RecordsHead(macro.records, at);
    hide Raw, RecordsData, Step, Frame;
    ok := m.Receive(Frame(RecordsData(macro.records, at)));
  }

  method SendRecords(m: Mouse, macro: Macro) returns (ok: bool)
    requires m.Valid() && Sendable(macro)
    requires m.faults != Silent ==> m.store.incoming == []
    modifies m`store, m`failures
    ensures m.failures <= old(m.failures) + 1 && (ok ==> m.failures == old(m.failures))
    ensures m.Valid() && OnlySlot(old(m.store), m.store, old(m.store.at))
    ensures m.faults == NoFault ==> ok
    ensures ok && m.faults != Silent ==>
              m.store.macros[old(m.store.at)] == old(m.store.macros[m.store.at]).(records := macro.records)
  {
    hide Raw;
    var at := 0;
    assert Raw(macro.records, |macro.records|)[..0] == [];
    while at < |macro.records|
      invariant m.Valid() && at <= |macro.records| && m.store.at == old(m.store.at) && m.failures == old(m.failures)
      invariant OnlySlot(old(m.store), m.store, old(m.store.at))
      invariant m.faults != Silent && at < |macro.records| ==>
                  m.store == old(m.store).(incoming := Raw(macro.records, |macro.records|)[..RECORD * at])
      invariant m.faults != Silent && at == |macro.records| ==>
                  m.store.macros[m.store.at] == old(m.store.macros[m.store.at]).(records := macro.records)
    {
      ok := SendRecordPair(m, macro, at);
      if !ok { return false; }
      at := at + Carries(macro.records, at);
    }
    return true;
  }

  /**
   Stores a macro for a button: its header, its name, then its records. No other button's macro
   changes, whatever goes wrong; and where acknowledgements are honest, what is kept is the macro.
   */
  method WriteMacro(m: Mouse, button: Byte, macro: Macro) returns (ok: bool)
    requires m.Valid()
    modifies m`store, m`failures
    ensures m.failures <= old(m.failures) + 1 && (ok ==> m.failures == old(m.failures))
    ensures m.Valid()
    ensures ok ==> ButtonOk(button) && Sendable(macro)
    ensures !ButtonOk(button) || !Sendable(macro) ==> m.store == old(m.store)
    ensures ButtonOk(button) ==> OnlySlot(old(m.store), m.store, SlotOf(button))
    ensures m.faults == NoFault && ButtonOk(button) && Sendable(macro) ==> ok
    ensures ok && m.faults != Silent ==> m.store.macros[SlotOf(button)] == Kept(macro)
  {
    if !ButtonOk(button) { return false; }
    if |macro.records| < 1 || |macro.records| > MAX_RECORDS || |macro.name| > NAME_LEN { return false; }
    ok := SendHeader(m, button, macro);
    if !ok { return; }
    for block := 0 to 3
      invariant m.Valid() && m.store.at == SlotOf(button) && m.failures == old(m.failures)
      invariant OnlySlot(old(m.store), m.store, SlotOf(button))
      invariant m.faults != Silent ==> m.store.incoming == [] && Begun(m.store, SlotOf(button), macro, block)
    {
      ok := SendNameBlock(m, button, macro, block);
      if !ok { return; }
    }
    assert m.faults != Silent ==> m.store.macros[SlotOf(button)].name == FullName(macro) by {
      assert FullName(macro)[..NAME_BLOCK * 3] == FullName(macro);
      assert m.store.macros[SlotOf(button)].name[..NAME_BLOCK * 3] == m.store.macros[SlotOf(button)].name;
    }
    ok := SendRecords(m, macro);
  }

  // ---- Reading one

  method AskName(m: Mouse, button: Byte) returns (r: Option<seq<Byte>>)
    requires m.Valid() && ButtonOk(button)
    modifies m`store
    ensures m.Valid() && m.store.macros == old(m.store.macros)
    ensures r.Some? ==> m.store.at == old(m.store.at) && r.value == m.store.macros[SlotOf(button)].name[..NAME_READ]
    ensures m.faults == NoFault ==> r.Some?
  {
    var name: seq<Byte> := [];
    ghost var stored := m.store.macros[SlotOf(button)].name;
    for block := 0 to 2
      invariant m.Valid() && m.store.macros == old(m.store.macros) && m.store.at == old(m.store.at)
      invariant name == stored[..NAME_BLOCK * block]
    {
      NameAnswer(m.store, button, block);
      var reply := m.Ask(Frame([NAME, button, block * 8]));
      if reply.None? { return None; }
      assert stored[..NAME_BLOCK * block] + stored[NAME_BLOCK * block..NAME_BLOCK * (block + 1)] == stored[..NAME_BLOCK * (block + 1)];
      name := name + reply.value[3..3 + NAME_BLOCK];
    }
    return Some(name);
  }

  method AskRecords(m: Mouse, count: nat) returns (r: Option<seq<MacroRecord>>)
    requires m.Valid() && count <= MAX_RECORDS && count <= |m.store.macros[m.store.at].records|
    modifies m`store
    ensures m.Valid() && m.store.macros == old(m.store.macros)
    ensures r.Some? ==> r.value == old(m.store.macros[m.store.at]).records[..count]
    ensures m.faults == NoFault ==> r.Some?
  {
    hide Answer, Frame, RecordsIn;
    var records: seq<MacroRecord> := [];
    ghost var stored := m.store.macros[m.store.at].records;
    while |records| < count
      invariant m.Valid() && m.store.macros == old(m.store.macros) && m.store.at == old(m.store.at)
      invariant |records| <= count && records == stored[..|records|]
      decreases count - |records|
    {
      var at := |records|;
      var n := Min(PER_FRAME, count - at);
      RecordsAnswer(m.store, at, n);
      var reply := m.Ask(Frame([RECORDS, 0, 0, at, n]));
      if reply.None? { return None; }
      assert stored[..at] + stored[at..at + n] == stored[..at + n];
      records := records + RecordsIn(reply.value[5..], n);
    }
    return Some(records);
  }

  /** Reads the macro stored for a button. What it gives is what is stored. */
  method ReadMacro(m: Mouse, button: Byte) returns (r: Result<Macro>)
    requires m.Valid()
    modifies m`store
    ensures m.Valid() && m.store.macros == old(m.store.macros)
    ensures r.Ok? ==> ButtonOk(button) && r == ReadsAs(m.store.macros[SlotOf(button)])
    ensures m.faults == NoFault && ButtonOk(button) ==> r == ReadsAs(m.store.macros[SlotOf(button)])
  {
    if !ButtonOk(button) { return Err; }
    HeaderAnswer(m.store, button);
    hide Answer, Frame;
    var header := m.Ask(Frame([HEADER, 0, button]));
    if header.None? { return Err; }
    var count: nat := header.value[1];
    if count > MAX_RECORDS { return Err; }
    var cycles, interval := Word16(header.value[3..]), Word16(header.value[9..]);
    var name := AskName(m, button);
    if name.None? { return Err; }
    var records := AskRecords(m, count);
    if records.None? { return Err; }
    return Ok(Macro(cycles, interval, name.value, records.value));
  }
}

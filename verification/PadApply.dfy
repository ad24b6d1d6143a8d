/**
 Applying an edited profile to a controller: macro steps first, then the changed spans, each committed
 and read back, and the profile as it was written back when a step fails.
 */
module PadApply {
  import opened Bytes
  import opened Patch
  import opened PadLayouts
  import opened PadMacros
  import opened PadRules
  import opened PadCodec
  import opened PadProfile
  import opened PadDevice
  import opened PadWrite

  // ---- Reading the profile

  /** Reads the macro a header describes, if it describes one. */
  method ReadMacro(c: Controller, l: Layout, platform: Byte, slot: nat, header: seq<Byte>, j: nat) returns (r: Result<Macro>)
    requires c.Valid() && slot < PAD_SLOTS && |header| == HEADER && j < MACROS
    ensures r.Ok? ==> r.value == DecodeMacro(l, platform, header, j, c.macros[slot])
    ensures c.fault.NoFault? ==> r.Ok?
  {
    hide StepsDecoded, Names.DecodeName, CanTrigger, CountIn, TriggerIn, Word32, Word16;
    if !Describes(l, header) { return Ok(NO_MACRO); }
    var data := ReadMacroData(c, slot, j * REGION, CountIn(header) * STEP_BYTES);
    if data.Err? { return Err; }
    var steps := DecodeSteps(data.value, Analog(l, platform));
    return Ok(Macro(Names.DecodeName(header[..Names.NAME_BYTES]), TriggerIn(l, header), steps, Word32(header[44..]), Word32(header[48..])));
  }

  /** Reads one slot's macros: the headers are in its section, the steps in its storage. */
  method ReadSlotMacros(c: Controller, l: Layout, platform: Byte, slot: nat, section: seq<Byte>) returns (r: Result<seq<Macro>>)
    requires c.Valid() && slot < PAD_SLOTS && |section| == SECTION
    ensures r.Ok? ==> r.value == DecodeSection(l, platform, section, c.macros[slot])
    ensures c.fault.NoFault? ==> r.Ok?
  {
    hide DecodeMacro, HeaderIn, Word32;
    if Word32(section) != IN_USE { return Ok([NO_MACRO, NO_MACRO, NO_MACRO, NO_MACRO]); }
    var macros: seq<Macro> := [];
    for j := 0 to MACROS
      invariant |macros| == j
      invariant forall k :: 0 <= k < j ==> macros[k] == DecodeMacro(l, platform, HeaderIn(section, k), k, c.macros[slot])
    {
      var m := ReadMacro(c, l, platform, slot, HeaderIn(section, j), j);
      if m.Err? { return Err; }
      macros := macros + [m.value];
    }
    return Ok(macros);
  }

  method ReadMacros(c: Controller, l: Layout, record: seq<Byte>) returns (r: Result<seq<seq<Macro>>>)
    requires c.Valid() && KnownLayout(l) && |record| == l.size
    ensures r.Ok? ==> r.value == AllMacros(l, record, c.macros)
    ensures c.fault.NoFault? ==> r.Ok?
  {
    ghost var all := AllMacros(l, record, c.macros);
    assert l.slots <= PAD_SLOTS;
    hide AllMacros, DecodeSection, MacroSection, PlatformOf, KnownLayout;
    var macros: seq<seq<Macro>> := [];
    for slot := 0 to l.slots
      invariant macros == all[..slot]
    {
      var slotMacros := ReadSlotMacros(c, l, PlatformOf(l, record), slot, MacroSection(l, record, slot));
      if slotMacros.Err? { return Err; }
      MacrosAre(l, record, c.macros, slot);
      macros := macros + [slotMacros.value];
    }
    return Ok(macros);
  }

  lemma MacrosAre(l: Layout, rec: seq<Byte>, areas: seq<seq<Byte>>, slot: nat)
    requires KnownLayout(l) && |rec| == l.size && slot < l.slots && Areas(areas)
    ensures AllMacros(l, rec, areas)[slot] == DecodeSection(l, PlatformOf(l, rec), MacroSection(l, rec, slot), areas[slot])
  {
  }

  method ReadEffect(c: Controller) returns (r: Result<Byte>)
    ensures r.Ok? ==> r.value == ShownEffect(c.light)
    ensures c.fault.NoFault? ==> r.Ok?
  {
    var light := c.GetLight();
    return if light.None? then Err else Ok(ShownEffect(light.value));
  }

  /**
   Reads the record and what it shows. The model that is not asked its platform is refused when its
   record is another platform's.
   */
  method ReadProfile(c: Controller, l: Layout, platform: Byte) returns (r: Result<(seq<Byte>, Profile)>)
    requires c.Valid() && KnownLayout(l) && |c.stored| == l.size
    ensures r.Ok? ==> r.value == (c.stored, ProfileOf(l, c.stored, c.macros, c.light))
    ensures r.Ok? && l.ultimateBT ==> PlatformOf(l, c.stored) == Word16(c.stored[l.Platform()..]) == platform
    ensures c.fault.NoFault? && (l.ultimateBT ==> Word16(c.stored[l.Platform()..]) == platform) ==> r.Ok?
  {
    var got := ReadRecord(c, l.size);
    if got.Err? { return Err; }
    var record := got.value;
    assert record == c.stored;
    if l.ultimateBT && Word16(record[l.Platform()..]) != platform { return Err; }
    hide DecodeSlot, AllMacros, KnownLayout, PlatformOf, Controller.Valid;
    var effect := 0;
    if l.HasLights() {
      var light := ReadEffect(c);
      if light.Err? { return Err; }
      effect := light.value;
    }
    var macros := ReadMacros(c, l, record);
    if macros.Err? { return Err; }
    var profile := Profile(PlatformOf(l, record), seq(l.slots, i requires 0 <= i < l.slots => DecodeSlot(l, record, i)), macros.value, effect);
    assert profile.slots == ProfileOf(l, c.stored, c.macros, c.light).slots;
    return Ok((record, profile));
  }

  /** Selects the light effect and reads it back. */
  method SetEffect(c: Controller, effect: Byte) returns (ok: bool)
    requires c.Valid()
    modifies c
    ensures c.failures <= old(c.failures) + 1 && (ok ==> c.failures == old(c.failures))
    ensures c.Valid() && c.stored == old(c.stored) && c.staged == old(c.staged) && c.macros == old(c.macros) && c.pending == old(c.pending)
    ensures c.log == old(c.log) && (ok ==> ShownEffect(c.light) == effect)
    ensures effect < 2 || effect > 5 ==> !ok && c.light == old(c.light)
    ensures c.fault.NoFault? ==> (ok <==> 2 <= effect <= LIGHTS_OFF)
  {
    if effect < 2 || effect > LIGHTS_OFF { return false; }
    ok := c.SetLight(effect);
    if !ok { return; }
    var got := ReadEffect(c);
    return got == Ok(effect);
  }

  // ---- What a failed write leaves

  /** The regions of macros whose steps are the same in both profiles hold what they held. */
  ghost predicate Untouched(e: seq<Macro>, w: seq<Macro>, a: seq<Byte>, b: seq<Byte>)
    requires |e| == |w| == MACROS && |a| == |b| == AREA
  {
    forall j :: 0 <= j < MACROS && e[j].steps == w[j].steps ==> Region(a, j) == Region(b, j)
  }

  ghost predicate MacrosShaped(l: Layout, macros: seq<seq<Macro>>) {
    l.slots <= PAD_SLOTS && |macros| == l.slots && forall s :: 0 <= s < l.slots ==> |macros[s]| == MACROS
  }

  ghost predicate RegionsKept(l: Layout, e: seq<seq<Macro>>, w: seq<seq<Macro>>, areas0: seq<seq<Byte>>, areas: seq<seq<Byte>>)
    requires MacrosShaped(l, e) && MacrosShaped(l, w) && Areas(areas0) && Areas(areas)
  {
    forall s :: 0 <= s < l.slots ==> Untouched(e[s], w[s], areas0[s], areas[s])
  }

  /** Stored and pending macro storage both keep every region no edit is about. */
  ghost predicate Kept(c: Controller, l: Layout, e: seq<seq<Macro>>, w: seq<seq<Macro>>, areas0: seq<seq<Byte>>)
    requires MacrosShaped(l, e) && MacrosShaped(l, w) && Areas(areas0) && c.Valid()
    reads c
  {
    RegionsKept(l, e, w, areas0, c.macros) && RegionsKept(l, e, w, areas0, Promoted(c.macros, c.pending))
  }

  lemma SameRestUntouched(e: seq<Macro>, w: seq<Macro>, a: seq<Byte>, b: seq<Byte>, c: seq<Byte>)
    requires |e| == |w| == MACROS && |a| == |b| == |c| == AREA
    requires Untouched(e, w, a, b) && (SameRest(e, w, b, c) || SameRest(w, e, b, c))
    ensures Untouched(e, w, a, c)
  {
    hide Region;
  }

  lemma PromotedNothing(macros: seq<seq<Byte>>)
    requires Areas(macros)
    ensures Promoted(macros, map[]) == macros
  {
  }

  /** One slot's rewrite, in either direction, keeps what no edit is about. */
  lemma KeepStep(c: Controller, l: Layout, e: seq<seq<Macro>>, w: seq<seq<Macro>>, areas0: seq<seq<Byte>>, slot: nat,
    macros0: seq<seq<Byte>>, pending0: map<nat, seq<Byte>>)
    requires c.Valid() && MacrosShaped(l, e) && MacrosShaped(l, w) && Areas(areas0) && Areas(macros0) && PendingOk(pending0) && slot < l.slots
    requires RegionsKept(l, e, w, areas0, macros0) && RegionsKept(l, e, w, areas0, Promoted(macros0, pending0))
    requires OthersKept(c, slot, macros0, pending0)
    requires || SameRest(e[slot], w[slot], Promoted(macros0, pending0)[slot], Promoted(c.macros, c.pending)[slot])
             || SameRest(w[slot], e[slot], Promoted(macros0, pending0)[slot], Promoted(c.macros, c.pending)[slot])
    requires || SameRest(e[slot], w[slot], macros0[slot], c.macros[slot])
             || SameRest(w[slot], e[slot], macros0[slot], c.macros[slot])
             || SameRest(e[slot], w[slot], Promoted(macros0, pending0)[slot], c.macros[slot])
             || SameRest(w[slot], e[slot], Promoted(macros0, pending0)[slot], c.macros[slot])
    ensures Kept(c, l, e, w, areas0)
  {
    hide Untouched, SameRest, Promoted;
    var p0 := Promoted(macros0, pending0);
    if SameRest(e[slot], w[slot], macros0[slot], c.macros[slot]) || SameRest(w[slot], e[slot], macros0[slot], c.macros[slot]) {
      SameRestUntouched(e[slot], w[slot], areas0[slot], macros0[slot], c.macros[slot]);
    } else {
      SameRestUntouched(e[slot], w[slot], areas0[slot], p0[slot], c.macros[slot]);
    }
    SameRestUntouched(e[slot], w[slot], areas0[slot], p0[slot], Promoted(c.macros, c.pending)[slot]);
  }

  // ---- Writing the edit

  /** Every slot's changed macros are in its storage, for the first n slots. */
  ghost predicate StepsThere(l: Layout, platform: Byte, now: seq<seq<Macro>>, was: seq<seq<Macro>>, areas: seq<seq<Byte>>, n: nat)
    requires MacrosShaped(l, now) && MacrosShaped(l, was) && Areas(areas) && n <= l.slots && AllMacrosFit(l, now)
  {
    forall s :: 0 <= s < n ==> HoldsChanging(l, platform, areas[s], now[s], was[s])
  }

  ghost predicate AllMacrosFit(l: Layout, macros: seq<seq<Macro>>)
    requires MacrosShaped(l, macros)
  {
    forall s :: 0 <= s < l.slots ==> MacrosFit(macros[s])
  }

  /** Fault-free flash can take every slot's changed macros. */
  ghost predicate AllFlashTakes(l: Layout, platform: Byte, areas: seq<seq<Byte>>, now: seq<seq<Macro>>, was: seq<seq<Macro>>, n: nat)
    requires MacrosShaped(l, now) && MacrosShaped(l, was) && Areas(areas) && n <= l.slots && AllMacrosFit(l, now)
  {
    forall s :: 0 <= s < n ==> FlashTakes(l, platform, areas[s], now[s], was[s])
  }

  lemma NothingChanging(l: Layout, platform: Byte, macros: seq<Macro>, area: seq<Byte>)
    requires MacrosFit(macros) && |area| == AREA
    ensures HoldsChanging(l, platform, area, macros, macros) && FlashTakes(l, platform, area, macros, macros)
  {
  }

  /** Both what is stored and what is pending hold the first n slots' macros. */
  ghost predicate BothThere(c: Controller, l: Layout, platform: Byte, now: seq<seq<Macro>>, was: seq<seq<Macro>>, n: nat)
    requires MacrosShaped(l, now) && MacrosShaped(l, was) && n <= l.slots && AllMacrosFit(l, now) && c.Valid()
    reads c
  {
    StepsThere(l, platform, now, was, c.macros, n) && StepsThere(l, platform, now, was, Promoted(c.macros, c.pending), n)
  }

  lemma BothThereNext(c: Controller, l: Layout, platform: Byte, now: seq<seq<Macro>>, was: seq<seq<Macro>>, slot: nat,
    macros0: seq<seq<Byte>>, pending0: map<nat, seq<Byte>>)
    requires MacrosShaped(l, now) && MacrosShaped(l, was) && slot < l.slots && AllMacrosFit(l, now) && c.Valid()
    requires Areas(macros0) && PendingOk(pending0) && OthersKept(c, slot, macros0, pending0)
    requires StepsThere(l, platform, now, was, macros0, slot) && StepsThere(l, platform, now, was, Promoted(macros0, pending0), slot)
    requires HoldsChanging(l, platform, c.macros[slot], now[slot], was[slot])
    requires HoldsChanging(l, platform, Promoted(c.macros, c.pending)[slot], now[slot], was[slot])
    ensures BothThere(c, l, platform, now, was, slot + 1)
  {
    hide HoldsChanging, Promoted;
  }

  /**
   What fault-free flash with nothing pending holds once the first n slots' macros are rewritten, as far
   as that went: it stops after the first slot whose flash does not take them.
   */
  ghost function Written(l: Layout, platform: Byte, areas: seq<seq<Byte>>, now: seq<seq<Macro>>, was: seq<seq<Macro>>, n: nat)
    : (r: seq<seq<Byte>>)
    requires MacrosShaped(l, now) && MacrosShaped(l, was) && Areas(areas) && n <= l.slots && AllMacrosFit(l, now)
    ensures Areas(r) && forall s :: n <= s < PAD_SLOTS ==> r[s] == areas[s]
  {
    if n == 0 then areas
    else
      var r := Written(l, platform, areas, now, was, n - 1);
      if AllFlashTakes(l, platform, areas, now, was, n - 1)
      then r[n - 1 := Flashed(l, platform, areas[n - 1], now[n - 1], was[n - 1])]
      else r
  }

  lemma {:induction false} WrittenStops(l: Layout, platform: Byte, areas: seq<seq<Byte>>, now: seq<seq<Macro>>, was: seq<seq<Macro>>,
    n: nat, m: nat)
    requires MacrosShaped(l, now) && MacrosShaped(l, was) && Areas(areas) && n <= m <= l.slots && AllMacrosFit(l, now)
    requires !AllFlashTakes(l, platform, areas, now, was, n)
    ensures Written(l, platform, areas, now, was, m) == Written(l, platform, areas, now, was, n)
    ensures !AllFlashTakes(l, platform, areas, now, was, m)
  {
    hide FlashTakes, Flashed;
    if n < m {
      WrittenStops(l, platform, areas, now, was, n, m - 1);
    }
  }

  /** One more slot of what fault-free flash holds, and of what it takes. */
  lemma WrittenNext(l: Layout, platform: Byte, areas: seq<seq<Byte>>, now: seq<seq<Macro>>, was: seq<seq<Macro>>, n: nat)
    requires MacrosShaped(l, now) && MacrosShaped(l, was) && Areas(areas) && n < l.slots && AllMacrosFit(l, now)
    requires AllFlashTakes(l, platform, areas, now, was, n)
    ensures Written(l, platform, areas, now, was, n)[n] == areas[n]
    ensures MacrosFit(now[n])
    ensures Written(l, platform, areas, now, was, n + 1)
         == Written(l, platform, areas, now, was, n)[n := Flashed(l, platform, areas[n], now[n], was[n])]
    ensures AllFlashTakes(l, platform, areas, now, was, n + 1) <==> FlashTakes(l, platform, areas[n], now[n], was[n])
  {
    hide FlashTakes, Flashed;
  }

  lemma AnyWrittenNext(l: Layout, now: seq<seq<Macro>>, was: seq<seq<Macro>>, n: nat)
    requires MacrosShaped(l, now) && MacrosShaped(l, was) && n < l.slots
    ensures AnyWritten(l, now, was, n + 1) <==> AnyWritten(l, now, was, n) || AnyChanging(now[n], was[n], MACROS)
    ensures AnyWritten(l, now, was, n + 1) ==> AnyWritten(l, now, was, l.slots)
  {
    hide AnyChanging;
  }

  /** What stays as it was while only macros are written: what is staged of the record, and every commit's record. */
  ghost predicate OnlyMacros(stored: seq<Byte>, staged: Option<seq<Byte>>, log: seq<Snapshot>,
    stored0: seq<Byte>, staging0: seq<Byte>, log0: seq<Snapshot>)
  {
    && (if staged.Some? then staged.value else stored) == staging0 && (stored == stored0 || stored == staging0)
    && log0 <= log && forall k :: |log0| <= k < |log| ==> log[k].record == staging0
  }

  lemma OnlyMacrosMore(c: Controller, stored0: seq<Byte>, staging0: seq<Byte>, log0: seq<Snapshot>,
    stored1: seq<Byte>, staged1: Option<seq<Byte>>, log1: seq<Snapshot>)
    requires OnlyMacros(stored1, staged1, log1, stored0, staging0, log0) && RecordOnlyCommitted(c, stored1, staged1, log1)
    ensures OnlyMacros(c.stored, c.staged, c.log, stored0, staging0, log0) && (staged1.None? ==> c.staged.None?)
  {
  }

  lemma NotChanging(macros: seq<Macro>)
    requires |macros| == MACROS
    ensures !AnyChanging(macros, macros, MACROS)
  {
  }

  lemma FlashedSame(l: Layout, platform: Byte, area: seq<Byte>, macros: seq<Macro>)
    requires |area| == AREA && MacrosFit(macros)
    ensures Flashed(l, platform, area, macros, macros) == area
  {
    FourRegions(area);
    hide Region;
  }

  /** Rewrites one slot's macros. */
  method WriteSlotMacros(c: Controller, l: Layout, platform: Byte, now: seq<seq<Macro>>, was: seq<seq<Macro>>, slot: nat,
    ghost areas0: seq<seq<Byte>>, ghost clean: bool) returns (ok: bool)
    requires c.Valid() && MacrosShaped(l, now) && MacrosShaped(l, was) && AllMacrosFit(l, now) && slot < l.slots
    requires Areas(areas0) && (clean ==> Kept(c, l, now, was, areas0)) && BothThere(c, l, platform, now, was, slot)
    modifies c
    ensures c.failures <= old(c.failures) + 1 && (ok ==> c.failures == old(c.failures))
    ensures c.Valid() && c.light == old(c.light) && (clean ==> Kept(c, l, now, was, areas0))
    ensures ok ==> BothThere(c, l, platform, now, was, slot + 1)
    ensures Areas(old(c.macros)) && SlotWrote(c, l, platform, now, was, slot, old(Begin(c)), ok)
    ensures slot < |now| && slot < |was| && now[slot] == was[slot] ==> ok && c.log == old(c.log)
  {
    ghost var b := Begin(c);
    ValidAreas(c);
    MacrosFitAt(l, now, slot);
    if now[slot] == was[slot] {
      SameSlotThere(c, l, platform, now, was, slot);
      return true;
    }
    hide SameRest, HoldsChanging, FlashTakes, FlashedTo, Kept, Changing, AnyChanging, AllMacrosFit, MacrosFit, Flashed, Promoted, OthersKept;
    hide BothThere, RecordOnlyCommitted;
    PendingOf(c, slot);
    ok := WriteMacroSteps(c, l, platform, slot, now[slot], was[slot]);
    PendingOf(c, slot);
    if clean {
      KeepStep(c, l, now, was, areas0, slot, b.macros, b.pending);
    }
    if ok {
      BothThereNext(c, l, platform, now, was, slot, b.macros, b.pending);
    }
    if c.fault.NoFault? && b.pending == map[] {
      FlashedSlot(c, l, platform, now[slot], was[slot], slot, b.macros);
    }
  }

  /** A slot whose macros are as they were has nothing to write. */
  lemma SameSlotThere(c: Controller, l: Layout, platform: Byte, now: seq<seq<Macro>>, was: seq<seq<Macro>>, slot: nat)
    requires c.Valid() && MacrosShaped(l, now) && MacrosShaped(l, was) && AllMacrosFit(l, now) && slot < l.slots && now[slot] == was[slot]
    requires BothThere(c, l, platform, now, was, slot)
    ensures BothThere(c, l, platform, now, was, slot + 1) && Areas(c.macros) && SlotWrote(c, l, platform, now, was, slot, Begin(c), true)
  {
    ValidAreas(c);
    MacrosFitAt(l, now, slot);
    NotChanging(now[slot]);
    NothingChanging(l, platform, now[slot], c.macros[slot]);
    NothingChanging(l, platform, now[slot], Promoted(c.macros, c.pending)[slot]);
    FlashedSame(l, platform, c.macros[slot], now[slot]);
    hide HoldsChanging, FlashTakes, AnyChanging, Flashed, Promoted, AllMacrosFit, MacrosFit;
  }

  lemma PendingOf(c: Controller, slot: nat)
    requires c.Valid() && slot < PAD_SLOTS
    ensures Areas(c.macros) && PendingOk(c.pending) && c.MacroStaging(slot) == Promoted(c.macros, c.pending)[slot]
  {
  }

  /** With no faults and nothing pending before, a slot's rewrite leaves its flash as worked out and the others alone. */
  lemma FlashedSlot(c: Controller, l: Layout, platform: Byte, now: seq<Macro>, was: seq<Macro>, slot: nat, macros0: seq<seq<Byte>>)
    requires c.Valid() && Areas(macros0) && slot < PAD_SLOTS && MacrosFit(now) && |was| == MACROS
    requires OthersKept(c, slot, macros0, map[]) && FlashedTo(l, platform, was, now, macros0[slot], c.macros[slot], MACROS)
    ensures c.macros == macros0[slot := Flashed(l, platform, macros0[slot], now, was)]
  {
    PromotedNothing(macros0);
    FlashedIs(l, platform, was, now, macros0[slot], c.macros[slot]);
    hide Flashed, FlashedTo, MacrosFit, Promoted;
  }

  /** One of the first n slots has a macro to be written. */
  ghost predicate AnyWritten(l: Layout, now: seq<seq<Macro>>, was: seq<seq<Macro>>, n: nat)
    requires MacrosShaped(l, now) && MacrosShaped(l, was) && n <= l.slots
  {
    exists s :: 0 <= s < n && AnyChanging(now[s], was[s], MACROS)
  }

  /** A controller's stores when a write of macros begins. */
  datatype Begun = Begun(stored: seq<Byte>, staged: Option<seq<Byte>>, macros: seq<seq<Byte>>, pending: map<nat, seq<Byte>>, log: seq<Snapshot>)
  {
    function Staging(): seq<Byte> { if staged.Some? then staged.value else stored }
  }

  ghost function Begin(c: Controller): Begun
    reads c
  {
    Begun(c.stored, c.staged, c.macros, c.pending, c.log)
  }

  /** What a write of macros leaves however far it goes. */
  ghost predicate Went(c: Controller, l: Layout, platform: Byte, now: seq<seq<Macro>>, was: seq<seq<Macro>>, n: nat,
    areas0: seq<seq<Byte>>, clean: bool, from: Begun)
    requires c.Valid() && MacrosShaped(l, now) && MacrosShaped(l, was) && AllMacrosFit(l, now) && n <= l.slots
    requires Areas(areas0) && Areas(from.macros)
    reads c
  {
    && (clean ==> Kept(c, l, now, was, areas0))
    && OnlyMacros(c.stored, c.staged, c.log, from.stored, from.Staging(), from.log) && (from.staged.None? ==> c.staged.None?)
    && (!AnyWritten(l, now, was, n) ==> c.pending == from.pending)
    && (c.fault.NoFault? && from.pending == map[] ==> c.pending == map[] && c.macros == Written(l, platform, from.macros, now, was, n))
  }

  /** What it leaves once the first n slots are written. */
  ghost predicate WroteTo(c: Controller, l: Layout, platform: Byte, now: seq<seq<Macro>>, was: seq<seq<Macro>>, n: nat,
    areas0: seq<seq<Byte>>, clean: bool, from: Begun)
    requires c.Valid() && MacrosShaped(l, now) && MacrosShaped(l, was) && AllMacrosFit(l, now) && n <= l.slots
    requires Areas(areas0) && Areas(from.macros)
    reads c
  {
    && Went(c, l, platform, now, was, n, areas0, clean, from) && BothThere(c, l, platform, now, was, n)
    && (from.pending == map[] || AnyWritten(l, now, was, n) ==> c.pending == map[])
    && (c.fault.NoFault? && from.pending == map[] ==> AllFlashTakes(l, platform, from.macros, now, was, n))
  }

  /** What a write of macros has left of everything but the macros of later slots, as values. */
  ghost predicate WroteSoFar(b: Begun, l: Layout, platform: Byte, now: seq<seq<Macro>>, was: seq<seq<Macro>>, n: nat, from: Begun, faultless: bool)
    requires MacrosShaped(l, now) && MacrosShaped(l, was) && AllMacrosFit(l, now) && n <= l.slots && Areas(from.macros)
  {
    && OnlyMacros(b.stored, b.staged, b.log, from.stored, from.Staging(), from.log) && (from.staged.None? ==> b.staged.None?)
    && (!AnyWritten(l, now, was, n) ==> b.pending == from.pending)
    && (from.pending == map[] || AnyWritten(l, now, was, n) ==> b.pending == map[])
    && (faultless && from.pending == map[] ==>
          b.macros == Written(l, platform, from.macros, now, was, n) && AllFlashTakes(l, platform, from.macros, now, was, n))
  }

  lemma WroteSoFarIs(c: Controller, l: Layout, platform: Byte, now: seq<seq<Macro>>, was: seq<seq<Macro>>, n: nat,
    areas0: seq<seq<Byte>>, clean: bool, from: Begun)
    requires c.Valid() && MacrosShaped(l, now) && MacrosShaped(l, was) && AllMacrosFit(l, now) && n <= l.slots
    requires Areas(areas0) && Areas(from.macros)
    ensures WroteTo(c, l, platform, now, was, n, areas0, clean, from) <==>
            && (clean ==> Kept(c, l, now, was, areas0)) && BothThere(c, l, platform, now, was, n)
            && WroteSoFar(Begin(c), l, platform, now, was, n, from, c.fault.NoFault?)
  {
    hide Kept, BothThere, OnlyMacros, AnyWritten, Written, AllFlashTakes, MacrosShaped, AllMacrosFit;
  }

  /** What rewriting one slot leaves of the record, of what is pending and, without faults, of its macros. */
  ghost predicate SlotWrote(c: Controller, l: Layout, platform: Byte, now: seq<seq<Macro>>, was: seq<seq<Macro>>, slot: nat, b: Begun, ok: bool)
    requires MacrosShaped(l, now) && MacrosShaped(l, was) && AllMacrosFit(l, now) && slot < l.slots && Areas(b.macros)
    reads c
  {
    && RecordOnlyCommitted(c, b.stored, b.staged, b.log)
    && (AnyChanging(now[slot], was[slot], MACROS) && (ok || c.fault.NoFault?) ==> c.pending == map[])
    && (!AnyChanging(now[slot], was[slot], MACROS) ==> c.pending == b.pending)
    && (c.fault.NoFault? && b.pending == map[] ==>
          && (ok <==> FlashTakes(l, platform, b.macros[slot], now[slot], was[slot]))
          && c.macros == b.macros[slot := Flashed(l, platform, b.macros[slot], now[slot], was[slot])])
  }

  lemma WroteNext(c: Controller, l: Layout, platform: Byte, now: seq<seq<Macro>>, was: seq<seq<Macro>>, slot: nat, b: Begun, from: Begun, ok: bool)
    requires MacrosShaped(l, now) && MacrosShaped(l, was) && AllMacrosFit(l, now) && slot < l.slots && Areas(from.macros) && Areas(b.macros)
    requires WroteSoFar(b, l, platform, now, was, slot, from, c.fault.NoFault?) && SlotWrote(c, l, platform, now, was, slot, b, ok)
    ensures ok ==> WroteSoFar(Begin(c), l, platform, now, was, slot + 1, from, c.fault.NoFault?)
    ensures OnlyMacros(c.stored, c.staged, c.log, from.stored, from.Staging(), from.log) && (from.staged.None? ==> c.staged.None?)
    ensures !AnyWritten(l, now, was, l.slots) ==> c.pending == from.pending
    ensures c.fault.NoFault? && from.pending == map[] && !ok ==>
              && c.pending == map[] && c.macros == Written(l, platform, from.macros, now, was, l.slots)
              && !AllFlashTakes(l, platform, from.macros, now, was, l.slots)
  {
    hide MacrosShaped, AllMacrosFit, FlashTakes, Flashed, AnyChanging, RecordOnlyCommitted, OnlyMacros, AnyWritten, Written, AllFlashTakes, Areas;
    AnyWrittenNext(l, now, was, slot);
    OnlyMacrosMore(c, from.stored, from.Staging(), from.log, b.stored, b.staged, b.log);
    MacrosFitAt(l, now, slot);
    if c.fault.NoFault? && from.pending == map[] {
      FlashNext(l, platform, now, was, slot, from.macros, b.macros, c.macros, ok);
    }
  }

  lemma FlashNext(l: Layout, platform: Byte, now: seq<seq<Macro>>, was: seq<seq<Macro>>, slot: nat,
    areas: seq<seq<Byte>>, before: seq<seq<Byte>>, after: seq<seq<Byte>>, ok: bool)
    requires MacrosShaped(l, now) && MacrosShaped(l, was) && AllMacrosFit(l, now) && slot < l.slots && Areas(areas) && Areas(before)
    requires before == Written(l, platform, areas, now, was, slot) && AllFlashTakes(l, platform, areas, now, was, slot)
    requires MacrosFit(now[slot]) && (ok <==> FlashTakes(l, platform, before[slot], now[slot], was[slot]))
    requires after == before[slot := Flashed(l, platform, before[slot], now[slot], was[slot])]
    ensures after == Written(l, platform, areas, now, was, slot + 1)
    ensures ok <==> AllFlashTakes(l, platform, areas, now, was, slot + 1)
    ensures !ok ==> after == Written(l, platform, areas, now, was, l.slots) && !AllFlashTakes(l, platform, areas, now, was, l.slots)
  {
    hide FlashTakes, Flashed, Written, AllFlashTakes;
    WrittenNext(l, platform, areas, now, was, slot);
    if !ok { WrittenStops(l, platform, areas, now, was, slot + 1, l.slots); }
  }

  /** Rewrites one more slot's macros. */
  method WriteNextSlot(c: Controller, l: Layout, platform: Byte, now: seq<seq<Macro>>, was: seq<seq<Macro>>, slot: nat,
    ghost areas0: seq<seq<Byte>>, ghost clean: bool, ghost from: Begun) returns (ok: bool)
    requires c.Valid() && MacrosShaped(l, now) && MacrosShaped(l, was) && AllMacrosFit(l, now) && slot < l.slots
    requires Areas(areas0) && Areas(from.macros) && WroteTo(c, l, platform, now, was, slot, areas0, clean, from)
    modifies c
    ensures c.failures <= old(c.failures) + 1 && (ok ==> c.failures == old(c.failures))
    ensures c.Valid() && c.light == old(c.light)
    ensures ok ==> WroteTo(c, l, platform, now, was, slot + 1, areas0, clean, from)
    ensures !ok ==> Went(c, l, platform, now, was, l.slots, areas0, clean, from)
    ensures !ok && c.fault.NoFault? && from.pending == map[] ==> !AllFlashTakes(l, platform, from.macros, now, was, l.slots)
    ensures now == was ==> ok && c.log == old(c.log)
  {
    ghost var b := Begin(c);
    ValidAreas(c);
    WroteSoFarIs(c, l, platform, now, was, slot, areas0, clean, from);
    hide Controller.Valid, AllMacrosFit, MacrosShaped, Kept, WroteTo, WroteSoFar, BothThere, SlotWrote, OnlyMacros, AnyWritten, Written, AllFlashTakes;
    ok := WriteSlotMacros(c, l, platform, now, was, slot, areas0, clean);
    WroteNext(c, l, platform, now, was, slot, b, from, ok);
    if ok { WroteSoFarIs(c, l, platform, now, was, slot + 1, areas0, clean, from); }
  }

  /** Rewrites the macros of every slot that changed, slot by slot, until one fails. */
  method WriteMacros(c: Controller, l: Layout, platform: Byte, now: seq<seq<Macro>>, was: seq<seq<Macro>>,
    ghost areas0: seq<seq<Byte>>, ghost clean: bool) returns (ok: bool)
    requires c.Valid() && MacrosShaped(l, now) && MacrosShaped(l, was) && AllMacrosFit(l, now)
    requires Areas(areas0) && (clean ==> Kept(c, l, now, was, areas0))
    modifies c
    ensures c.failures <= old(c.failures) + 1 && (ok ==> c.failures == old(c.failures))
    ensures c.Valid() && c.light == old(c.light) && Areas(old(c.macros))
    ensures Went(c, l, platform, now, was, l.slots, areas0, clean, old(Begin(c)))
    ensures ok ==> WroteTo(c, l, platform, now, was, l.slots, areas0, clean, old(Begin(c)))
    ensures c.fault.NoFault? && old(c.pending) == map[] ==> (ok <==> AllFlashTakes(l, platform, old(c.macros), now, was, l.slots))
    ensures now == was ==> ok && c.log == old(c.log)
  {
    ghost var from := Begin(c);
    ValidAreas(c);
    BeginsThere(c, l, platform, now, was, areas0, clean);
    hide Controller.Valid, AllMacrosFit, MacrosShaped, Went, WroteTo, AllFlashTakes;
    for slot := 0 to l.slots
      invariant c.failures == old(c.failures) && (now == was ==> c.log == old(c.log))
      invariant c.Valid() && c.light == old(c.light) && WroteTo(c, l, platform, now, was, slot, areas0, clean, from)
    {
      ok := WriteNextSlot(c, l, platform, now, was, slot, areas0, clean, from);
      if !ok { return; }
    }
    WentAll(c, l, platform, now, was, areas0, clean, from);
    return true;
  }

  lemma BeginsThere(c: Controller, l: Layout, platform: Byte, now: seq<seq<Macro>>, was: seq<seq<Macro>>, areas0: seq<seq<Byte>>, clean: bool)
    requires c.Valid() && MacrosShaped(l, now) && MacrosShaped(l, was) && AllMacrosFit(l, now)
    requires Areas(areas0) && (clean ==> Kept(c, l, now, was, areas0))
    ensures Areas(c.macros) && WroteTo(c, l, platform, now, was, 0, areas0, clean, Begin(c))
  {
    ValidAreas(c);
    hide AllMacrosFit, MacrosShaped, Kept, Promoted, HoldsChanging, FlashTakes;
  }

  lemma WentAll(c: Controller, l: Layout, platform: Byte, now: seq<seq<Macro>>, was: seq<seq<Macro>>,
    areas0: seq<seq<Byte>>, clean: bool, from: Begun)
    requires c.Valid() && MacrosShaped(l, now) && MacrosShaped(l, was) && AllMacrosFit(l, now)
    requires Areas(areas0) && Areas(from.macros) && WroteTo(c, l, platform, now, was, l.slots, areas0, clean, from)
    ensures Went(c, l, platform, now, was, l.slots, areas0, clean, from)
    ensures c.fault.NoFault? && from.pending == map[] ==> AllFlashTakes(l, platform, from.macros, now, was, l.slots)
  {
    hide Went, BothThere, AllFlashTakes, AnyWritten;
  }

  lemma ValidAreas(c: Controller)
    requires c.Valid()
    ensures Areas(c.macros)
  {
  }

  lemma SameFrame(a: seq<Byte>, b: seq<Byte>, c: seq<Byte>, spans: seq<Span>)
    requires Agrees(a, b, spans) && Agrees(a, c, spans)
    ensures Agrees(b, a, spans) && Agrees(b, c, spans)
    ensures spans == [] ==> a == b == c
  {
  }

  /** Every commit since from, if it changed the record, found all the changed macros in storage. */
  ghost predicate HeadersLast(l: Layout, platform: Byte, now: seq<seq<Macro>>, was: seq<seq<Macro>>, rec0: seq<Byte>,
    log: seq<Snapshot>, from: nat)
    requires MacrosShaped(l, now) && MacrosShaped(l, was) && AllMacrosFit(l, now)
  {
    forall k :: from <= k < |log| ==>
      log[k].record == rec0 || (Areas(log[k].macros) && StepsThere(l, platform, now, was, log[k].macros, l.slots))
  }

  /** The next commit of the record changes nothing, or finds all the changed macros in storage. */
  ghost predicate Ordered(c: Controller, l: Layout, platform: Byte, now: seq<seq<Macro>>, was: seq<seq<Macro>>, rec0: seq<Byte>)
    requires MacrosShaped(l, now) && MacrosShaped(l, was) && AllMacrosFit(l, now) && c.Valid()
    reads c
  {
    || (c.stored == rec0 && c.Staging() == rec0)
    || (StepsThere(l, platform, now, was, c.macros, l.slots) && c.pending == map[])
  }

  /** A write of the record's spans, when nothing is pending for macros, keeps headers last. */
  lemma CommitOrdered(c: Controller, l: Layout, platform: Byte, now: seq<seq<Macro>>, was: seq<seq<Macro>>, rec0: seq<Byte>,
    macros0: seq<seq<Byte>>, log0: seq<Snapshot>, log1: seq<Snapshot>)
    requires MacrosShaped(l, now) && MacrosShaped(l, was) && AllMacrosFit(l, now) && c.Valid()
    requires Areas(macros0) && StepsThere(l, platform, now, was, macros0, l.slots)
    requires log0 <= log1 && HeadersLast(l, platform, now, was, rec0, log1, |log0|)
    requires OnlyCommitted(c.macros, c.pending, c.log, macros0, map[], log1, c.stored)
    ensures c.macros == macros0 && c.pending == map[] && Ordered(c, l, platform, now, was, rec0)
    ensures log0 <= c.log && HeadersLast(l, platform, now, was, rec0, c.log, |log0|)
  {
    hide StepsThere, AllMacrosFit, MacrosShaped;
    PromotedNothing(macros0);
  }

  /** Commits of macros alone keep headers last: their record is the one there was. */
  lemma MacrosOrdered(c: Controller, l: Layout, platform: Byte, now: seq<seq<Macro>>, was: seq<seq<Macro>>, rec0: seq<Byte>,
    log0: seq<Snapshot>, log1: seq<Snapshot>)
    requires MacrosShaped(l, now) && MacrosShaped(l, was) && AllMacrosFit(l, now)
    requires log0 <= log1 && HeadersLast(l, platform, now, was, rec0, log1, |log0|) && OnlyMacros(c.stored, c.staged, c.log, rec0, rec0, log1)
    ensures log0 <= c.log && HeadersLast(l, platform, now, was, rec0, c.log, |log0|)
  {
    hide StepsThere, AllMacrosFit, MacrosShaped;
  }

  /** Whether an effect is one a controller can be given, when it is to be given one. */
  predicate EffectTakes(effect: Byte, was: Byte) { effect == was || 2 <= effect <= LIGHTS_OFF }

  /** What a controller holds once an edit was written as far as it went, if nothing was staged before. */
  ghost predicate EditLeft(c: Controller, l: Layout, platform: Byte, e: seq<seq<Macro>>, w: seq<seq<Macro>>,
    rec0: seq<Byte>, spans: seq<Span>, areas0: seq<seq<Byte>>)
    requires MacrosShaped(l, e) && MacrosShaped(l, w) && AllMacrosFit(l, e) && Areas(areas0) && c.Valid()
    reads c
  {
    && Kept(c, l, e, w, areas0) && Ordered(c, l, platform, e, w, rec0)
    && (WholeChecked(l, c.fault) ==> Agrees(rec0, c.stored, spans) && Agrees(rec0, c.Staging(), spans))
    && (spans == [] ==> c.staged.None? && (!AnyWritten(l, e, w, l.slots) ==> c.pending == map[]))
  }

  lemma NoSpansAgree(record: seq<Byte>, copy: seq<Byte>)
    requires |copy| == |record|
    ensures AgreesOn(record, copy, [], 0)
  {
  }

  lemma KeptAtFirst(c: Controller, l: Layout, e: seq<seq<Macro>>, w: seq<seq<Macro>>)
    requires c.Valid() && c.pending == map[] && MacrosShaped(l, e) && MacrosShaped(l, w)
    ensures Areas(c.macros) && Kept(c, l, e, w, c.macros)
  {
    PromotedNothing(c.macros);
  }

  lemma KeptSwap(c: Controller, l: Layout, e: seq<seq<Macro>>, w: seq<seq<Macro>>, areas0: seq<seq<Byte>>)
    requires MacrosShaped(l, e) && MacrosShaped(l, w) && Areas(areas0) && c.Valid() && Kept(c, l, e, w, areas0)
    ensures Kept(c, l, w, e, areas0)
  {
    hide Region, Promoted;
  }

  /** A commit keeps what is kept. */
  lemma KeptCommitted(c: Controller, l: Layout, e: seq<seq<Macro>>, w: seq<seq<Macro>>, areas0: seq<seq<Byte>>,
    macros0: seq<seq<Byte>>, pending0: map<nat, seq<Byte>>, log0: seq<Snapshot>)
    requires MacrosShaped(l, e) && MacrosShaped(l, w) && Areas(areas0) && c.Valid() && Areas(macros0) && PendingOk(pending0)
    requires RegionsKept(l, e, w, areas0, macros0) && RegionsKept(l, e, w, areas0, Promoted(macros0, pending0))
    requires OnlyCommitted(c.macros, c.pending, c.log, macros0, pending0, log0, c.stored)
    ensures Kept(c, l, e, w, areas0)
  {
    hide RegionsKept, Promoted;
    PromotedNothing(c.macros);
  }

  /** Writes an edit: the steps first, so that no header ever describes steps that are not there. */
  method WriteEdit(c: Controller, l: Layout, platform: Byte, record: seq<Byte>, spans: seq<Span>,
    e: seq<seq<Macro>>, w: seq<seq<Macro>>, effect: Byte, was: Byte) returns (ok: bool)
    requires c.Valid() && MacrosShaped(l, e) && MacrosShaped(l, w) && AllMacrosFit(l, e)
    requires |c.stored| > 0 && SpansFit(|c.stored|, spans) && Agrees(c.stored, record, spans)
    modifies c
    ensures c.failures <= old(c.failures) + 1 && (ok ==> c.failures == old(c.failures))
    ensures c.Valid() && Areas(old(c.macros)) && |c.stored| == |record| && old(c.log) <= c.log
    ensures old(c.Clean()) ==> EditLeft(c, l, platform, e, w, old(c.stored), spans, old(c.macros))
    ensures old(c.Clean()) ==> HeadersLast(l, platform, e, w, old(c.stored), c.log, |old(c.log)|)
    ensures effect == was ==> c.light == old(c.light)
    ensures ok ==> AgreesOn(record, c.stored, spans, |spans|) && StepsThere(l, platform, e, w, c.macros, l.slots)
    ensures ok && old(c.Clean()) ==> c.Clean() && (WholeChecked(l, c.fault) ==> c.stored == record)
    ensures ok && effect != was ==> ShownEffect(c.light) == effect
    ensures c.fault.NoFault? && old(c.Clean()) ==>
              && (ok <==> AllFlashTakes(l, platform, old(c.macros), e, w, l.slots) && EffectTakes(effect, was))
              && c.Clean() && c.macros == Written(l, platform, old(c.macros), e, w, l.slots)
  {
    ghost var rec0, areas0, log0, clean := c.stored, c.macros, c.log, c.Clean();
    SameFrame(rec0, record, rec0, spans);
    ValidAreas(c);
    hide StepsThere, AllFlashTakes, RegionsKept, Promoted, AllMacrosFit, MacrosShaped, AnyWritten, SpansFit, Agrees, AgreesOn, Written;
    if clean { KeptAtFirst(c, l, e, w); }
    hide Kept;
    ok := WriteMacros(c, l, platform, e, w, areas0, clean);
    if clean { MacrosOrdered(c, l, platform, e, w, rec0, log0, log0); }
    NoSpansAgree(record, c.stored);
    if !ok { return; }
    ghost var macros1, log1 := c.macros, c.log;
    PromotedNothing(macros1);
    if |spans| > 0 {
      ok := WriteSpans(c, l, record, spans, clean && WholeChecked(l, c.fault));
      if clean {
        CommitOrdered(c, l, platform, e, w, rec0, macros1, log0, log1);
        if WholeChecked(l, c.fault) {
          SameFrame(record, rec0, c.stored, spans);
          SameFrame(record, rec0, c.Staging(), spans);
        }
      }
      if !ok { return; }
    }
    if effect != was {
      ok := SetEffect(c, effect);
    }
  }

  /** The first commit since from wrote a record's spans over the macros there were. */
  ghost predicate FirstCommit(log: seq<Snapshot>, from: nat, record: seq<Byte>, spans: seq<Span>, macros: seq<seq<Byte>>) {
    from < |log| && log[from].macros == macros && AgreesOn(record, log[from].record, spans, |spans|)
  }

  /** Writes the record's spans back; nothing to do where the edit changed none. */
  method UndoRecord(c: Controller, l: Layout, platform: Byte, before: seq<Byte>, spans: seq<Span>,
    e: seq<seq<Macro>>, w: seq<seq<Macro>>, ghost areas0: seq<seq<Byte>>, ghost clean: bool) returns (ok: bool)
    requires c.Valid() && MacrosShaped(l, e) && MacrosShaped(l, w) && AllMacrosFit(l, e) && Areas(areas0)
    requires |c.stored| == |before| > 0 && SpansFit(|before|, spans)
    requires clean ==> EditLeft(c, l, platform, e, w, before, spans, areas0)
    modifies c
    ensures c.failures <= old(c.failures) + 1 && (ok ==> c.failures == old(c.failures))
    ensures c.Valid() && |c.stored| == |before| && c.light == old(c.light) && old(c.log) <= c.log
    ensures clean ==> Kept(c, l, e, w, areas0)
    ensures ok ==> AgreesOn(before, c.stored, spans, |spans|) && (spans != [] ==> c.Clean())
    ensures ok && spans == [] ==> c.staged == old(c.staged) && c.pending == old(c.pending)
    ensures ok && clean && WholeChecked(l, c.fault) ==> c.stored == before == c.Staging()
    ensures clean && (!c.fault.Garbles? || (ok && WholeChecked(l, c.fault))) ==> HeadersLast(l, platform, e, w, before, c.log, |old(c.log)|)
    ensures ok && spans != [] ==> FirstCommit(c.log, |old(c.log)|, before, spans, old(Promoted(c.macros, c.pending)))
    ensures ok && spans != [] && clean && WholeChecked(l, c.fault) ==> c.log[|old(c.log)|].record == before
    ensures c.fault.NoFault? ==> ok
    ensures old(c.pending) == map[] ==> c.pending == map[] && c.macros == old(c.macros)
  {
    hide StepsThere, RegionsKept, AllMacrosFit, MacrosShaped, Promoted, Agrees, AgreesOn, SpansFit, AnyWritten;
    NoSpansAgree(before, c.stored);
    if |spans| == 0 {
      if clean && WholeChecked(l, c.fault) { SameFrame(before, c.stored, c.Staging(), spans); }
      return true;
    }
    ghost var stored0, staging0, macros0, pending0, log0 := c.stored, c.Staging(), c.macros, c.pending, c.log;
    if pending0 == map[] { PromotedNothing(macros0); }
    ok := WriteSpans(c, l, before, spans, clean && WholeChecked(l, c.fault));
    if clean {
      KeptCommitted(c, l, e, w, areas0, macros0, pending0, log0);
      if !(stored0 == before && staging0 == before) {
        CommitOrdered(c, l, platform, e, w, before, macros0, log0, log0);
      }
    }
  }

  /** Writes the profile back as it was: the record, then the macros, then the light effect. */
  method Undo(c: Controller, l: Layout, platform: Byte, before: seq<Byte>, spans: seq<Span>,
    e: seq<seq<Macro>>, w: seq<seq<Macro>>, effect: Byte, was: Byte, ghost areas0: seq<seq<Byte>>, ghost clean: bool) returns (ok: bool)
    requires c.Valid() && MacrosShaped(l, e) && MacrosShaped(l, w) && AllMacrosFit(l, e) && AllMacrosFit(l, w) && Areas(areas0)
    requires |c.stored| == |before| > 0 && SpansFit(|before|, spans)
    requires clean ==> EditLeft(c, l, platform, e, w, before, spans, areas0)
    requires spans == [] ==> (AnyWritten(l, e, w, l.slots) <==> AnyWritten(l, w, e, l.slots))
    modifies c
    ensures c.failures <= old(c.failures) + 1 && (ok ==> c.failures == old(c.failures))
    ensures c.Valid() && |c.stored| == |before| && old(c.log) <= c.log
    ensures ok ==> AgreesOn(before, c.stored, spans, |spans|) && StepsThere(l, platform, w, e, c.macros, l.slots)
    ensures ok ==> if effect == was then c.light == old(c.light) else ShownEffect(c.light) == was
    ensures ok && clean ==> c.Clean() && RegionsKept(l, e, w, areas0, c.macros) && (WholeChecked(l, c.fault) ==> c.stored == before)
    ensures clean && (!c.fault.Garbles? || (ok && WholeChecked(l, c.fault))) ==> HeadersLast(l, platform, e, w, before, c.log, |old(c.log)|)
    ensures spans != [] && (ok || c.fault.NoFault?) ==>
              FirstCommit(c.log, |old(c.log)|, before, spans, old(Promoted(c.macros, c.pending)))
    ensures spans != [] && (ok || c.fault.NoFault?) && clean && WholeChecked(l, c.fault) ==> c.log[|old(c.log)|].record == before
    ensures c.fault.NoFault? && old(c.Clean()) ==>
              (ok <==> AllFlashTakes(l, platform, old(c.macros), w, e, l.slots) && EffectTakes(was, effect))
  {
    hide StepsThere, RegionsKept, AllMacrosFit, MacrosShaped, AgreesOn, SpansFit, AnyWritten, EditLeft, AllFlashTakes, Promoted, Written;
    ghost var log0 := c.log;
    if clean && spans == [] { NoSpansLeft(c, l, platform, e, w, before, areas0); }
    ok := UndoRecord(c, l, platform, before, spans, e, w, areas0, clean);
    if !ok { return; }
    ghost var log1, stored1 := c.log, c.stored;
    if clean { KeptSwap(c, l, e, w, areas0); }
    hide Kept, HeadersLast;
    ok := WriteMacros(c, l, platform, w, e, areas0, clean);
    if clean {
      KeptSwap(c, l, w, e, areas0);
      if !c.fault.Garbles? || WholeChecked(l, c.fault) { MacrosOrdered(c, l, platform, e, w, before, log0, log1); }
      RegionsOf(c, l, e, w, areas0);
    }
    if spans == [] { NoSpansAgree(before, c.stored); }
    if !ok { return; }
    BothNow(c, l, platform, w, e);
    if effect != was {
      ok := SetEffect(c, was);
    }
  }

  lemma NoSpansLeft(c: Controller, l: Layout, platform: Byte, e: seq<seq<Macro>>, w: seq<seq<Macro>>, rec0: seq<Byte>, areas0: seq<seq<Byte>>)
    requires MacrosShaped(l, e) && MacrosShaped(l, w) && AllMacrosFit(l, e) && Areas(areas0) && c.Valid()
    requires EditLeft(c, l, platform, e, w, rec0, [], areas0)
    ensures c.staged.None? && (!AnyWritten(l, e, w, l.slots) ==> c.pending == map[])
  {
  }

  lemma RegionsOf(c: Controller, l: Layout, e: seq<seq<Macro>>, w: seq<seq<Macro>>, areas0: seq<seq<Byte>>)
    requires MacrosShaped(l, e) && MacrosShaped(l, w) && Areas(areas0) && c.Valid() && Kept(c, l, e, w, areas0)
    ensures Areas(c.macros) && RegionsKept(l, e, w, areas0, c.macros)
  {
  }

  lemma BothNow(c: Controller, l: Layout, platform: Byte, now: seq<seq<Macro>>, was: seq<seq<Macro>>)
    requires MacrosShaped(l, now) && MacrosShaped(l, was) && AllMacrosFit(l, now) && c.Valid() && BothThere(c, l, platform, now, was, l.slots)
    ensures Areas(c.macros) && StepsThere(l, platform, now, was, c.macros, l.slots)
  {
  }

  lemma MacrosFitAt(l: Layout, macros: seq<seq<Macro>>, s: nat)
    requires MacrosShaped(l, macros) && AllMacrosFit(l, macros) && s < l.slots
    ensures MacrosFit(macros[s])
  {
  }

  // ---- The whole apply

  datatype Report = Report(writeApplied: bool, rollbackAttempted: bool, rollbackSucceeded: bool)

  lemma PlanMacrosFit(l: Layout, e: Profile, w: Profile)
    requires ProfileFits(l, e) && ProfileFits(l, w) && l.slots <= PAD_SLOTS && AllMacrosFit(l, w.macros)
    requires forall i :: 0 <= i < l.slots ==> MacrosAccepted(l, e, w, i)
    ensures AllMacrosFit(l, e.macros)
  {
    forall s | 0 <= s < l.slots
      ensures MacrosFit(e.macros[s])
    {
      assert MacrosAccepted(l, e, w, s);
      MacrosFitAt(l, w.macros, s);
      if e.macros[s] != w.macros[s] {
        forall j | 0 <= j < MACROS
          ensures StepsFit(e.macros[s][j].steps)
        {
          assert MacroValid(l, e.macros[s][j]);
        }
      }
    }
  }

  /** What is read fits a profile's shape, and its macros fit storage. */
  lemma ReadFits(l: Layout, rec: seq<Byte>, areas: seq<seq<Byte>>, light: Byte)
    requires KnownLayout(l) && |rec| == l.size && Areas(areas)
    ensures ProfileFits(l, ProfileOf(l, rec, areas, light)) && MacrosShaped(l, ProfileOf(l, rec, areas, light).macros)
    ensures AllMacrosFit(l, ProfileOf(l, rec, areas, light).macros)
  {
    assert l.slots <= PAD_SLOTS;
    hide KnownLayout, DecodeSlot, MacrosOf, PlatformOf, SlotFits;
    var p := ProfileOf(l, rec, areas, light);
    forall i | 0 <= i < l.slots
      ensures SlotFits(l, p.slots[i])
    {
      PadRoundTrip.DecodedFits(l, rec, i);
    }
    forall i | 0 <= i < l.slots
      ensures |p.macros[i]| == MACROS && MacrosFit(p.macros[i])
    {
      assert p.macros[i] == MacrosOf(l, rec, areas[i], i);
    }
  }

  lemma RegionReads(l: Layout, platform: Byte, a: seq<Byte>, b: seq<Byte>, j: nat, n: nat)
    requires |a| == |b| == AREA && j < MACROS && n <= MAX_STEPS && Region(a, j) == Region(b, j)
    ensures a[j * REGION..j * REGION + n * STEP_BYTES] == b[j * REGION..j * REGION + n * STEP_BYTES]
  {
    SliceOfSlice(a, j * REGION, REGION, 0, n * STEP_BYTES);
    SliceOfSlice(b, j * REGION, REGION, 0, n * STEP_BYTES);
  }

  /** A macro reads the same from storage that kept its region, or that holds its steps. */
  lemma MacroReadsSame(l: Layout, platform: Byte, header: seq<Byte>, j: nat, a: seq<Byte>, b: seq<Byte>)
    requires |header| == HEADER && j < MACROS && |a| == |b| == AREA
    requires Region(a, j) == Region(b, j) || HoldsSteps(l, platform, b, j, DecodeMacro(l, platform, header, j, a).steps)
    ensures DecodeMacro(l, platform, header, j, b) == DecodeMacro(l, platform, header, j, a)
  {
    hide StepsDecoded, StepsEncoded, Names.DecodeName, CanTrigger, CountIn, TriggerIn, Word32, Region;
    if Describes(l, header) {
      var m := DecodeMacro(l, platform, header, j, a);
      assert |m.steps| == CountIn(header) as int;
      if Region(a, j) == Region(b, j) {
        RegionReads(l, platform, a, b, j, CountIn(header));
      } else {
        HeldStepsRead(l, platform, b, j, m.steps);
      }
    }
  }

  lemma SectionReadsSame(l: Layout, platform: Byte, section: seq<Byte>, e: seq<Macro>, a: seq<Byte>, b: seq<Byte>)
    requires |section| == SECTION && |e| == MACROS && |a| == |b| == AREA
    requires Untouched(e, DecodeSection(l, platform, section, a), a, b)
    requires HoldsChanging(l, platform, b, DecodeSection(l, platform, section, a), e)
    ensures DecodeSection(l, platform, section, b) == DecodeSection(l, platform, section, a)
  {
    hide DecodeMacro, HeaderIn, Region, HoldsSteps, Word32;
    if Word32(section) == IN_USE {
      var w := DecodeSection(l, platform, section, a);
      forall j | 0 <= j < MACROS
        ensures DecodeMacro(l, platform, HeaderIn(section, j), j, b) == w[j]
      {
        NoStepsHeld(l, platform, b, j);
        MacroReadsSame(l, platform, HeaderIn(section, j), j, a, b);
      }
    }
  }

  lemma NoStepsHeld(l: Layout, platform: Byte, area: seq<Byte>, j: nat)
    requires j < MACROS && |area| == AREA
    ensures HoldsSteps(l, platform, area, j, [])
  {
  }

  /** Once every changed macro is written back, the macros read as they did. */
  lemma RestoredReads(l: Layout, rec: seq<Byte>, areas0: seq<seq<Byte>>, areas: seq<seq<Byte>>, e: seq<seq<Macro>>)
    requires KnownLayout(l) && |rec| == l.size && Areas(areas0) && Areas(areas) && MacrosShaped(l, e)
    requires MacrosShaped(l, AllMacros(l, rec, areas0)) && AllMacrosFit(l, AllMacros(l, rec, areas0))
    requires RegionsKept(l, e, AllMacros(l, rec, areas0), areas0, areas)
    requires StepsThere(l, PlatformOf(l, rec), AllMacros(l, rec, areas0), e, areas, l.slots)
    ensures AllMacros(l, rec, areas) == AllMacros(l, rec, areas0)
  {
    var w := AllMacros(l, rec, areas0);
    hide KnownLayout, PlatformOf, MacroSection, DecodeSection, Untouched, HoldsChanging;
    forall s | 0 <= s < l.slots
      ensures AllMacros(l, rec, areas)[s] == w[s]
    {
      MacrosAre(l, rec, areas0, s);
      MacrosAre(l, rec, areas, s);
      SectionReadsSame(l, PlatformOf(l, rec), MacroSection(l, rec, s), e[s], areas0[s], areas[s]);
    }
  }

  /** The effect an edit asks for: a profile built without one leaves it alone. */
  function EffectFor(l: Layout, e: Profile, was: Byte): Byte {
    if e.effect == 0 || !l.HasLights() then was else e.effect
  }

  /** Everything the write and the undo of an edit need to know of it. */
  ghost predicate Planned(l: Layout, platform: Byte, e: Profile, w: Profile, rec0: seq<Byte>, record: seq<Byte>, spans: seq<Span>) {
    && PlanReady(l, platform, rec0, e, w) && MacrosShaped(l, e.macros) && MacrosShaped(l, w.macros)
    && AllMacrosFit(l, e.macros) && AllMacrosFit(l, w.macros)
    && record == PlannedRecord(l, platform, rec0, e, w) && spans == PlannedSpans(l, platform, rec0, e, w)
    && SpansFit(|rec0|, spans) && Agrees(rec0, record, spans)
    && (spans == [] ==> (AnyWritten(l, e.macros, w.macros, l.slots) <==> AnyWritten(l, w.macros, e.macros, l.slots)))
  }

  /** Whether fault-free flash and lights could take the edit. */
  ghost predicate Takes(l: Layout, platform: Byte, e: seq<seq<Macro>>, w: seq<seq<Macro>>, effect: Byte, was: Byte, areas0: seq<seq<Byte>>)
    requires MacrosShaped(l, e) && MacrosShaped(l, w) && Areas(areas0) && AllMacrosFit(l, e)
  {
    AllFlashTakes(l, platform, areas0, e, w, l.slots) && EffectTakes(effect, was)
  }

  /** Whether fault-free flash and lights could take back what the edit left of them. */
  ghost predicate TakesBack(l: Layout, platform: Byte, e: seq<seq<Macro>>, w: seq<seq<Macro>>, effect: Byte, was: Byte, areas0: seq<seq<Byte>>)
    requires MacrosShaped(l, e) && MacrosShaped(l, w) && Areas(areas0) && AllMacrosFit(l, e) && AllMacrosFit(l, w)
  {
    AllFlashTakes(l, platform, Written(l, platform, areas0, e, w, l.slots), w, e, l.slots) && EffectTakes(was, effect)
  }

  /** What was read, and the record an edit of it asks for. */
  datatype Edit = Edit(before: seq<Byte>, was: Profile, record: seq<Byte>, spans: seq<Span>)

  /** Whether the source takes an edit of what a controller holds. */
  ghost predicate TakesEdit(l: Layout, platform: Byte, e: Profile, rec: seq<Byte>, areas: seq<seq<Byte>>, light: Byte)
    requires KnownLayout(l) && |rec| == l.size && Areas(areas) && ProfileFits(l, e)
  {
    && e.platform == platform && (l.ultimateBT ==> Word16(rec[l.Platform()..]) == platform)
    && ProfileFits(l, ProfileOf(l, rec, areas, light)) && ProfileAccepted(l, platform, e, ProfileOf(l, rec, areas, light))
  }

  /** Reads the profile as it is and plans the edit, or refuses it. */
  method PlanEdit(c: Controller, l: Layout, platform: Byte, e: Profile) returns (r: Result<Edit>)
    requires c.Valid() && KnownLayout(l) && |c.stored| == l.size && ProfileFits(l, e) && PlatformOf(l, c.stored) == platform
    ensures r.Ok? ==> r.value.before == c.stored && r.value.was == ProfileOf(l, c.stored, c.macros, c.light)
    ensures r.Ok? ==> Planned(l, platform, e, r.value.was, r.value.before, r.value.record, r.value.spans)
    ensures r.Ok? ==> Edited(l, platform, e, c.stored, c.macros, c.light)
    ensures c.fault.NoFault? ==> (r.Ok? <==> TakesEdit(l, platform, e, c.stored, c.macros, c.light))
  {
    if e.platform != platform { return Err; }
    ReadFits(l, c.stored, c.macros, c.light);
    var read := ReadProfile(c, l, platform);
    if read.Err? { return Err; }
    var before, w := read.value.0, read.value.1;
    hide Layout.Platform, Word16, PlatformOf;
    hide KnownLayout, ProfileFits, ProfileAccepted, PlannedRecord, PlannedSpans, ProfileOf, MacrosShaped, AllMacrosFit, Planned, Controller.Valid;
    var planned := Prepare(l, platform, before, e, w);
    if planned.Err? { return Err; }
    PlannedFrom(l, platform, e, before, c.macros, c.light);
    return Ok(Edit(before, w, planned.value.0, planned.value.1));
  }

  lemma PlannedFrom(l: Layout, platform: Byte, e: Profile, rec: seq<Byte>, areas: seq<seq<Byte>>, light: Byte)
    requires KnownLayout(l) && |rec| == l.size && Areas(areas) && ProfileFits(l, e) && PlatformOf(l, rec) == platform
    requires ProfileFits(l, ProfileOf(l, rec, areas, light)) && ProfileAccepted(l, platform, e, ProfileOf(l, rec, areas, light))
    ensures Planned(l, platform, e, ProfileOf(l, rec, areas, light), rec,
                    PlannedRecord(l, platform, rec, e, ProfileOf(l, rec, areas, light)),
                    PlannedSpans(l, platform, rec, e, ProfileOf(l, rec, areas, light)))
  {
    hide KnownLayout, ProfileAccepted, ProfileFits, AllMacrosFit, PlannedRecord, PlannedSpans, SlotFits, ProfileOf, SpansFit, Covered, PlatformOf;
    var w := ProfileOf(l, rec, areas, light);
    AtMostThreeSlots(l);
    ReadFits(l, rec, areas, light);
    ShownSlots(l, rec, areas, light);
    AcceptedMacros(l, platform, e, w);
    PlanMacrosFit(l, e, w);
    ShapedMacros(l, e);
    PlannedFrame(l, platform, rec, e, w);
    hide AnyWritten, MacrosShaped, PlanReady, MacroSection, DecodeSection, MacrosAccepted;
    if PlannedSpans(l, platform, rec, e, w) == [] {
      forall k | 0 <= k < l.slots
        ensures w.macros[k] == DecodeSection(l, platform, MacroSection(l, rec, k), areas[k])
      {
        ShownMacros(l, rec, areas, light, k);
      }
      NoSpansAlike(l, platform, e, w, rec, areas);
    }
  }

  lemma HeaderDescribes(l: Layout, platform: Byte, j: nat, m: Macro)
    requires j < MACROS && !m.Empty() && |m.steps| <= MAX_STEPS && CanTrigger(l, m.trigger) && Names.Encodable(m.name)
    ensures Describes(l, HeaderFor(l, platform, j, m)) && CountIn(HeaderFor(l, platform, j, m)) as int == |m.steps|
  {
    hide CanTrigger, EncodeHeader, CountIn, TriggerIn, Names.Encodable;
    HeaderParts(l, platform, j, m);
  }

  /** A header describes a macro exactly when there is one. */
  lemma HeaderEmpty(l: Layout, platform: Byte, j: nat, m: Macro, area: seq<Byte>)
    requires j < MACROS && |area| == AREA && MacroValid(l, m)
    ensures DecodeMacro(l, platform, HeaderFor(l, platform, j, m), j, area).Empty() <==> m.Empty()
  {
    if m.Empty() {
      NoMacroRoundTrip(l, platform, j, m, area);
    } else {
      HeaderDescribes(l, platform, j, m);
      hide MacroValid, Describes, HeaderFor, Names.DecodeName, Names.Encodable, StepsDecoded, CountIn, TriggerIn, Word32, Analog;
      assert |DecodeMacro(l, platform, HeaderFor(l, platform, j, m), j, area).steps| == |m.steps|;
    }
  }

  /** Macros whose section is the one stored are there exactly where the ones read from it are. */
  lemma SectionAlike(l: Layout, platform: Byte, e: seq<Macro>, area: seq<Byte>)
    requires SectionFits(e) && |area| == AREA && forall j :: 0 <= j < MACROS ==> MacroValid(l, e[j])
    ensures var w := DecodeSection(l, platform, EncodeSection(l, platform, e), area);
            AnyChanging(e, w, MACROS) <==> AnyChanging(w, e, MACROS)
  {
    hide EncodeSection, HeaderFor, DecodeMacro, HeaderIn, MacroValid, Word32;
    var w := DecodeSection(l, platform, EncodeSection(l, platform, e), area);
    forall j | 0 <= j < MACROS
      ensures Changing(e, w, j) <==> Changing(w, e, j)
    {
      SectionHeader(l, platform, e, j);
      HeaderEmpty(l, platform, j, e[j], area);
    }
  }

  lemma NoSpansSame(l: Layout, platform: Byte, e: Profile, w: Profile, rec: seq<Byte>)
    requires PlanReady(l, platform, rec, e, w) && PlannedSpans(l, platform, rec, e, w) == []
    ensures PlannedRecord(l, platform, rec, e, w) == rec
  {
    hide KnownLayout, ProfileFits, ProfileAccepted, PlannedRecord, PlannedSpans, DecodeSlot, PlatformOf, SpansFit;
    PlannedFrame(l, platform, rec, e, w);
  }

  lemma SlotAlike(l: Layout, platform: Byte, e: Profile, w: Profile, rec: seq<Byte>, area: seq<Byte>, k: nat)
    requires PlanReady(l, platform, rec, e, w) && PlannedRecord(l, platform, rec, e, w) == rec && k < l.slots
    requires |area| == AREA && |e.macros[k]| == MACROS && w.macros[k] == DecodeSection(l, platform, MacroSection(l, rec, k), area)
    ensures AnyChanging(e.macros[k], w.macros[k], MACROS) <==> AnyChanging(w.macros[k], e.macros[k], MACROS)
  {
    PlannedMacros(l, platform, rec, e, w, k);
    assert MacrosAccepted(l, e, w, k);
    hide PlannedRecord, PlanReady, KnownLayout, MacroSection, DecodeSection, EncodeSection, AnyChanging, MacroValid, SectionFits;
    if e.macros[k] != w.macros[k] {
      SectionAlike(l, platform, e.macros[k], area);
    }
  }

  /** An edit that changes no span of the record gives steps to just the macros that had some. */
  lemma NoSpansAlike(l: Layout, platform: Byte, e: Profile, w: Profile, rec: seq<Byte>, areas: seq<seq<Byte>>)
    requires PlanReady(l, platform, rec, e, w) && PlannedSpans(l, platform, rec, e, w) == []
    requires Areas(areas) && MacrosShaped(l, e.macros) && MacrosShaped(l, w.macros)
    requires forall k :: 0 <= k < l.slots ==> w.macros[k] == DecodeSection(l, platform, MacroSection(l, rec, k), areas[k])
    ensures AnyWritten(l, e.macros, w.macros, l.slots) <==> AnyWritten(l, w.macros, e.macros, l.slots)
  {
    NoSpansSame(l, platform, e, w, rec);
    hide PlannedRecord, PlannedSpans, PlanReady, MacroSection, DecodeSection, AnyChanging, AnyWritten;
    forall k | 0 <= k < l.slots
      ensures AnyChanging(e.macros[k], w.macros[k], MACROS) <==> AnyChanging(w.macros[k], e.macros[k], MACROS)
    {
      SlotAlike(l, platform, e, w, rec, areas[k], k);
    }
    AlikeWritten(l, e.macros, w.macros);
  }

  lemma AlikeWritten(l: Layout, e: seq<seq<Macro>>, w: seq<seq<Macro>>)
    requires MacrosShaped(l, e) && MacrosShaped(l, w)
    requires forall k :: 0 <= k < l.slots ==> (AnyChanging(e[k], w[k], MACROS) <==> AnyChanging(w[k], e[k], MACROS))
    ensures AnyWritten(l, e, w, l.slots) <==> AnyWritten(l, w, e, l.slots)
  {
    hide AnyChanging;
  }

  lemma ShownMacros(l: Layout, rec: seq<Byte>, areas: seq<seq<Byte>>, light: Byte, k: nat)
    requires KnownLayout(l) && |rec| == l.size && Areas(areas) && k < l.slots <= PAD_SLOTS
    ensures ProfileOf(l, rec, areas, light).macros[k] == DecodeSection(l, PlatformOf(l, rec), MacroSection(l, rec, k), areas[k])
  {
    MacrosAre(l, rec, areas, k);
  }

  lemma AtMostThreeSlots(l: Layout)
    requires KnownLayout(l)
    ensures l.slots <= PAD_SLOTS && l.size > 0
  {
  }

  lemma ShownSlots(l: Layout, rec: seq<Byte>, areas: seq<seq<Byte>>, light: Byte)
    requires KnownLayout(l) && |rec| == l.size && Areas(areas)
    ensures |ProfileOf(l, rec, areas, light).slots| == l.slots
    ensures forall i :: 0 <= i < l.slots ==> ProfileOf(l, rec, areas, light).slots[i] == DecodeSlot(l, rec, i)
  {
    hide KnownLayout, DecodeSlot, AllMacros, PlatformOf;
  }

  lemma AcceptedMacros(l: Layout, platform: Byte, e: Profile, w: Profile)
    requires KnownLayout(l) && ProfileFits(l, e) && ProfileFits(l, w) && ProfileAccepted(l, platform, e, w)
    ensures |e.macros| == |w.macros| == l.slots && forall i :: 0 <= i < l.slots ==> MacrosAccepted(l, e, w, i)
  {
    hide KnownLayout, SlotFits, SlotAccepted, MacrosAccepted;
  }

  lemma ShapedMacros(l: Layout, p: Profile)
    requires ProfileFits(l, p) && l.slots <= PAD_SLOTS
    ensures MacrosShaped(l, p.macros)
  {
    hide SlotFits;
  }

  /** Macros as an edit asks for them and as they were, in shape to be written. */
  ghost predicate Ready(l: Layout, e: seq<seq<Macro>>, w: seq<seq<Macro>>) {
    MacrosShaped(l, e) && MacrosShaped(l, w) && AllMacrosFit(l, e) && AllMacrosFit(l, w)
  }

  /** Carries a planned edit out, and undoes it when a step fails. */
  method CarryOut(c: Controller, l: Layout, platform: Byte, e: seq<seq<Macro>>, w: seq<seq<Macro>>, before: seq<Byte>, record: seq<Byte>,
    spans: seq<Span>, effect: Byte, was: Byte) returns (report: Report)
    requires c.Valid() && Ready(l, e, w) && c.stored == before && |before| > 0 && SpansFit(|before|, spans) && Agrees(before, record, spans)
    requires spans == [] ==> (AnyWritten(l, e, w, l.slots) <==> AnyWritten(l, w, e, l.slots))
    modifies c
    ensures report.writeApplied ==> c.failures == old(c.failures)
    ensures report.rollbackSucceeded ==> c.failures <= old(c.failures) + 1
    ensures c.Valid() && |c.stored| == |before| && Areas(old(c.macros))
    ensures report.writeApplied == !report.rollbackAttempted && (report.rollbackSucceeded ==> report.rollbackAttempted)
    ensures report.writeApplied ==> AgreesOn(record, c.stored, spans, |spans|) && StepsThere(l, platform, e, w, c.macros, l.slots)
    ensures report.writeApplied ==> if effect == was then c.light == old(c.light) else ShownEffect(c.light) == effect
    ensures report.rollbackSucceeded ==> AgreesOn(before, c.stored, spans, |spans|) && StepsThere(l, platform, w, e, c.macros, l.slots)
    ensures report.rollbackSucceeded ==> if effect == was then c.light == old(c.light) else ShownEffect(c.light) == was
    ensures old(c.Clean()) && (report.writeApplied || report.rollbackSucceeded) ==> c.Clean() && RegionsKept(l, e, w, old(c.macros), c.macros)
    ensures old(c.Clean()) && WholeChecked(l, c.fault) && report.writeApplied ==> c.stored == record
    ensures old(c.Clean()) && WholeChecked(l, c.fault) && report.rollbackSucceeded ==> c.stored == before
    ensures old(c.Clean()) && (report.writeApplied || !c.fault.Garbles? || (report.rollbackSucceeded && WholeChecked(l, c.fault))) ==>
              HeadersLast(l, platform, e, w, before, c.log, |old(c.log)|)
    ensures c.fault.NoFault? && old(c.Clean()) ==> (report.writeApplied <==> Takes(l, platform, e, w, effect, was, old(c.macros)))
    ensures c.fault.NoFault? && old(c.Clean()) && !report.writeApplied ==>
              (report.rollbackSucceeded <==> TakesBack(l, platform, e, w, effect, was, old(c.macros)))
    ensures c.fault.NoFault? && old(c.Clean()) && !report.writeApplied && spans != [] ==>
              old(c.log) <= c.log && Snapshot(before, Written(l, platform, old(c.macros), e, w, l.slots)) in c.log[|old(c.log)|..]
  {
    ghost var areas0, log0, clean := c.macros, c.log, c.Clean();
    ValidAreas(c);
    hide Kept, Controller.Valid, AllMacrosFit, StepsThere, RegionsKept, AllFlashTakes, HeadersLast, SpansFit, Agrees, AgreesOn, Promoted;
    hide MacrosShaped, EditLeft, Written, AnyWritten, FirstCommit, EffectTakes, ShownEffect, WholeChecked, Controller.Staging;
    var ok := WriteEdit(c, l, platform, record, spans, e, w, effect, was);
    if ok {
      if clean { LeftRegions(c, l, platform, e, w, before, spans, areas0); }
      return Report(true, false, false);
    }
    ghost var log1, macros1 := c.log, c.macros;
    if c.fault.NoFault? && clean { PromotedNothing(macros1); }
    ok := Undo(c, l, platform, before, spans, e, w, effect, was, areas0, clean);
    if clean && (!c.fault.Garbles? || (ok && WholeChecked(l, c.fault))) {
      HeadersLastMore(l, platform, e, w, before, log0, log1, c.log);
    }
    if c.fault.NoFault? && clean && spans != [] {
      FaultlessChecked(l, c.fault);
      SnapshotIn(c.log, |log0|, |log1|, Snapshot(before, macros1), before, spans);
    }
    return Report(false, true, ok);
  }

  lemma FaultlessChecked(l: Layout, fault: Fault)
    requires fault.NoFault?
    ensures WholeChecked(l, fault)
  {
  }

  lemma LeftRegions(c: Controller, l: Layout, platform: Byte, e: seq<seq<Macro>>, w: seq<seq<Macro>>, rec0: seq<Byte>,
    spans: seq<Span>, areas0: seq<seq<Byte>>)
    requires MacrosShaped(l, e) && MacrosShaped(l, w) && AllMacrosFit(l, e) && Areas(areas0) && c.Valid()
    requires EditLeft(c, l, platform, e, w, rec0, spans, areas0)
    ensures Areas(c.macros) && RegionsKept(l, e, w, areas0, c.macros)
  {
    hide RegionsKept, Ordered;
  }

  lemma HeadersLastMore(l: Layout, platform: Byte, now: seq<seq<Macro>>, was: seq<seq<Macro>>, rec0: seq<Byte>,
    log0: seq<Snapshot>, log1: seq<Snapshot>, log2: seq<Snapshot>)
    requires MacrosShaped(l, now) && MacrosShaped(l, was) && AllMacrosFit(l, now) && log0 <= log1 <= log2
    requires HeadersLast(l, platform, now, was, rec0, log1, |log0|) && HeadersLast(l, platform, now, was, rec0, log2, |log1|)
    ensures HeadersLast(l, platform, now, was, rec0, log2, |log0|)
  {
    hide StepsThere, AllMacrosFit, MacrosShaped;
    assert forall k :: 0 <= k < |log1| ==> log2[k] == log1[k];
  }

  lemma SnapshotIn(log: seq<Snapshot>, from: nat, at: nat, snap: Snapshot, record: seq<Byte>, spans: seq<Span>)
    requires from <= at && FirstCommit(log, at, record, spans, snap.macros) && log[at].record == snap.record
    ensures snap in log[from..]
  {
    assert log[from..][at - from] == snap;
  }

  /**
   Applies an edited profile. An error means nothing was written; otherwise the report says what the
   controller now holds: the edit, the profile as it was, or neither for certain. What it says is true in
   every span the edit changes, under every fault and whatever an earlier apply left staged; it is true
   byte for byte where nothing was staged before and the check proves the whole record. A controller
   without faults takes every edit that is accepted and whose macros its flash can hold.
   */
  method Apply(c: Controller, l: Layout, platform: Byte, e: Profile) returns (r: Result<Report>)
    requires c.Valid() && KnownLayout(l) && |c.stored| == l.size && ProfileFits(l, e) && PlatformOf(l, c.stored) == platform
    modifies c
    ensures c.Valid() && |c.stored| == l.size && Areas(old(c.macros))
    ensures r.Ok? && r.value.writeApplied ==> c.failures == old(c.failures)
    ensures r.Ok? && r.value.rollbackSucceeded ==> c.failures <= old(c.failures) + 1
    ensures r.Err? ==> c.stored == old(c.stored) && c.staged == old(c.staged) && c.macros == old(c.macros) && c.pending == old(c.pending)
    ensures r.Err? ==> c.light == old(c.light) && c.log == old(c.log)
    ensures r.Ok? ==> Told(c, l, platform, e, old(c.stored), old(c.macros), old(c.light), old(c.log), old(c.Clean()), r.value)
    ensures c.fault.NoFault? ==> (r.Ok? <==> TakesEdit(l, platform, e, old(c.stored), old(c.macros), old(c.light)))
  {
    ghost var rec0, areas0, light0 := c.stored, c.macros, c.light;
    ValidAreas(c);
    var planned := PlanEdit(c, l, platform, e);
    if planned.Err? { return Err; }
    hide ProfileFits, KnownLayout, Planned, ProfileOf, Edited, Told, Controller.Clean, Controller.Valid, TakesEdit;
    r := ApplyPlanned(c, l, platform, e, planned.value);
  }

  /** Starts a configuration session on the model that wants one. */
  method OpenSync(c: Controller, l: Layout) returns (ok: bool)
    requires c.Valid()
    modifies c`failures, c`syncing
    ensures ok && l.ArcadePro() ==> c.syncing
    ensures c.failures == old(c.failures) + (if ok then 0 else 1) && (!l.ArcadePro() || c.fault.NoFault? ==> ok)
    ensures c.Valid() && c.Clean() == old(c.Clean()) && c.Staging() == old(c.Staging())
  {
    if !l.ArcadePro() { return true; }
    ok := c.StartSync();
  }

  /** An edit that changes no byte, no macro and no effect. */
  predicate AsksNothing(l: Layout, e: Profile, plan: Edit) {
    |plan.spans| == 0 && e.macros == plan.was.macros && (e.effect == 0 || !l.HasLights() || e.effect == plan.was.effect)
  }

  lemma NothingAsked(l: Layout, e: Profile, plan: Edit)
    ensures AsksNothing(l, e, plan) <==> |plan.spans| == 0 && e.macros == plan.was.macros && EffectFor(l, e, plan.was.effect) == plan.was.effect
  {
  }

  /** Carries a plan out, unless it has nothing to write or the controller will not start a configuration. */
  method ApplyPlanned(c: Controller, l: Layout, platform: Byte, e: Profile, plan: Edit) returns (r: Result<Report>)
    requires c.Valid() && KnownLayout(l) && |c.stored| == l.size && PlatformOf(l, c.stored) == platform && plan.before == c.stored
    requires Areas(c.macros) && plan.was == ProfileOf(l, c.stored, c.macros, c.light) && Edited(l, platform, e, c.stored, c.macros, c.light)
    requires Planned(l, platform, e, plan.was, plan.before, plan.record, plan.spans)
    modifies c
    ensures c.Valid() && |c.stored| == l.size && Areas(old(c.macros))
    ensures r.Ok? && r.value.writeApplied ==> c.failures == old(c.failures)
    ensures r.Ok? && r.value.rollbackSucceeded ==> c.failures <= old(c.failures) + 1
    ensures r.Err? ==> c.stored == old(c.stored) && c.staged == old(c.staged) && c.macros == old(c.macros) && c.pending == old(c.pending)
    ensures r.Err? ==> c.light == old(c.light) && c.log == old(c.log)
    ensures r.Ok? ==> Told(c, l, platform, e, old(c.stored), old(c.macros), old(c.light), old(c.log), old(c.Clean()), r.value)
    ensures c.fault.NoFault? ==> r.Ok?
    ensures AsksNothing(l, e, plan) ==> r == Ok(Report(true, false, false)) && c.log == old(c.log) && c.syncing == old(c.syncing)
  {
    NothingAsked(l, e, plan);
    hide AsksNothing;
    hide ProfileFits, KnownLayout, PlanReady, PlannedRecord, PlannedSpans, Planned, AllMacrosFit, ProfileOf, StepsThere, RegionsKept, AgreesOn;
    hide AllFlashTakes, Written, MacrosShaped, Edited, Applied, AppliedOnly, Undone, HeadersAfterSteps, FlashCarries, FlashCarriesBack, OldRecordFirst, Told;
    hide EffectFor, ShownEffect, Takes, TakesBack, HeadersLast, Agrees, SpansFit, WholeChecked, AnyWritten, Ready, Controller.Clean;
    if |plan.spans| == 0 && e.macros == plan.was.macros && EffectFor(l, e, plan.was.effect) == plan.was.effect {
      NothingToldOf(c, l, platform, e, plan);
      return Ok(Report(true, false, false));
    }
    var open := OpenSync(c, l);
    if !open { return Err; }
    var report := CarryPlan(c, l, platform, e, plan);
    return Ok(report);
  }

  lemma NothingToldOf(c: Controller, l: Layout, platform: Byte, e: Profile, plan: Edit)
    requires c.Valid() && KnownLayout(l) && |c.stored| == l.size && PlatformOf(l, c.stored) == platform && plan.before == c.stored
    requires Areas(c.macros) && plan.was == ProfileOf(l, c.stored, c.macros, c.light) && Edited(l, platform, e, c.stored, c.macros, c.light)
    requires Planned(l, platform, e, plan.was, plan.before, plan.record, plan.spans)
    requires |plan.spans| == 0 && e.macros == plan.was.macros && EffectFor(l, e, plan.was.effect) == plan.was.effect
    ensures Told(c, l, platform, e, c.stored, c.macros, c.light, c.log, c.Clean(), Report(true, false, false))
  {
    PlannedReady(l, platform, e, plan.was, plan.before, plan.record, plan.spans);
    hide ProfileFits, KnownLayout, PlanReady, PlannedRecord, PlannedSpans, Planned, AllMacrosFit, ProfileOf, StepsThere, RegionsKept, AgreesOn;
    hide AllFlashTakes, Written, MacrosShaped, Edited, Applied, AppliedOnly, Undone, HeadersAfterSteps, FlashCarries, FlashCarriesBack, OldRecordFirst, Told;
    hide EffectFor, ShownEffect, Takes, TakesBack, HeadersLast, Agrees, SpansFit, WholeChecked, AnyWritten, Ready, Controller.Clean;
    NothingMeans(c, l, platform, e.macros, plan.before, plan.record, plan.was.effect);
    AppliedMeans(c, l, platform, e, plan.was, plan.record, plan.spans, c.stored, c.macros, c.light, c.log, c.Clean());
  }

  method CarryPlan(c: Controller, l: Layout, platform: Byte, e: Profile, plan: Edit) returns (report: Report)
    requires l.ArcadePro() ==> c.syncing
    requires c.Valid() && KnownLayout(l) && |c.stored| == l.size && PlatformOf(l, c.stored) == platform && plan.before == c.stored
    requires Areas(c.macros) && plan.was == ProfileOf(l, c.stored, c.macros, c.light) && Edited(l, platform, e, c.stored, c.macros, c.light)
    requires Planned(l, platform, e, plan.was, plan.before, plan.record, plan.spans)
    modifies c
    ensures c.Valid() && |c.stored| == l.size && Areas(old(c.macros))
    ensures report.writeApplied ==> c.failures == old(c.failures)
    ensures report.rollbackSucceeded ==> c.failures <= old(c.failures) + 1
    ensures Told(c, l, platform, e, old(c.stored), old(c.macros), old(c.light), old(c.log), old(c.Clean()), report)
  {
    ghost var rec0, areas0, light0, log0, clean := c.stored, c.macros, c.light, c.log, c.Clean();
    var before, w, record, spans := plan.before, plan.was, plan.record, plan.spans;
    PlannedReady(l, platform, e, w, before, record, spans);
    hide ProfileFits, KnownLayout, PlanReady, PlannedRecord, PlannedSpans, Planned, AllMacrosFit, ProfileOf, StepsThere, RegionsKept, AgreesOn;
    hide AllFlashTakes, Written, MacrosShaped, Edited, Applied, AppliedOnly, Undone, HeadersAfterSteps, FlashCarries, FlashCarriesBack, OldRecordFirst, Told;
    hide EffectFor, ShownEffect, Takes, TakesBack, HeadersLast, Agrees, SpansFit, WholeChecked, AnyWritten, Ready, Controller.Clean;
    report := CarryOut(c, l, platform, e.macros, w.macros, before, record, spans, EffectFor(l, e, w.effect), w.effect);
    if report.writeApplied {
      AppliedMeans(c, l, platform, e, w, record, spans, rec0, areas0, light0, log0, clean);
    } else {
      RolledBackMeans(c, l, platform, e, w, spans, rec0, areas0, light0, log0, clean, report.rollbackSucceeded);
    }
  }

  /** Where an edit changes nothing, what it asks for is there. */
  lemma NothingMeans(c: Controller, l: Layout, platform: Byte, macros: seq<seq<Macro>>, before: seq<Byte>, record: seq<Byte>, effect: Byte)
    requires c.Valid() && c.stored == before && Ready(l, macros, macros) && Agrees(before, record, [])
    ensures Areas(c.macros) && c.stored == record && AgreesOn(record, c.stored, [], 0)
    ensures StepsThere(l, platform, macros, macros, c.macros, l.slots) && RegionsKept(l, macros, macros, c.macros, c.macros)
    ensures HeadersLast(l, platform, macros, macros, before, c.log, |c.log|)
    ensures Takes(l, platform, macros, macros, effect, effect, c.macros)
  {
    ValidAreas(c);
    NothingToWrite(l, platform, macros, c.macros);
    SameFrame(before, record, before, []);
    NoSpansAgree(record, c.stored);
    NothingToFlash(l, platform, macros, c.macros);
    hide StepsThere, RegionsKept, AllFlashTakes, MacrosShaped, AllMacrosFit;
  }

  /** What a plan says of the parts a write is made of. */
  lemma PlannedReady(l: Layout, platform: Byte, e: Profile, w: Profile, before: seq<Byte>, record: seq<Byte>, spans: seq<Span>)
    requires Planned(l, platform, e, w, before, record, spans)
    ensures PlanReady(l, platform, before, e, w) && Ready(l, e.macros, w.macros) && |before| > 0
    ensures record == PlannedRecord(l, platform, before, e, w) && spans == PlannedSpans(l, platform, before, e, w)
    ensures SpansFit(|before|, spans) && Agrees(before, record, spans)
    ensures spans == [] ==> (AnyWritten(l, e.macros, w.macros, l.slots) <==> AnyWritten(l, w.macros, e.macros, l.slots))
  {
    AtMostThreeSlots(l);
    hide KnownLayout, ProfileFits, ProfileAccepted, PlannedRecord, PlannedSpans, MacrosShaped, AllMacrosFit, AnyWritten, DecodeSlot, PlatformOf, SpansFit;
  }

  /** The effect a profile was read with. */
  lemma ReadLight(l: Layout, rec: seq<Byte>, areas: seq<seq<Byte>>, light: Byte)
    requires KnownLayout(l) && |rec| == l.size && Areas(areas)
    ensures ProfileOf(l, rec, areas, light).effect == if l.HasLights() then ShownEffect(light) else 0
  {
    hide KnownLayout, DecodeSlot, AllMacros, PlatformOf;
  }

  lemma AppliedMeans(c: Controller, l: Layout, platform: Byte, e: Profile, w: Profile, record: seq<Byte>, spans: seq<Span>,
    rec0: seq<Byte>, areas0: seq<seq<Byte>>, light0: Byte, log0: seq<Snapshot>, clean: bool)
    requires KnownLayout(l) && |rec0| == l.size && Areas(areas0) && c.Valid() && |c.stored| == l.size
    requires Edited(l, platform, e, rec0, areas0, light0) && w == ProfileOf(l, rec0, areas0, light0)
    requires PlanReady(l, platform, rec0, e, w) && Ready(l, e.macros, w.macros)
    requires record == PlannedRecord(l, platform, rec0, e, w) && spans == PlannedSpans(l, platform, rec0, e, w)
    requires AgreesOn(record, c.stored, spans, |spans|) && StepsThere(l, platform, e.macros, w.macros, c.macros, l.slots)
    requires if EffectFor(l, e, w.effect) == w.effect then c.light == light0 else ShownEffect(c.light) == EffectFor(l, e, w.effect)
    requires clean ==> c.Clean() && RegionsKept(l, e.macros, w.macros, areas0, c.macros) && (WholeChecked(l, c.fault) ==> c.stored == record)
    requires clean ==> HeadersLast(l, platform, e.macros, w.macros, rec0, c.log, |log0|)
    requires c.fault.NoFault? && clean ==> Takes(l, platform, e.macros, w.macros, EffectFor(l, e, w.effect), w.effect, areas0)
    ensures Told(c, l, platform, e, rec0, areas0, light0, log0, clean, Report(true, false, false))
  {
    hide KnownLayout, PlanReady, PlannedRecord, PlannedSpans, ProfileOf, StepsThere, RegionsKept, AgreesOn, HeadersLast, Takes, MacrosShaped, AllMacrosFit;
    ReadLight(l, rec0, areas0, light0);
  }

  lemma RolledBackMeans(c: Controller, l: Layout, platform: Byte, e: Profile, w: Profile, spans: seq<Span>,
    rec0: seq<Byte>, areas0: seq<seq<Byte>>, light0: Byte, log0: seq<Snapshot>, clean: bool, restored: bool)
    requires KnownLayout(l) && |rec0| == |c.stored| == l.size && Areas(areas0) && c.Valid() && PlatformOf(l, rec0) == platform
    requires Edited(l, platform, e, rec0, areas0, light0) && w == ProfileOf(l, rec0, areas0, light0)
    requires PlanReady(l, platform, rec0, e, w) && Ready(l, e.macros, w.macros) && spans == PlannedSpans(l, platform, rec0, e, w)
    requires restored ==> AgreesOn(rec0, c.stored, spans, |spans|) && StepsThere(l, platform, w.macros, e.macros, c.macros, l.slots)
    requires restored ==> if EffectFor(l, e, w.effect) == w.effect then c.light == light0 else ShownEffect(c.light) == w.effect
    requires restored && clean ==>
               c.Clean() && RegionsKept(l, e.macros, w.macros, areas0, c.macros) && (WholeChecked(l, c.fault) ==> c.stored == rec0)
    requires clean && (!c.fault.Garbles? || (restored && WholeChecked(l, c.fault))) ==> HeadersLast(l, platform, e.macros, w.macros, rec0, c.log, |log0|)
    requires c.fault.NoFault? && clean ==> !Takes(l, platform, e.macros, w.macros, EffectFor(l, e, w.effect), w.effect, areas0)
    requires c.fault.NoFault? && clean ==>
               (restored <==> TakesBack(l, platform, e.macros, w.macros, EffectFor(l, e, w.effect), w.effect, areas0))
    requires c.fault.NoFault? && clean && spans != [] ==>
               log0 <= c.log && Snapshot(rec0, Written(l, platform, areas0, e.macros, w.macros, l.slots)) in c.log[|log0|..]
    ensures Told(c, l, platform, e, rec0, areas0, light0, log0, clean, Report(false, true, restored))
  {
    hide KnownLayout, PlanReady, PlannedRecord, PlannedSpans, ProfileOf, StepsThere, RegionsKept, AgreesOn, HeadersLast, Takes, TakesBack;
    hide MacrosShaped, AllMacrosFit, Written, PlatformOf;
    ReadLight(l, rec0, areas0, light0);
    if restored && clean && WholeChecked(l, c.fault) {
      RestoredProfile(l, platform, e, rec0, areas0, light0, c.macros, c.light);
    }
  }

  /**
   What a report tells of a controller that held rec0, areas0 and light0, with nothing staged if `clean`:
   - applied: the edit is there, and the effect it asks for, if any, is the one shown; if clean, nothing
     else changed and another apply may follow;
   - rolled back: what the edit was about is as it was, and the effect that showed shows; if clean, and
     the check proves the whole record, the record is what it was byte for byte and the profile reads as
     it did;
   - if clean, no commit put a changed record in place before the changed steps, unless a rollback that
     failed, or that was not wholly checked, had its writes garbled;
   - without faults, and clean, it was applied exactly when flash and lights carry it, rolled back
     exactly when they carry it back, and the rollback committed the old record first.
   */
  ghost predicate Told(c: Controller, l: Layout, platform: Byte, e: Profile, rec0: seq<Byte>, areas0: seq<seq<Byte>>, light0: Byte,
    log0: seq<Snapshot>, clean: bool, report: Report)
    requires KnownLayout(l) && |rec0| == l.size && Areas(areas0) && c.Valid() && |c.stored| == l.size
    reads c
  {
    && report.writeApplied == !report.rollbackAttempted && (report.rollbackSucceeded ==> report.rollbackAttempted)
    && (report.writeApplied ==> Applied(c, l, platform, e, rec0, areas0, light0))
    && (report.writeApplied ==> if l.HasLights() && e.effect != 0 then ShownEffect(c.light) == e.effect else c.light == light0)
    && (report.writeApplied && clean ==> AppliedOnly(c, l, platform, e, rec0, areas0, light0))
    && (report.rollbackSucceeded ==> Undone(c, l, platform, e, rec0, areas0, light0))
    && (report.rollbackSucceeded ==> if l.HasLights() then ShownEffect(c.light) == ShownEffect(light0) else c.light == light0)
    && (report.rollbackSucceeded && clean ==> c.Clean())
    && (report.rollbackSucceeded && clean && WholeChecked(l, c.fault) ==>
          c.stored == rec0 && ProfileOf(l, c.stored, c.macros, c.light) == ProfileOf(l, rec0, areas0, light0))
    && (clean && (report.writeApplied || !c.fault.Garbles? || (report.rollbackSucceeded && WholeChecked(l, c.fault))) ==>
          HeadersAfterSteps(l, platform, e, rec0, areas0, light0, c.log, |log0|))
    && (c.fault.NoFault? && clean ==> (report.writeApplied <==> FlashCarries(l, platform, e, rec0, areas0, light0)))
    && (c.fault.NoFault? && clean && !report.writeApplied ==>
          && (report.rollbackSucceeded <==> FlashCarriesBack(l, platform, e, rec0, areas0, light0))
          && OldRecordFirst(l, platform, e, rec0, areas0, light0, c.log, |log0|))
  }

  /** An edit of what was read that was accepted and planned. */
  ghost predicate Edited(l: Layout, platform: Byte, e: Profile, rec0: seq<Byte>, areas0: seq<seq<Byte>>, light0: Byte)
    requires KnownLayout(l) && |rec0| == l.size && Areas(areas0)
  {
    var w := ProfileOf(l, rec0, areas0, light0);
    PlanReady(l, platform, rec0, e, w) && Ready(l, e.macros, w.macros)
  }

  /** What an applied edit left: in every span it changes the record it asks for, every changed macro's steps and the effect. */
  ghost predicate Applied(c: Controller, l: Layout, platform: Byte, e: Profile, rec0: seq<Byte>, areas0: seq<seq<Byte>>, light0: Byte)
    requires KnownLayout(l) && |rec0| == l.size && Areas(areas0) && c.Valid()
    reads c
  {
    && Edited(l, platform, e, rec0, areas0, light0)
    && var w := ProfileOf(l, rec0, areas0, light0);
       var spans, effect := PlannedSpans(l, platform, rec0, e, w), EffectFor(l, e, w.effect);
       && AgreesOn(PlannedRecord(l, platform, rec0, e, w), c.stored, spans, |spans|)
       && StepsThere(l, platform, e.macros, w.macros, c.macros, l.slots)
       && if effect == w.effect then c.light == light0 else ShownEffect(c.light) == effect
  }

  /** And nothing else, if the check proves the whole record: what no edit is about is as it was. */
  ghost predicate AppliedOnly(c: Controller, l: Layout, platform: Byte, e: Profile, rec0: seq<Byte>, areas0: seq<seq<Byte>>, light0: Byte)
    requires KnownLayout(l) && |rec0| == l.size && Areas(areas0) && c.Valid()
    reads c
  {
    && Edited(l, platform, e, rec0, areas0, light0)
    && var w := ProfileOf(l, rec0, areas0, light0);
       && c.Clean() && RegionsKept(l, e.macros, w.macros, areas0, c.macros)
       && (WholeChecked(l, c.fault) ==> c.stored == PlannedRecord(l, platform, rec0, e, w))
  }

  /** What a rollback that succeeded left: in every span the edit changes what there was, and the old steps and effect. */
  ghost predicate Undone(c: Controller, l: Layout, platform: Byte, e: Profile, rec0: seq<Byte>, areas0: seq<seq<Byte>>, light0: Byte)
    requires KnownLayout(l) && |rec0| == l.size && Areas(areas0) && c.Valid()
    reads c
  {
    && Edited(l, platform, e, rec0, areas0, light0)
    && var w := ProfileOf(l, rec0, areas0, light0);
       var spans := PlannedSpans(l, platform, rec0, e, w);
       && AgreesOn(rec0, c.stored, spans, |spans|) && StepsThere(l, platform, w.macros, e.macros, c.macros, l.slots)
       && if EffectFor(l, e, w.effect) == w.effect then c.light == light0 else ShownEffect(c.light) == w.effect
  }

  /** No commit since from put a changed record in place before every changed macro's steps were. */
  ghost predicate HeadersAfterSteps(l: Layout, platform: Byte, e: Profile, rec0: seq<Byte>, areas0: seq<seq<Byte>>, light0: Byte,
    log: seq<Snapshot>, from: nat)
    requires KnownLayout(l) && |rec0| == l.size && Areas(areas0)
  {
    && Edited(l, platform, e, rec0, areas0, light0)
    && HeadersLast(l, platform, e.macros, ProfileOf(l, rec0, areas0, light0).macros, rec0, log, from)
  }

  /** Whether fault-free flash and lights carry the edit. */
  ghost predicate FlashCarries(l: Layout, platform: Byte, e: Profile, rec: seq<Byte>, areas: seq<seq<Byte>>, light: Byte)
    requires KnownLayout(l) && |rec| == l.size && Areas(areas)
  {
    && Edited(l, platform, e, rec, areas, light)
    && var w := ProfileOf(l, rec, areas, light);
       Takes(l, platform, e.macros, w.macros, EffectFor(l, e, w.effect), w.effect, areas)
  }

  /** Whether they carry what there was back. */
  ghost predicate FlashCarriesBack(l: Layout, platform: Byte, e: Profile, rec: seq<Byte>, areas: seq<seq<Byte>>, light: Byte)
    requires KnownLayout(l) && |rec| == l.size && Areas(areas)
  {
    && Edited(l, platform, e, rec, areas, light)
    && var w := ProfileOf(l, rec, areas, light);
       TakesBack(l, platform, e.macros, w.macros, EffectFor(l, e, w.effect), w.effect, areas)
  }

  /** Where the edit changed the record, a rollback commits the old one over what the edit left of the macros. */
  ghost predicate OldRecordFirst(l: Layout, platform: Byte, e: Profile, rec: seq<Byte>, areas: seq<seq<Byte>>, light: Byte,
    log: seq<Snapshot>, from: nat)
    requires KnownLayout(l) && |rec| == l.size && Areas(areas)
  {
    && Edited(l, platform, e, rec, areas, light)
    && var w := ProfileOf(l, rec, areas, light);
       PlannedSpans(l, platform, rec, e, w) != [] ==>
         from <= |log| && Snapshot(rec, Written(l, platform, areas, e.macros, w.macros, l.slots)) in log[from..]
  }

  lemma NothingToFlash(l: Layout, platform: Byte, macros: seq<seq<Macro>>, areas: seq<seq<Byte>>)
    requires MacrosShaped(l, macros) && AllMacrosFit(l, macros) && Areas(areas)
    ensures AllFlashTakes(l, platform, areas, macros, macros, l.slots)
  {
  }

  lemma NothingToWrite(l: Layout, platform: Byte, macros: seq<seq<Macro>>, areas: seq<seq<Byte>>)
    requires MacrosShaped(l, macros) && AllMacrosFit(l, macros) && Areas(areas)
    ensures RegionsKept(l, macros, macros, areas, areas) && StepsThere(l, platform, macros, macros, areas, l.slots)
  {
  }

  /** A rollback that succeeded leaves a profile that reads as it did. */
  lemma RestoredProfile(l: Layout, platform: Byte, e: Profile, rec0: seq<Byte>, areas0: seq<seq<Byte>>, light0: Byte,
    areas: seq<seq<Byte>>, light: Byte)
    requires KnownLayout(l) && |rec0| == l.size && Areas(areas0) && Areas(areas) && PlatformOf(l, rec0) == platform
    requires MacrosShaped(l, e.macros) && MacrosShaped(l, ProfileOf(l, rec0, areas0, light0).macros)
    requires AllMacrosFit(l, ProfileOf(l, rec0, areas0, light0).macros)
    requires RegionsKept(l, e.macros, ProfileOf(l, rec0, areas0, light0).macros, areas0, areas)
    requires StepsThere(l, platform, ProfileOf(l, rec0, areas0, light0).macros, e.macros, areas, l.slots)
    requires if EffectFor(l, e, ProfileOf(l, rec0, areas0, light0).effect) == ProfileOf(l, rec0, areas0, light0).effect
             then light == light0 else ShownEffect(light) == ProfileOf(l, rec0, areas0, light0).effect
    ensures ProfileOf(l, rec0, areas, light) == ProfileOf(l, rec0, areas0, light0)
  {
    hide KnownLayout, DecodeSlot, AllMacros, PlatformOf, StepsThere, RegionsKept, AllMacrosFit;
    RestoredReads(l, rec0, areas0, areas, e.macros);
  }

  /** Storage that carried an edit reads as the edit's steps. */
  lemma CarriedReads(l: Layout, platform: Byte, header: seq<Byte>, e: seq<Macro>, w: seq<Macro>, a: seq<Byte>, b: seq<Byte>, j: nat)
    requires |e| == |w| == MACROS && MacrosFit(e) && |header| == HEADER && |a| == |b| == AREA && j < MACROS && !e[j].Empty()
    requires w[j] == DecodeMacro(l, platform, header, j, a)
    requires Untouched(e, w, a, b) && HoldsChanging(l, platform, b, e, w)
    ensures ReadsSteps(l, platform, b, j, e[j].steps)
  {
    hide StepsDecoded, StepsEncoded, Names.DecodeName, CanTrigger, TriggerIn, Word32, Region;
    if e[j].steps == w[j].steps {
      assert |w[j].steps| == CountIn(header) as int;
      RegionReads(l, platform, a, b, j, CountIn(header));
    } else {
      HeldStepsRead(l, platform, b, j, e[j].steps);
    }
  }

  /** Where an edit left a slot's macros alone, they read as they did. */
  lemma UneditedMacros(l: Layout, platform: Byte, e: Profile, rec0: seq<Byte>, areas0: seq<seq<Byte>>, light0: Byte, areas: seq<seq<Byte>>, k: nat)
    requires KnownLayout(l) && |rec0| == l.size && Areas(areas0) && Areas(areas) && k < l.slots <= PAD_SLOTS
    requires PlanReady(l, platform, rec0, e, ProfileOf(l, rec0, areas0, light0))
    requires MacrosShaped(l, e.macros) && MacrosShaped(l, ProfileOf(l, rec0, areas0, light0).macros)
    requires RegionsKept(l, e.macros, ProfileOf(l, rec0, areas0, light0).macros, areas0, areas)
    requires e.macros[k] == ProfileOf(l, rec0, areas0, light0).macros[k]
    ensures MacrosOf(l, PlannedRecord(l, platform, rec0, e, ProfileOf(l, rec0, areas0, light0)), areas[k], k) == e.macros[k]
  {
    var w := ProfileOf(l, rec0, areas0, light0);
    PlannedMacros(l, platform, rec0, e, w, k);
    MacrosAre(l, rec0, areas0, k);
    hide KnownLayout, DecodeSection, PlatformOf, PlannedRecord, PlanReady, MacroSection, AllMacros, Untouched;
    SectionReadsSame(l, platform, MacroSection(l, rec0, k), e.macros[k], areas0[k], areas[k]);
  }

  /**
   After an applied edit, each macro of a slot whose macros were edited reads as the edit has it,
   exactly when its name can be stored and its repeat count fits; an emptied one reads as none.
   */
  lemma EditedMacro(l: Layout, platform: Byte, e: Profile, rec0: seq<Byte>, areas0: seq<seq<Byte>>, light0: Byte, areas: seq<seq<Byte>>, k: nat, j: nat)
    requires KnownLayout(l) && |rec0| == l.size && Areas(areas0) && Areas(areas) && k < l.slots <= PAD_SLOTS && j < MACROS
    requires PlanReady(l, platform, rec0, e, ProfileOf(l, rec0, areas0, light0))
    requires MacrosShaped(l, e.macros) && MacrosShaped(l, ProfileOf(l, rec0, areas0, light0).macros) && AllMacrosFit(l, e.macros)
    requires RegionsKept(l, e.macros, ProfileOf(l, rec0, areas0, light0).macros, areas0, areas)
    requires StepsThere(l, platform, e.macros, ProfileOf(l, rec0, areas0, light0).macros, areas, l.slots)
    requires e.macros[k] != ProfileOf(l, rec0, areas0, light0).macros[k]
    ensures MacrosOf(l, PlannedRecord(l, platform, rec0, e, ProfileOf(l, rec0, areas0, light0)), areas[k], k)[j] == NormalMacro(e.macros[k][j])
       <==> Rereadable(e.macros[k][j])
  {
    var w := ProfileOf(l, rec0, areas0, light0);
    PlannedMacros(l, platform, rec0, e, w, k);
    MacrosAre(l, rec0, areas0, k);
    assert MacrosAccepted(l, e, w, k);
    assert MacroValid(l, e.macros[k][j]);
    hide KnownLayout, PlatformOf, PlannedRecord, PlanReady, MacroSection, AllMacros, Untouched, HoldsChanging, AllMacrosFit;
    hide DecodeSection, EncodeSection, MacroValid, ProfileOf, ReadsSteps, Rereadable, NormalMacro;
    if !e.macros[k][j].Empty() {
      SlotCarried(l, platform, MacroSection(l, rec0, k), e.macros[k], areas0[k], areas[k], j);
    }
    SectionMacro(l, platform, e.macros[k], areas[k], j);
  }

  /** One macro of an encoded section, its steps in storage, reads back exactly when its header can carry it. */
  lemma SectionMacro(l: Layout, platform: Byte, macros: seq<Macro>, area: seq<Byte>, j: nat)
    requires SectionFits(macros) && j < MACROS && |area| == AREA && MacroValid(l, macros[j])
    requires !macros[j].Empty() ==> ReadsSteps(l, platform, area, j, macros[j].steps)
    ensures DecodeSection(l, platform, EncodeSection(l, platform, macros), area)[j] == NormalMacro(macros[j]) <==> Rereadable(macros[j])
  {
    SectionHeader(l, platform, macros, j);
    hide EncodeSection, HeaderFor, DecodeMacro, HeaderIn, MacroValid, Word32, Names.Storable, ReadsSteps;
    if macros[j].Empty() {
      NoMacroRoundTrip(l, platform, j, macros[j], area);
    } else {
      MacroRoundTrip(l, platform, j, macros[j], area);
    }
  }

  lemma SlotCarried(l: Layout, platform: Byte, section: seq<Byte>, e: seq<Macro>, a: seq<Byte>, b: seq<Byte>, j: nat)
    requires |section| == SECTION && |e| == MACROS && MacrosFit(e) && |a| == |b| == AREA && j < MACROS && !e[j].Empty()
    requires Untouched(e, DecodeSection(l, platform, section, a), a, b)
    requires HoldsChanging(l, platform, b, e, DecodeSection(l, platform, section, a))
    ensures ReadsSteps(l, platform, b, j, e[j].steps)
  {
    hide DecodeMacro, HeaderIn, Region, HoldsSteps, Word32, ReadsSteps;
    var w := DecodeSection(l, platform, section, a);
    if Word32(section) == IN_USE {
      CarriedReads(l, platform, HeaderIn(section, j), e, w, a, b, j);
    } else {
      HeldStepsRead(l, platform, b, j, e[j].steps);
    }
  }
}

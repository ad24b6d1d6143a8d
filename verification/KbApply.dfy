/**
 Applying an edited profile to a record keyboard that may mistreat any write: read, keep the old
 state, write what changed, read it back, and write the old state back when anything fails.
 */
module KbApply {
  import opened Bytes
  import opened Names
  import opened Patch
  import opened KbTargets
  import opened KbLighting
  import opened KbCodec
  import KbMacros
  import opened KbDevice
  import opened KbProfile

  datatype Report = Report(writeApplied: bool, rollbackAttempted: bool, rollbackSucceeded: bool)

  // ---- Writing with a readback

  ghost predicate SameOutsideSpans(a: seq<Byte>, b: seq<Byte>, spans: seq<Span>) {
    |a| == |b| && forall i :: 0 <= i < |a| && !Covered(i, spans) ==> a[i] == b[i]
  }

  /** The span reads the same in both. */
  ghost predicate SameIn(a: seq<Byte>, b: seq<Byte>, s: Span) {
    s.offset + s.length <= |a| == |b| && a[s.offset..s.offset + s.length] == b[s.offset..s.offset + s.length]
  }

  ghost predicate SameInAll(a: seq<Byte>, b: seq<Byte>, spans: seq<Span>) {
    forall n :: 0 <= n < |spans| ==> SameIn(a, b, spans[n])
  }

  /** Agreement inside the spans and outside them is agreement everywhere. */
  lemma InsideAndOutside(stored: seq<Byte>, wanted: seq<Byte>, was: seq<Byte>, spans: seq<Span>)
    requires SameOutsideSpans(was, stored, spans) && SameOutsideSpans(was, wanted, spans)
    requires SameInAll(stored, wanted, spans)
    ensures stored == wanted
  {
    forall i | 0 <= i < |stored|
      ensures stored[i] == wanted[i]
    {
      if Covered(i, spans) {
        var n :| 0 <= n < |spans| && InSpan(i, spans[n]);
        var s := spans[n];
        assert SameIn(stored, wanted, s);
        assert stored[s.offset..s.offset + s.length][i - s.offset] == wanted[s.offset..s.offset + s.length][i - s.offset];
      }
    }
  }

  lemma OutsideOneSpan(a: seq<Byte>, b: seq<Byte>, spans: seq<Span>, n: nat)
    requires n < |spans| && SameOutside(a, b, spans[n].offset, spans[n].length)
    ensures SameOutsideSpans(a, b, spans)
  {
    forall i | 0 <= i < |a| && !Covered(i, spans)
      ensures a[i] == b[i]
    {
      assert !InSpan(i, spans[n]);
    }
  }

  lemma SpanFits(size: nat, spans: seq<Span>, n: nat)
    requires SpansFit(size, spans) && n < |spans|
    ensures spans[n].offset + spans[n].length <= size
  {
  }

  /** Writing one more span of a record keeps the ones before it, even where they meet. */
  lemma OneMoreSpan(was: seq<Byte>, now: seq<Byte>, record: seq<Byte>, spans: seq<Span>, n: nat)
    requires n < |spans| && SameOutside(was, now, spans[n].offset, spans[n].length) && SameIn(now, record, spans[n])
    requires SameInAll(was, record, spans[..n])
    ensures SameInAll(now, record, spans[..n + 1])
  {
    forall m | 0 <= m < n
      ensures SameIn(now, record, spans[m])
    {
      var s, t := spans[m], spans[n];
      assert SameIn(was, record, spans[..n][m]);
      forall i | s.offset <= i < s.offset + s.length
        ensures now[i] == record[i]
      {
        assert was[s.offset..s.offset + s.length][i - s.offset] == record[s.offset..s.offset + s.length][i - s.offset];
        if InSpan(i, t) {
          assert now[t.offset..t.offset + t.length][i - t.offset] == record[t.offset..t.offset + t.length][i - t.offset];
        }
      }
    }
  }

  /** Writes the spans of a record, then checks the keyboard holds them. */
  method WriteSpans(k: Keyboard, record: seq<Byte>, spans: seq<Span>) returns (ok: bool)
    requires k.Valid() && |record| == RECORD_SIZE && SpansFit(RECORD_SIZE, spans)
    modifies k
    ensures k.Valid() && k.macros == old(k.macros) && k.lights == old(k.lights)
    ensures SameOutsideSpans(old(k.record), k.record, spans)
    ensures ok ==> SameInAll(k.record, record, spans)
    ensures k.refused <= old(k.refused) + 1 && (ok ==> k.refused == old(k.refused))
    ensures k.sound ==> ok
  {
    hide SpansFit;
    for n := 0 to |spans|
      invariant k.Valid() && k.macros == old(k.macros) && k.lights == old(k.lights) && k.refused == old(k.refused)
      invariant SameOutsideSpans(old(k.record), k.record, spans)
      invariant k.sound ==> SameInAll(k.record, record, spans[..n])
    {
      var s := spans[n];
      SpanFits(RECORD_SIZE, spans, n);
      ghost var was := k.record;
      var wrote := WriteChunks(k, RecordArea, s.offset, record[s.offset..s.offset + s.length]);
      OutsideOneSpan(was, k.record, spans, n);
      if !wrote { return false; }
      if k.sound { OneMoreSpan(was, k.record, record, spans, n); }
    }
    assert spans[..|spans|] == spans;
    ok := CheckSpans(k, record, spans);
  }

  /** Reads the spans back and compares them. */
  method CheckSpans(k: Keyboard, record: seq<Byte>, spans: seq<Span>) returns (ok: bool)
    requires k.Valid() && |record| == RECORD_SIZE && SpansFit(RECORD_SIZE, spans)
    ensures ok ==> SameInAll(k.record, record, spans)
    ensures k.sound && SameInAll(k.record, record, spans) ==> ok
  {
    for n := 0 to |spans|
      invariant forall m :: 0 <= m < n ==> SameIn(k.record, record, spans[m])
    {
      var s := spans[n];
      var got := ReadChunks(k, RecordArea, s.offset, s.length);
      if got.None? || got.value != record[s.offset..s.offset + s.length] { return false; }
    }
    return true;
  }

  /** Replaces the per-key colour block and checks the keyboard holds it. */
  method WriteLights(k: Keyboard, block: seq<Byte>) returns (ok: bool)
    requires k.Valid() && |block| == |k.lights|
    modifies k
    ensures k.Valid() && k.record == old(k.record) && k.macros == old(k.macros)
    ensures ok ==> k.lights == block
    ensures k.refused <= old(k.refused) + 1 && (ok ==> k.refused == old(k.refused))
    ensures k.sound ==> ok
  {
    var ready := k.Prepare(LightsArea, 0);
    if ready.None? { return false; }
    var wrote := WriteChunks(k, LightsArea, 0, block);
    if !wrote { return false; }
    var got := ReadChunks(k, LightsArea, 0, |block|);
    assert k.lights == k.lights[0..|block|];
    return got == Some(block);
  }

  /** An image that fits a slot. */
  predicate ImageFits(l: Layout, image: KbMacros.Image) {
    |image.header| == KbMacros.HEADER && |image.steps| % 4 == 0 && 0 < |image.steps| / 4 <= l.macroCapacity
  }

  /** Two macro stores that agree in every slot but one. */
  ghost predicate OtherSlotsSame(l: Layout, a: seq<Byte>, b: seq<Byte>, slot: nat) {
    SameOutside(a, b, slot * l.macroSlotSize, l.macroSlotSize)
  }

  lemma BeforeKept(a: seq<Byte>, b: seq<Byte>, from: nat, len: nat, at: nat, n: nat)
    requires SameOutside(a, b, from, len) && at + n <= from && at + n <= |a|
    ensures b[at..at + n] == a[at..at + n]
  {
  }

  /** Prepares a slot, writes a macro's header and steps, and checks the keyboard holds them. */
  method WriteMacro(k: Keyboard, slot: nat, image: KbMacros.Image) returns (ok: bool)
    requires k.Valid() && slot < k.layout.macroSlots && ImageFits(k.layout, image)
    modifies k
    ensures k.Valid() && k.record == old(k.record) && k.lights == old(k.lights)
    ensures OtherSlotsSame(k.layout, old(k.macros), k.macros, slot)
    ensures ok ==> KbMacros.SlotHolds(k.layout, k.macros, slot, image)
    ensures k.refused <= old(k.refused) + 1 && (ok ==> k.refused == old(k.refused))
    ensures k.sound ==> ok
  {
    var l := k.layout;
    KbMacros.SlotFits(l, slot);
    var at, stepsAt := slot * l.macroSlotSize, slot * l.macroSlotSize + KbMacros.STEPS_AT;
    var ready := k.Prepare(MacroArea, at);
    SlotNumber(l, slot);
    if ready.None? { return false; }
    var wroteHeader := WriteChunks(k, MacroArea, at, image.header);
    if !wroteHeader { return false; }
    ghost var withHeader := k.macros;
    var wroteSteps := WriteChunks(k, MacroArea, stepsAt, image.steps);
    if !wroteSteps { return false; }
    BeforeKept(withHeader, k.macros, stepsAt, |image.steps|, at, KbMacros.HEADER);
    var header := ReadChunks(k, MacroArea, at, |image.header|);
    if header != Some(image.header) { return false; }
    var steps := ReadChunks(k, MacroArea, stepsAt, |image.steps|);
    if steps != Some(image.steps) { return false; }
    assert KbMacros.StepsAt(l, k.macros, slot, |image.steps| / 4) == image.steps;
    return true;
  }

  lemma SlotNumber(l: Layout, slot: nat)
    requires KnownLayout(l)
    ensures slot * l.macroSlotSize / l.macroSlotSize == slot
  {
  }

  // ---- Slots of the macro storage

  function SlotBytes(l: Layout, area: seq<Byte>, slot: nat): (b: seq<Byte>)
    requires KnownLayout(l) && KbMacros.StorageOk(l, area) && slot < l.macroSlots
  {
    KbMacros.SlotFits(l, slot);
    area[slot * l.macroSlotSize..slot * l.macroSlotSize + l.macroSlotSize]
  }

  lemma OtherSlotKept(l: Layout, a: seq<Byte>, b: seq<Byte>, slot: nat, other: nat)
    requires KnownLayout(l) && KbMacros.StorageOk(l, a) && KbMacros.StorageOk(l, b)
    requires slot < l.macroSlots && other < l.macroSlots && slot != other && OtherSlotsSame(l, a, b, slot)
    ensures SlotBytes(l, a, other) == SlotBytes(l, b, other)
  {
    KbMacros.SlotFits(l, other);
  }

  lemma WithinSlot(l: Layout, area: seq<Byte>, slot: nat)
    requires KnownLayout(l) && KbMacros.StorageOk(l, area) && slot < l.macroSlots
    ensures KbMacros.HeaderAt(l, area, slot) == SlotBytes(l, area, slot)[0..0 + KbMacros.HEADER]
    ensures forall count :: 0 <= count <= l.macroCapacity ==>
              KbMacros.StepsAt(l, area, slot, count) == SlotBytes(l, area, slot)[KbMacros.STEPS_AT..KbMacros.STEPS_AT + 4 * count]
  {
    KbMacros.SlotFits(l, slot);
    SliceOfSlice(area, slot * l.macroSlotSize, l.macroSlotSize, 0, KbMacros.HEADER);
    hide KbMacros.StepsAt, SlotBytes;
    forall count | 0 <= count <= l.macroCapacity
      ensures KbMacros.StepsAt(l, area, slot, count) == SlotBytes(l, area, slot)[KbMacros.STEPS_AT..KbMacros.STEPS_AT + 4 * count]
    {
      StepsWithin(l, area, slot, count);
    }
  }

  lemma StepsWithin(l: Layout, area: seq<Byte>, slot: nat, count: nat)
    requires KnownLayout(l) && KbMacros.StorageOk(l, area) && slot < l.macroSlots && count <= l.macroCapacity
    ensures KbMacros.STEPS_AT + 4 * count <= |SlotBytes(l, area, slot)|
    ensures KbMacros.StepsAt(l, area, slot, count) == SlotBytes(l, area, slot)[KbMacros.STEPS_AT..KbMacros.STEPS_AT + 4 * count]
  {
    KbMacros.SlotFits(l, slot);
    var at, size := slot * l.macroSlotSize, l.macroSlotSize;
    assert at + size <= |area| && KbMacros.STEPS_AT + 4 * count <= size;
    SliceOfSlice(area, at, size, KbMacros.STEPS_AT, 4 * count);
  }

  /** What a slot holds and reads as depends on that slot's bytes alone. */
  lemma SlotAlone(l: Layout, a: seq<Byte>, b: seq<Byte>, slot: nat)
    requires KnownLayout(l) && KbMacros.StorageOk(l, a) && KbMacros.StorageOk(l, b) && slot < l.macroSlots
    requires SlotBytes(l, a, slot) == SlotBytes(l, b, slot)
    ensures KbMacros.HeaderAt(l, a, slot) == KbMacros.HeaderAt(l, b, slot)
    ensures forall count :: 0 <= count <= l.macroCapacity ==>
              KbMacros.StepsAt(l, a, slot, count) == KbMacros.StepsAt(l, b, slot, count)
    ensures KbMacros.MacroAt(l, a, slot) == KbMacros.MacroAt(l, b, slot)
  {
    hide KbMacros.DecodeMacro, KbMacros.StepCount, KbMacros.HeaderAt, KbMacros.StepsAt, SlotBytes;
    WithinSlot(l, a, slot);
    WithinSlot(l, b, slot);
  }

  /** A macro to put in a slot; None leaves the slot as it is. */
  datatype Store = Store(slot: nat, image: Option<KbMacros.Image>)

  predicate StoreOk(l: Layout, s: Store) {
    s.slot < l.macroSlots && (s.image.Some? ==> ImageFits(l, s.image.value))
  }

  ghost predicate StoresOk(l: Layout, stores: seq<Store>) {
    && (forall n :: 0 <= n < |stores| ==> StoreOk(l, stores[n]))
    && (forall m, n :: 0 <= m < n < |stores| ==> stores[m].slot < stores[n].slot)
  }

  ghost predicate Mentions(stores: seq<Store>, slot: nat) {
    exists n :: 0 <= n < |stores| && stores[n].slot == slot
  }

  /** The first n stores are held. */
  ghost predicate HeldUpTo(l: Layout, area: seq<Byte>, stores: seq<Store>, n: nat)
    requires KnownLayout(l) && KbMacros.StorageOk(l, area) && StoresOk(l, stores) && n <= |stores|
  {
    forall m :: 0 <= m < n && stores[m].image.Some? ==> KbMacros.SlotHolds(l, area, stores[m].slot, stores[m].image.value)
  }

  ghost predicate UnmentionedSame(l: Layout, a: seq<Byte>, b: seq<Byte>, stores: seq<Store>)
    requires KnownLayout(l) && KbMacros.StorageOk(l, a) && KbMacros.StorageOk(l, b)
  {
    forall slot :: 0 <= slot < l.macroSlots && !Mentions(stores, slot) ==> SlotBytes(l, a, slot) == SlotBytes(l, b, slot)
  }

  /** One more store keeps the earlier ones and every slot not mentioned. */
  lemma StoreKeepsOthers(l: Layout, start: seq<Byte>, before: seq<Byte>, after: seq<Byte>, stores: seq<Store>, n: nat)
    requires KnownLayout(l) && KbMacros.StorageOk(l, start) && KbMacros.StorageOk(l, before) && KbMacros.StorageOk(l, after)
    requires StoresOk(l, stores) && n < |stores|
    requires HeldUpTo(l, before, stores, n) && UnmentionedSame(l, start, before, stores)
    requires OtherSlotsSame(l, before, after, stores[n].slot)
    ensures HeldUpTo(l, after, stores, n) && UnmentionedSame(l, start, after, stores)
  {
    hide SlotBytes, OtherSlotsSame;
    forall m | 0 <= m < n && stores[m].image.Some?
      ensures KbMacros.SlotHolds(l, after, stores[m].slot, stores[m].image.value)
    {
      OtherSlotKept(l, before, after, stores[n].slot, stores[m].slot);
      SlotAlone(l, before, after, stores[m].slot);
      assert StoreOk(l, stores[m]);
    }
    forall slot | 0 <= slot < l.macroSlots && !Mentions(stores, slot)
      ensures SlotBytes(l, start, slot) == SlotBytes(l, after, slot)
    {
      assert StoreOk(l, stores[n]) && slot != stores[n].slot;
      OtherSlotKept(l, before, after, stores[n].slot, slot);
    }
  }

  /** Stores macros slot by slot, stopping at the first that fails. */
  method StoreMacros(k: Keyboard, stores: seq<Store>) returns (ok: bool)
    requires k.Valid() && StoresOk(k.layout, stores)
    modifies k
    ensures k.Valid() && k.record == old(k.record) && k.lights == old(k.lights)
    ensures UnmentionedSame(k.layout, old(k.macros), k.macros, stores)
    ensures ok ==> HeldUpTo(k.layout, k.macros, stores, |stores|)
    ensures k.refused <= old(k.refused) + 1 && (ok ==> k.refused == old(k.refused))
    ensures k.sound ==> ok
  {
    hide KbMacros.SlotHolds, OtherSlotsSame;
    for n := 0 to |stores|
      invariant k.Valid() && k.record == old(k.record) && k.lights == old(k.lights) && k.refused == old(k.refused)
      invariant UnmentionedSame(k.layout, old(k.macros), k.macros, stores)
      invariant HeldUpTo(k.layout, k.macros, stores, n)
    {
      assert StoreOk(k.layout, stores[n]);
      if stores[n].image.Some? {
        ghost var was := k.macros;
        var wrote := WriteMacro(k, stores[n].slot, stores[n].image.value);
        StoreKeepsOthers(k.layout, old(k.macros), was, k.macros, stores, n);
        if !wrote { return false; }
      }
    }
    return true;
  }

  // ---- What an edit asks for

  function Spans(l: Layout, before: Profile, e: Profile): seq<Span>
    requires KnownLayout(l) && |before.record| == RECORD_SIZE && Shaped(before.fields) && Shaped(e.fields)
  {
    EncodedSpans(l, Base(l, before.record), e.fields, before.fields)
  }

  ghost predicate LightsAccepted(l: Layout, before: Profile, e: Profile)
    requires BlockOk(l, before.lights)
  {
    e.perKey == before.perKey || PerKeyAccepted(l, before.lights, e.perKey, before.perKey)
  }

  ghost function WantedLights(l: Layout, before: Profile, e: Profile): (b: seq<Byte>)
    requires BlockOk(l, before.lights) && LightsAccepted(l, before, e)
    ensures BlockOk(l, b)
  {
    if e.perKey == before.perKey then before.lights else PerKeyBlock(l, before.lights, e.perKey, before.perKey)
  }

  ghost predicate Editable(l: Layout, before: Profile, e: Profile) {
    && KnownLayout(l) && |before.record| == RECORD_SIZE && BlockOk(l, before.lights)
    && before.inUse == InUse(before.record)
    && Shaped(before.fields) && Shaped(e.fields)
    && |before.macros| == |e.macros| == KbMacros.MACRO_SLOTS_MAX
  }

  /** The edit is one this keyboard can take. */
  ghost predicate Accepts(l: Layout, before: Profile, e: Profile)
    requires Editable(l, before, e)
  {
    && Accepted(l, Base(l, before.record), e.fields, before.fields)
    && LightsAccepted(l, before, e)
    && KbMacros.PlanOk(l, Played(e), Played(before), l.macroSlots)
    && (before.inUse || Nothing(l, before, e) || (!l.iso && e.fields.name != []))
  }

  function Writes(l: Layout, before: Profile, e: Profile): seq<KbMacros.MacroWrite>
    requires l.macroSlots <= |before.macros| && l.macroSlots <= |e.macros|
  {
    KbMacros.WritesFor(l, Played(e), Played(before), l.macroSlots)
  }

  /** The edit changes nothing the keyboard holds. */
  ghost predicate Nothing(l: Layout, before: Profile, e: Profile)
    requires Editable(l, before, e) && LightsAccepted(l, before, e)
  {
    Spans(l, before, e) == [] && WantedLights(l, before, e) == before.lights && Writes(l, before, e) == []
  }

  /** The record the keyboard holds once the edit is applied. */
  ghost function WantedRecord(l: Layout, before: Profile, e: Profile): (r: seq<Byte>)
    requires Editable(l, before, e) && LightsAccepted(l, before, e)
    ensures |r| == RECORD_SIZE
  {
    var encoded := Encoded(l, Base(l, before.record), e.fields, before.fields);
    if before.inUse then encoded
    else if Nothing(l, before, e) then before.record
    else Le32(IN_USE) + encoded[4..]
  }

  /** Every slot the edit stores a macro in holds it; every other slot is untouched. */
  ghost predicate MacrosStored(l: Layout, was: seq<Byte>, now: seq<Byte>, before: Profile, e: Profile)
    requires Editable(l, before, e) && KbMacros.StorageOk(l, was) && KbMacros.StorageOk(l, now)
  {
    forall slot :: 0 <= slot < l.macroSlots ==> SlotStored(l, was, now, slot, NeedOf(l, before, e, slot))
  }

  /** The write a slot needs, if it needs one. */
  function NeedOf(l: Layout, before: Profile, e: Profile, slot: nat): Option<KbMacros.MacroWrite>
    requires slot < |before.macros| && slot < |e.macros|
  {
    match KbMacros.SlotPlan(l, Played(e), Played(before), slot)
    case Ok(need) => need
    case Err => None
  }

  ghost predicate SlotStored(l: Layout, was: seq<Byte>, now: seq<Byte>, slot: nat, need: Option<KbMacros.MacroWrite>)
    requires KnownLayout(l) && KbMacros.StorageOk(l, was) && KbMacros.StorageOk(l, now) && slot < l.macroSlots
  {
    if need.Some? then ImageFits(l, need.value.image) && KbMacros.SlotHolds(l, now, slot, need.value.image)
    else SlotBytes(l, was, slot) == SlotBytes(l, now, slot)
  }

  ghost predicate SlotRestored(l: Layout, was: seq<Byte>, now: seq<Byte>, slot: nat, need: Option<KbMacros.MacroWrite>)
    requires KnownLayout(l) && KbMacros.StorageOk(l, was) && KbMacros.StorageOk(l, now) && slot < l.macroSlots
  {
    if need.Some? then
      need.value.was.Some? ==>
        ImageFits(l, need.value.was.value) && KbMacros.SlotHolds(l, now, slot, need.value.was.value)
    else SlotBytes(l, was, slot) == SlotBytes(l, now, slot)
  }

  /**
   Every slot the edit was to store a macro in holds the macro a key played there before, where one
   did; every other slot is untouched.
   */
  ghost predicate MacrosRestored(l: Layout, was: seq<Byte>, now: seq<Byte>, before: Profile, e: Profile)
    requires Editable(l, before, e) && KbMacros.StorageOk(l, was) && KbMacros.StorageOk(l, now)
  {
    forall slot :: 0 <= slot < l.macroSlots ==> SlotRestored(l, was, now, slot, NeedOf(l, before, e, slot))
  }

  function NewStores(writes: seq<KbMacros.MacroWrite>): (stores: seq<Store>)
    ensures |stores| == |writes|
  {
    seq(|writes|, n requires 0 <= n < |writes| => Store(writes[n].slot, Some(writes[n].image)))
  }

  function OldStores(writes: seq<KbMacros.MacroWrite>): (stores: seq<Store>)
    ensures |stores| == |writes|
  {
    seq(|writes|, n requires 0 <= n < |writes| => Store(writes[n].slot, writes[n].was))
  }

  /** Every macro read from the keyboard fits the fields it is stored in. */
  ghost predicate MacrosFit(l: Layout, p: Profile) {
    forall slot :: 0 <= slot < |p.macros| && p.macros[slot].steps != [] ==> KbMacros.FieldsFit(l, p.macros[slot])
  }

  lemma ReadProfileFits(l: Layout, record: seq<Byte>, area: seq<Byte>, lights: seq<Byte>, e: Profile)
    requires KnownLayout(l) && |record| == RECORD_SIZE && KbMacros.StorageOk(l, area) && BlockOk(l, lights)
    requires Shaped(e.fields) && |e.macros| == KbMacros.MACRO_SLOTS_MAX
    ensures MacrosFit(l, ProfileOf(l, record, area, lights))
    ensures Editable(l, ProfileOf(l, record, area, lights), e)
  {
    hide KbMacros.MacroAt, DecodeFields, DecodePerKey, Base, InUse;
    var p := ProfileOf(l, record, area, lights);
    forall slot | 0 <= slot < |p.macros| && p.macros[slot].steps != []
      ensures KbMacros.FieldsFit(l, p.macros[slot])
    {
      KbMacros.ReadMacroFits(l, area, slot);
    }
  }

  lemma PlannedFits(l: Layout, before: Profile, e: Profile, slot: nat)
    requires Editable(l, before, e) && MacrosFit(l, before) && slot < l.macroSlots
    requires NeedOf(l, before, e, slot).Some?
    ensures var w := NeedOf(l, before, e, slot).value;
            w.slot == slot && ImageFits(l, w.image) && (w.was.Some? ==> ImageFits(l, w.was.value))
  {
    hide KbMacros.FirstPlayer, KbMacros.Players, KbMacros.StepOk, Shaped, BlockOk, InUse;
    var edited, played := Played(e), Played(before);
    var w := NeedOf(l, before, e, slot).value;
    KbMacros.PlayersOfFirst(edited.targets, slot);
    assert KbMacros.MacroOk(l, edited.macros[slot]);
    assert w.image == KbMacros.ImageOf(edited.targets, edited.macros, slot).value;
    assert |w.image.steps| == 4 * |edited.macros[slot].steps|;
    if w.was.Some? {
      assert |w.was.value.steps| == 4 * |played.macros[slot].steps|;
      assert KbMacros.FieldsFit(l, before.macros[slot]);
    }
  }

  lemma StoresFit(l: Layout, before: Profile, e: Profile)
    requires Editable(l, before, e) && MacrosFit(l, before)
    ensures StoresOk(l, NewStores(Writes(l, before, e))) && StoresOk(l, OldStores(Writes(l, before, e)))
  {
    hide ImageFits, KbMacros.SlotPlan, KbMacros.WritesFor, MacrosFit;
    var writes := Writes(l, before, e);
    KbMacros.WritesInOrder(l, Played(e), Played(before), l.macroSlots);
    forall n | 0 <= n < |writes|
      ensures StoreOk(l, NewStores(writes)[n]) && StoreOk(l, OldStores(writes)[n])
    {
      assert KbMacros.WriteOf(l, Played(e), Played(before), writes[n], l.macroSlots);
      assert NeedOf(l, before, e, writes[n].slot) == Some(writes[n]);
      PlannedFits(l, before, e, writes[n].slot);
    }
  }

  lemma OnlyNeededMentioned(l: Layout, before: Profile, e: Profile, slot: nat)
    requires Editable(l, before, e) && slot < l.macroSlots
    ensures Mentions(NewStores(Writes(l, before, e)), slot) <==> NeedOf(l, before, e, slot).Some?
    ensures Mentions(OldStores(Writes(l, before, e)), slot) <==> NeedOf(l, before, e, slot).Some?
  {
    hide KbMacros.SlotPlan, KbMacros.WritesFor, Shaped, BlockOk, InUse;
    var writes := Writes(l, before, e);
    var n := |writes|;
    KbMacros.WritesInOrder(l, Played(e), Played(before), l.macroSlots);
    if NeedOf(l, before, e, slot).Some? {
      var k := KbMacros.WritesComplete(l, Played(e), Played(before), l.macroSlots, slot);
      assert KbMacros.WriteOf(l, Played(e), Played(before), writes[k], l.macroSlots);
      assert NeedOf(l, before, e, slot).value == writes[k];
      assert NewStores(writes)[k].slot == writes[k].slot == OldStores(writes)[k].slot;
      NeedSlot(l, before, e, slot);
    } else {
      forall m | 0 <= m < n
        ensures writes[m].slot != slot
      {
        assert KbMacros.WriteOf(l, Played(e), Played(before), writes[m], l.macroSlots);
      }
    }
  }

  lemma NeedSlot(l: Layout, before: Profile, e: Profile, slot: nat)
    requires slot < |before.macros| && slot < |e.macros| && NeedOf(l, before, e, slot).Some?
    ensures NeedOf(l, before, e, slot).value.slot == slot
  {
  }

  /** The writes are those the slots need. */
  lemma NeededHeld(l: Layout, now: seq<Byte>, before: Profile, e: Profile, slot: nat)
    requires Editable(l, before, e) && MacrosFit(l, before) && KbMacros.StorageOk(l, now) && slot < l.macroSlots
    requires NeedOf(l, before, e, slot).Some?
    ensures StoresOk(l, NewStores(Writes(l, before, e))) && StoresOk(l, OldStores(Writes(l, before, e)))
    ensures HeldUpTo(l, now, NewStores(Writes(l, before, e)), |Writes(l, before, e)|) ==>
              SlotStored(l, now, now, slot, NeedOf(l, before, e, slot))
    ensures HeldUpTo(l, now, OldStores(Writes(l, before, e)), |Writes(l, before, e)|) ==>
              SlotRestored(l, now, now, slot, NeedOf(l, before, e, slot))
  {
    hide KbMacros.SlotPlan, KbMacros.WritesFor, KbMacros.SlotHolds, Shaped, BlockOk, InUse, MacrosFit;
    StoresFit(l, before, e);
    NeedSlot(l, before, e, slot);
    PlannedFits(l, before, e, slot);
    var k := KbMacros.WritesComplete(l, Played(e), Played(before), l.macroSlots, slot);
    var news, olds := NewStores(Writes(l, before, e)), OldStores(Writes(l, before, e));
    assert news[k] == Store(slot, Some(NeedOf(l, before, e, slot).value.image));
    assert olds[k] == Store(slot, NeedOf(l, before, e, slot).value.was);
  }

  lemma StoredOf(l: Layout, was: seq<Byte>, now: seq<Byte>, before: Profile, e: Profile)
    requires Editable(l, before, e) && MacrosFit(l, before) && KbMacros.StorageOk(l, was) && KbMacros.StorageOk(l, now)
    requires StoresOk(l, NewStores(Writes(l, before, e)))
    requires UnmentionedSame(l, was, now, NewStores(Writes(l, before, e)))
    requires HeldUpTo(l, now, NewStores(Writes(l, before, e)), |Writes(l, before, e)|)
    ensures MacrosStored(l, was, now, before, e)
  {
    hide NeedOf, Writes, HeldUpTo, SlotBytes, StoresOk, MacrosFit;
    forall slot | 0 <= slot < l.macroSlots
      ensures SlotStored(l, was, now, slot, NeedOf(l, before, e, slot))
    {
      OnlyNeededMentioned(l, before, e, slot);
      if NeedOf(l, before, e, slot).Some? { NeededHeld(l, now, before, e, slot); }
    }
  }

  lemma RestoredOf(l: Layout, was: seq<Byte>, mid: seq<Byte>, now: seq<Byte>, before: Profile, e: Profile)
    requires Editable(l, before, e) && MacrosFit(l, before)
    requires KbMacros.StorageOk(l, was) && KbMacros.StorageOk(l, mid) && KbMacros.StorageOk(l, now)
    requires StoresOk(l, OldStores(Writes(l, before, e)))
    requires UnmentionedSame(l, was, mid, NewStores(Writes(l, before, e)))
    requires UnmentionedSame(l, mid, now, OldStores(Writes(l, before, e)))
    requires HeldUpTo(l, now, OldStores(Writes(l, before, e)), |Writes(l, before, e)|)
    ensures MacrosRestored(l, was, now, before, e)
  {
    hide NeedOf, Writes, HeldUpTo, SlotBytes, StoresOk, MacrosFit;
    forall slot | 0 <= slot < l.macroSlots
      ensures SlotRestored(l, was, now, slot, NeedOf(l, before, e, slot))
    {
      OnlyNeededMentioned(l, before, e, slot);
      if NeedOf(l, before, e, slot).Some? { NeededHeld(l, now, before, e, slot); }
    }
  }

  // ---- Applying

  /** Writes spans of a record, then the colour block if it is to change, then macros. */
  method WriteParts(k: Keyboard, record: seq<Byte>, spans: seq<Span>, lights: Option<seq<Byte>>, stores: seq<Store>)
    returns (ok: bool)
    requires k.Valid() && |record| == RECORD_SIZE && SpansFit(RECORD_SIZE, spans) && StoresOk(k.layout, stores)
    requires lights.Some? ==> |lights.value| == |k.lights|
    modifies k
    ensures k.Valid() && SameOutsideSpans(old(k.record), k.record, spans)
    ensures lights.None? ==> k.lights == old(k.lights)
    ensures UnmentionedSame(k.layout, old(k.macros), k.macros, stores)
    ensures ok ==> SameInAll(k.record, record, spans) && (lights.Some? ==> k.lights == lights.value)
    ensures ok ==> HeldUpTo(k.layout, k.macros, stores, |stores|)
    ensures k.refused <= old(k.refused) + 1 && (ok ==> k.refused == old(k.refused))
    ensures k.sound ==> ok
  {
    ok := WriteSpans(k, record, spans);
    if ok && lights.Some? { ok := WriteLights(k, lights.value); }
    if ok { ok := StoreMacros(k, stores); }
  }

  datatype Outcome = Refused | Done(report: Report)

  /** A profile given to Apply is shaped like one; everything else about it is checked. */
  predicate ProfileShaped(e: Profile) { Shaped(e.fields) && |e.macros| == KbMacros.MACRO_SLOTS_MAX }

  /**
   Applies an edited profile. Whatever the keyboard does with the writes: a report of success means
   every byte of the record and of the colour block, and every macro stored, is the wanted one; a
   report of a successful rollback means the record and the colour block are byte for byte what was
   read first, and every macro is as MacrosRestored says. Success follows only writes that were all
   acknowledged whole, and a rollback on the first that was not. A sound keyboard takes every edit
   that is accepted.
   */
  method Apply(k: Keyboard, e: Profile) returns (o: Outcome)
    requires k.Valid() && ProfileShaped(e)
    modifies k
    ensures k.Valid()
    ensures o.Refused? ==> k.record == old(k.record) && k.macros == old(k.macros) && k.lights == old(k.lights) && k.refused == old(k.refused)
    ensures o.Done? && o.report.writeApplied ==> k.refused == old(k.refused)
    ensures o.Done? && o.report.rollbackSucceeded ==> k.refused <= old(k.refused) + 1
    ensures o.Done? ==>
              var before := ProfileOf(k.layout, old(k.record), old(k.macros), old(k.lights));
              && Editable(k.layout, before, e) && Accepts(k.layout, before, e)
              && o.report.rollbackAttempted == !o.report.writeApplied
              && (o.report.rollbackSucceeded ==> o.report.rollbackAttempted)
              && (o.report.writeApplied ==>
                    && k.record == WantedRecord(k.layout, before, e)
                    && k.lights == WantedLights(k.layout, before, e)
                    && MacrosStored(k.layout, old(k.macros), k.macros, before, e))
              && (o.report.rollbackSucceeded ==>
                    && k.record == old(k.record) && k.lights == old(k.lights)
                    && MacrosRestored(k.layout, old(k.macros), k.macros, before, e))
    ensures k.sound ==>
              var before := ProfileOf(k.layout, old(k.record), old(k.macros), old(k.lights));
              && Editable(k.layout, before, e)
              && (if Accepts(k.layout, before, e) then o.Done? && o.report.writeApplied else o.Refused?)
  {
    hide ProfileOf, Encoded, EncodedSpans, Base, MacrosStored, MacrosRestored, KbMacros.WritesFor, PerKeyBlock, PerKeyAccepted;
    var l := k.layout;
    var read := ReadProfile(k);
    if read.None? { return Refused; }
    var before := read.value;
    ReadProfileFits(l, k.record, k.macros, k.lights, e);
    ReadParts(l, k.record, k.macros, k.lights);
    StoresFit(l, before, e);

    var planned := Prepare(l, before, e);
    if planned.Err? { return Refused; }
    var Job(record, spans, lights, writes) := planned.value;
    if spans == [] && lights.None? && writes == [] {
      NothingStored(l, k.macros, before, e);
      return Done(Report(true, false, false));
    }
    ghost var stored, slots, lit := k.record, k.macros, k.lights;
    var applied := WriteParts(k, record, spans, lights, NewStores(writes));
    if applied {
      InsideAndOutside(k.record, record, stored, spans);
      StoredOf(l, slots, k.macros, before, e);
      return Done(Report(true, false, false));
    }
    ghost var midRecord, midSlots := k.record, k.macros;
    var restored := WriteParts(k, before.record, spans, if lights.Some? then Some(before.lights) else None, OldStores(writes));
    if restored {
      assert SameOutsideSpans(stored, k.record, spans);
      InsideAndOutside(k.record, before.record, stored, spans);
      RestoredOf(l, slots, midSlots, k.macros, before, e);
    }
    return Done(Report(false, true, restored));
  }

  lemma ReadParts(l: Layout, record: seq<Byte>, area: seq<Byte>, lights: seq<Byte>)
    requires KnownLayout(l) && |record| == RECORD_SIZE && KbMacros.StorageOk(l, area) && BlockOk(l, lights)
    ensures ProfileOf(l, record, area, lights).record == record && ProfileOf(l, record, area, lights).lights == lights
  {
    hide DecodeFields, DecodePerKey, HeardMacros, Base;
  }

  lemma NothingStored(l: Layout, area: seq<Byte>, before: Profile, e: Profile)
    requires Editable(l, before, e) && KbMacros.StorageOk(l, area) && Writes(l, before, e) == []
    ensures MacrosStored(l, area, area, before, e)
  {
    hide NeedOf, Writes, SlotBytes;
    forall slot | 0 <= slot < l.macroSlots
      ensures NeedOf(l, before, e, slot).None?
    {
      OnlyNeededMentioned(l, before, e, slot);
    }
  }

  /** Everything an apply is going to write; None for lights that stay as they are. */
  datatype Job = Job(record: seq<Byte>, spans: seq<Span>, lights: Option<seq<Byte>>, writes: seq<KbMacros.MacroWrite>)

  /** The job an edit comes to, computed before anything is written. */
  ghost predicate IsJob(l: Layout, before: Profile, e: Profile, job: Job)
    requires Editable(l, before, e) && LightsAccepted(l, before, e)
  {
    && job.record == WantedRecord(l, before, e)
    && SpansFit(RECORD_SIZE, job.spans) && SameOutsideSpans(before.record, job.record, job.spans)
    && job.lights == (if WantedLights(l, before, e) == before.lights then None else Some(WantedLights(l, before, e)))
    && job.writes == Writes(l, before, e)
    && (job.spans == [] && job.lights.None? && job.writes == [] <==> Nothing(l, before, e))
  }

  method Prepare(l: Layout, before: Profile, e: Profile) returns (r: Result<Job>)
    requires Editable(l, before, e)
    ensures r.Ok? <==> Accepts(l, before, e)
    ensures r.Ok? ==> IsJob(l, before, e, r.value)
  {
    hide Encoded, EncodedSpans, Base, InUse, Accepted, PerKeyBlock, PerKeyAccepted, KbMacros.WritesFor, KbMacros.PlanOk, Shaped;
    var base := Base(l, before.record);
    var buffer := new Byte[RECORD_SIZE](i requires 0 <= i < RECORD_SIZE => base[i]);
    assert buffer[..] == base;
    var encoded := EncodeRecord(buffer, l, e.fields, before.fields);
    if encoded.Err? { return Err; }
    var spans := encoded.value;
    RecordFrame(l, base, e.fields, before.fields);
    var lights := before.lights;
    if e.perKey != before.perKey {
      var block := EncodePerKey(l, before.lights, e.perKey, before.perKey);
      if block.Err? { return Err; }
      lights := block.value;
    }
    var writes := KbMacros.PlanMacros(l, Played(e), Played(before));
    if writes.Err? { return Err; }
    var change := if lights == before.lights then None else Some(lights);
    if spans == [] && lights == before.lights && writes.value == [] {
      NoSpansSame(l, before, e);
      return Ok(Job(before.record, [], None, []));
    }
    if before.inUse {
      BaseInUse(l, before);
      return Ok(Job(buffer[..], spans, change, writes.value));
    }
    // A keyboard without a profile is given a whole one.
    if l.iso || e.fields.name == [] { return Err; }
    var whole := Le32(IN_USE) + buffer[4..];
    WholeSpan(before.record, whole);
    return Ok(Job(whole, [Span(0, RECORD_SIZE)], change, writes.value));
  }

  lemma BaseInUse(l: Layout, before: Profile)
    requires |before.record| == RECORD_SIZE && before.inUse == InUse(before.record) && before.inUse
    ensures Base(l, before.record) == before.record
  {
  }

  lemma WholeSpan(a: seq<Byte>, b: seq<Byte>)
    requires |a| == |b| == RECORD_SIZE
    ensures SameOutsideSpans(a, b, [Span(0, RECORD_SIZE)])
  {
    forall i | 0 <= i < |a|
      ensures Covered(i, [Span(0, RECORD_SIZE)])
    {
      assert InSpan(i, [Span(0, RECORD_SIZE)][0]);
    }
  }

  lemma NoSpansSame(l: Layout, before: Profile, e: Profile)
    requires Editable(l, before, e) && LightsAccepted(l, before, e) && Nothing(l, before, e)
    ensures WantedRecord(l, before, e) == before.record
  {
    hide Encoded, EncodedSpans, Shaped;
    RecordFrame(l, Base(l, before.record), e.fields, before.fields);
  }
}

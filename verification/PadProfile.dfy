/** A controller's whole profile: what its record and macro storage show, and the record an edit asks for. */
module PadProfile {
  import opened Bytes
  import opened Patch
  import opened PadLayouts
  import opened PadSections
  import opened PadCombos
  import opened PadMacros
  import opened PadRules
  import opened PadCodec
  import opened PadRoundTrip
  import Names
  import opened PadDevice

  /** A controller's configuration for one platform; a model has as many slots as its layout says. */
  datatype Profile = Profile(platform: Byte, slots: seq<Slot>, macros: seq<seq<Macro>>, effect: Byte)

  const LIGHTS_OFF: Byte := 5

  /** Anything other than the three effects is reported as off. */
  function ShownEffect(light: Byte): Byte { if 2 <= light <= 4 then light else LIGHTS_OFF }

  function MacroSpan(l: Layout, slot: nat): (t: Span)
    requires KnownLayout(l) && slot < l.slots
    ensures t.length == SECTION && t.offset + t.length <= l.size
  {
    Span(l.macros + slot * SECTION, SECTION)
  }

  function MacroSection(l: Layout, rec: seq<Byte>, slot: nat): (b: seq<Byte>)
    requires KnownLayout(l) && |rec| == l.size && slot < l.slots
    ensures |b| == SECTION
  {
    rec[MacroSpan(l, slot).offset..MacroSpan(l, slot).offset + SECTION]
  }

  function MacrosOf(l: Layout, rec: seq<Byte>, area: seq<Byte>, slot: nat): (macros: seq<Macro>)
    requires KnownLayout(l) && |rec| == l.size && slot < l.slots && |area| == AREA
    ensures |macros| == MACROS && forall j :: 0 <= j < MACROS ==> StepsFit(macros[j].steps)
  {
    DecodeSection(l, PlatformOf(l, rec), MacroSection(l, rec, slot), area)
  }

  function AllMacros(l: Layout, rec: seq<Byte>, areas: seq<seq<Byte>>): (macros: seq<seq<Macro>>)
    requires KnownLayout(l) && |rec| == l.size && Areas(areas)
    ensures |macros| == l.slots
  {
    seq(l.slots, i requires 0 <= i < l.slots => MacrosOf(l, rec, areas[i], i))
  }

  /** What a controller's record, macro storage and light setting show. */
  function ProfileOf(l: Layout, rec: seq<Byte>, areas: seq<seq<Byte>>, light: Byte): (p: Profile)
    requires KnownLayout(l) && |rec| == l.size && Areas(areas)
  {
    Profile(
      PlatformOf(l, rec),
      seq(l.slots, i requires 0 <= i < l.slots => DecodeSlot(l, rec, i)),
      AllMacros(l, rec, areas),
      if l.HasLights() then ShownEffect(light) else 0)
  }

  /** A profile has the slots and macros its model has room for. */
  ghost predicate ProfileFits(l: Layout, p: Profile) {
    && |p.slots| == l.slots && (forall i :: 0 <= i < l.slots ==> SlotFits(l, p.slots[i]))
    && |p.macros| == l.slots && (forall i :: 0 <= i < l.slots ==> |p.macros[i]| == MACROS)
  }

  // ---- What an edit is refused for

  /** A button that carries a combo plays no macro. */
  predicate ComboFree(s: Slot, macros: seq<Macro>)
    requires s.Shaped()
  {
    forall n, j :: 0 <= n < COMBOS && 0 <= j < |macros| && !s.combos[n].Empty() && 0 <= s.combos[n].input < |CODES| && !macros[j].Empty() ==>
      macros[j].trigger != CODES[s.combos[n].input]
  }

  predicate SlotAccepted(l: Layout, platform: Byte, e: Profile, w: Profile, i: nat)
    requires KnownLayout(l) && i < |e.slots| && i < |w.slots| && i < |e.macros| && SlotFits(l, e.slots[i]) && SlotFits(l, w.slots[i])
  {
    Accepted(l, platform, e.slots[i], w.slots[i]) && (l.ArcadePro() ==> ComboFree(e.slots[i], e.macros[i]))
  }

  predicate MacrosAccepted(l: Layout, e: Profile, w: Profile, i: nat)
    requires i < |e.macros| && i < |w.macros|
  {
    e.macros[i] != w.macros[i] ==> forall j :: 0 <= j < |e.macros[i]| ==> MacroValid(l, e.macros[i][j])
  }

  ghost predicate ProfileAccepted(l: Layout, platform: Byte, e: Profile, w: Profile)
    requires KnownLayout(l) && ProfileFits(l, e) && ProfileFits(l, w)
  {
    && (forall i :: 0 <= i < l.slots ==> SlotAccepted(l, platform, e, w, i))
    && (forall i :: 0 <= i < l.slots ==> MacrosAccepted(l, e, w, i))
  }

  /** Looks for a macro played from a button that carries a combo. */
  method CheckComboFree(s: Slot, macros: seq<Macro>) returns (ok: bool)
    requires s.Shaped()
    ensures ok <==> ComboFree(s, macros)
  {
    for n := 0 to COMBOS
      invariant forall k, j :: 0 <= k < n && 0 <= j < |macros| && !s.combos[k].Empty() && 0 <= s.combos[k].input < |CODES| && !macros[j].Empty() ==>
        macros[j].trigger != CODES[s.combos[k].input]
    {
      var c := s.combos[n];
      if c.Empty() || c.input < 0 || c.input >= |CODES| { continue; }
      for j := 0 to |macros|
        invariant forall k :: 0 <= k < j && !macros[k].Empty() ==> macros[k].trigger != CODES[c.input]
      {
        if !macros[j].Empty() && macros[j].trigger == CODES[c.input] { return false; }
      }
    }
    return true;
  }

  /** Whether anything a refusal could name was found. */
  method CheckProfile(l: Layout, platform: Byte, e: Profile, w: Profile) returns (ok: bool)
    requires KnownLayout(l) && ProfileFits(l, e) && ProfileFits(l, w)
    ensures ok <==> ProfileAccepted(l, platform, e, w)
  {
    hide Accepted, ComboFree, MacroValid, KnownLayout;
    for i := 0 to l.slots
      invariant forall k :: 0 <= k < i ==> SlotAccepted(l, platform, e, w, k)
    {
      ok := CheckEdit(l, platform, e.slots[i], w.slots[i]);
      if !ok { assert !SlotAccepted(l, platform, e, w, i); return; }
      if l.ArcadePro() {
        ok := CheckComboFree(e.slots[i], e.macros[i]);
        if !ok { assert !SlotAccepted(l, platform, e, w, i); return; }
      }
    }
    for i := 0 to l.slots
      invariant forall k :: 0 <= k < i ==> MacrosAccepted(l, e, w, k)
    {
      if e.macros[i] == w.macros[i] { continue; }
      for j := 0 to MACROS
        invariant forall k :: 0 <= k < j ==> MacroValid(l, e.macros[i][k])
      {
        ok := CheckMacro(l, e.macros[i][j]);
        if !ok { assert !MacrosAccepted(l, e, w, i); return; }
      }
    }
    return true;
  }

  // ---- The record an edit asks for

  /** The record after the first n slots' edits. */
  function SlotsRecord(l: Layout, platform: Byte, rec: seq<Byte>, e: Profile, w: Profile, n: nat): (r: seq<Byte>)
    requires KnownLayout(l) && ProfileFits(l, e) && ProfileFits(l, w) && ProfileAccepted(l, platform, e, w)
    requires |rec| == l.size && n <= l.slots
    ensures |r| == l.size
  {
    if n == 0 then rec
    else
      assert SlotAccepted(l, platform, e, w, n - 1);
      Encoded(l, platform, SlotsRecord(l, platform, rec, e, w, n - 1), n - 1, e.slots[n - 1], w.slots[n - 1])
  }

  function SlotsSpans(l: Layout, platform: Byte, rec: seq<Byte>, e: Profile, w: Profile, n: nat): (spans: seq<Span>)
    requires KnownLayout(l) && ProfileFits(l, e) && ProfileFits(l, w) && ProfileAccepted(l, platform, e, w)
    requires |rec| == l.size && n <= l.slots
  {
    if n == 0 then []
    else
      assert SlotAccepted(l, platform, e, w, n - 1);
      SlotsSpans(l, platform, rec, e, w, n - 1) +
      EncodedSpans(l, platform, SlotsRecord(l, platform, rec, e, w, n - 1), n - 1, e.slots[n - 1], w.slots[n - 1])
  }

  lemma EditedMacrosFit(l: Layout, e: Profile, w: Profile, i: nat)
    requires i < |e.macros| && i < |w.macros| && |e.macros[i]| == MACROS && MacrosAccepted(l, e, w, i) && e.macros[i] != w.macros[i]
    ensures SectionFits(e.macros[i])
  {
  }

  /** A slot's macro section, where its macros were edited. */
  function MacroPut(l: Layout, platform: Byte, e: Profile, w: Profile, i: nat): (p: Put)
    requires KnownLayout(l) && ProfileFits(l, e) && ProfileFits(l, w) && ProfileAccepted(l, platform, e, w) && i < l.slots
    ensures p.offset == MacroSpan(l, i).offset && (p.data == [] || |p.data| == SECTION)
  {
    assert MacrosAccepted(l, e, w, i);
    if e.macros[i] == w.macros[i] then Put(MacroSpan(l, i).offset, [])
    else
      EditedMacrosFit(l, e, w, i);
      Put(MacroSpan(l, i).offset, EncodeSection(l, platform, e.macros[i]))
  }

  function MacroPuts(l: Layout, platform: Byte, e: Profile, w: Profile): (puts: seq<Put>)
    requires KnownLayout(l) && ProfileFits(l, e) && ProfileFits(l, w) && ProfileAccepted(l, platform, e, w)
    ensures |puts| == l.slots && AllFit(l.size, puts)
    ensures forall i :: 0 <= i < l.slots ==> puts[i] == MacroPut(l, platform, e, w, i)
  {
    hide ProfileAccepted, MacroPut, MacroSpan;
    seq(l.slots, i requires 0 <= i < l.slots => MacroPut(l, platform, e, w, i))
  }

  function PlannedRecord(l: Layout, platform: Byte, rec: seq<Byte>, e: Profile, w: Profile): (r: seq<Byte>)
    requires KnownLayout(l) && ProfileFits(l, e) && ProfileFits(l, w) && ProfileAccepted(l, platform, e, w) && |rec| == l.size
    ensures |r| == l.size
  {
    Apply(SlotsRecord(l, platform, rec, e, w, l.slots), MacroPuts(l, platform, e, w), l.slots)
  }

  function PlannedSpans(l: Layout, platform: Byte, rec: seq<Byte>, e: Profile, w: Profile): (spans: seq<Span>)
    requires KnownLayout(l) && ProfileFits(l, e) && ProfileFits(l, w) && ProfileAccepted(l, platform, e, w) && |rec| == l.size
  {
    SlotsSpans(l, platform, rec, e, w, l.slots) +
    Changed(SlotsRecord(l, platform, rec, e, w, l.slots), MacroPuts(l, platform, e, w), l.slots)
  }

  lemma SlotReady(l: Layout, platform: Byte, e: Profile, w: Profile, i: nat)
    requires KnownLayout(l) && ProfileFits(l, e) && ProfileFits(l, w) && ProfileAccepted(l, platform, e, w) && i < l.slots
    ensures i < |e.slots| && i < |w.slots|
    ensures SlotFits(l, e.slots[i]) && SlotFits(l, w.slots[i]) && Accepted(l, platform, e.slots[i], w.slots[i])
  {
    hide Accepted, ComboFree;
    assert SlotAccepted(l, platform, e, w, i);
  }

  /** Writes each slot's edit into the record. */
  method EncodeSlots(record: array<Byte>, l: Layout, platform: Byte, e: Profile, w: Profile) returns (spans: seq<Span>)
    requires KnownLayout(l) && ProfileFits(l, e) && ProfileFits(l, w) && ProfileAccepted(l, platform, e, w) && record.Length == l.size
    modifies record
    ensures record[..] == SlotsRecord(l, platform, old(record[..]), e, w, l.slots)
    ensures spans == SlotsSpans(l, platform, old(record[..]), e, w, l.slots)
  {
    hide Encoded, EncodedSpans, Accepted, ProfileAccepted, ProfileFits, KnownLayout, SlotFits;
    ghost var rec := record[..];
    spans := [];
    for i := 0 to l.slots
      invariant record[..] == SlotsRecord(l, platform, rec, e, w, i) && spans == SlotsSpans(l, platform, rec, e, w, i)
    {
      SlotReady(l, platform, e, w, i);
      var changed := EncodeSlot(record, l, platform, i, e.slots[i], w.slots[i]);
      spans := spans + changed.value;
    }
  }

  /** Works out the record an edit asks for and the spans of it that change, or refuses the edit. */
  method Prepare(l: Layout, platform: Byte, rec: seq<Byte>, e: Profile, w: Profile) returns (r: Result<(seq<Byte>, seq<Span>)>)
    requires KnownLayout(l) && ProfileFits(l, e) && ProfileFits(l, w) && |rec| == l.size
    ensures r.Ok? <==> ProfileAccepted(l, platform, e, w)
    ensures r.Ok? ==> r.value == (PlannedRecord(l, platform, rec, e, w), PlannedSpans(l, platform, rec, e, w))
  {
    var ok := CheckProfile(l, platform, e, w);
    if !ok { return Err; }
    hide ProfileAccepted, ProfileFits, KnownLayout, Apply, Changed, SlotsRecord, SlotsSpans;
    var record := new Byte[|rec|](i requires 0 <= i < |rec| => rec[i]);
    assert record[..] == rec;
    var spans := EncodeSlots(record, l, platform, e, w);
    var more := PutAll(record, MacroPuts(l, platform, e, w));
    return Ok((record[..], spans + more));
  }

  // ---- What the planned record keeps and shows

  /** The platform the profile was read from is the one being edited. */
  ghost predicate PlanReady(l: Layout, platform: Byte, rec: seq<Byte>, e: Profile, w: Profile) {
    && KnownLayout(l) && ProfileFits(l, e) && ProfileFits(l, w) && ProfileAccepted(l, platform, e, w)
    && |rec| == l.size && PlatformOf(l, rec) == platform
    && forall i :: 0 <= i < l.slots ==> w.slots[i] == DecodeSlot(l, rec, i)
  }

  /** A slot's macro section is apart from every slot's own sections and from the header. */
  lemma MacrosApart(l: Layout, slot: nat, i: nat, n: nat)
    requires KnownLayout(l) && slot < l.slots && i < l.slots && n < SECTIONS
    ensures Where(l, i, n).length == 0 || SpansApart(Where(l, i, n), MacroSpan(l, slot))
    ensures SpansApart(HeaderSpan(l), MacroSpan(l, slot))
  {
  }

  lemma MacrosApartFromMacros(l: Layout, slot: nat, k: nat)
    requires KnownLayout(l) && slot < l.slots && k < l.slots && slot != k
    ensures SpansApart(MacroSpan(l, k), MacroSpan(l, slot))
  {
  }

  /** Editing a slot leaves every macro section alone. */
  lemma SlotEditKeepsMacros(l: Layout, platform: Byte, rec: seq<Byte>, i: nat, s: Slot, w: Slot, slot: nat)
    requires KnownLayout(l) && |rec| == l.size && i < l.slots && SlotFits(l, s) && SlotFits(l, w) && Accepted(l, platform, s, w)
    requires slot < l.slots
    ensures MacroSection(l, Encoded(l, platform, rec, i, s, w), slot) == MacroSection(l, rec, slot)
  {
    hide KnownLayout, SlotFits, Accepted, Where, MacroSpan, SpansApart, Encoded;
    forall n | 0 <= n < SECTIONS
      ensures Where(l, i, n).length == 0 || SpansApart(Where(l, i, n), MacroSpan(l, slot))
    {
      MacrosApart(l, slot, i, n);
    }
    StretchKept(l, platform, rec, i, s, w, MacroSpan(l, slot));
  }

  /** The first n slots' edits leave the platform, the macros and the slots after them as they were. */
  lemma {:induction false} SlotsKept(l: Layout, platform: Byte, rec: seq<Byte>, e: Profile, w: Profile, n: nat)
    requires PlanReady(l, platform, rec, e, w) && n <= l.slots
    ensures PlatformOf(l, SlotsRecord(l, platform, rec, e, w, n)) == platform
    ensures forall k :: 0 <= k < l.slots ==> MacroSection(l, SlotsRecord(l, platform, rec, e, w, n), k) == MacroSection(l, rec, k)
    ensures forall k :: n <= k < l.slots ==> DecodeSlot(l, SlotsRecord(l, platform, rec, e, w, n), k) == w.slots[k]
  {
    hide KnownLayout, SlotFits, Accepted, Encoded, DecodeSlot, MacroSection, PlatformOf, ProfileAccepted;
    if n > 0 {
      SlotsKept(l, platform, rec, e, w, n - 1);
      SlotReady(l, platform, e, w, n - 1);
      var before := SlotsRecord(l, platform, rec, e, w, n - 1);
      HeaderKept(l, platform, before, n - 1, e.slots[n - 1], w.slots[n - 1]);
      forall k | 0 <= k < l.slots
        ensures MacroSection(l, SlotsRecord(l, platform, rec, e, w, n), k) == MacroSection(l, before, k)
        ensures k != n - 1 ==> DecodeSlot(l, SlotsRecord(l, platform, rec, e, w, n), k) == DecodeSlot(l, before, k)
      {
        SlotEditKeepsMacros(l, platform, before, n - 1, e.slots[n - 1], w.slots[n - 1], k);
        if k != n - 1 {
          OtherSlotsKept(l, platform, before, n - 1, e.slots[n - 1], w.slots[n - 1], k);
        }
      }
    }
  }

  /** Once a slot's edit is written, later slots' edits leave it. */
  lemma {:induction false} SlotStays(l: Layout, platform: Byte, rec: seq<Byte>, e: Profile, w: Profile, i: nat, n: nat)
    requires PlanReady(l, platform, rec, e, w) && i < n <= l.slots
    ensures DecodeSlot(l, SlotsRecord(l, platform, rec, e, w, n), i) == DecodeSlot(l, SlotsRecord(l, platform, rec, e, w, i + 1), i)
  {
    hide KnownLayout, SlotFits, Accepted, Encoded, DecodeSlot, PlatformOf, ProfileAccepted;
    if n > i + 1 {
      SlotStays(l, platform, rec, e, w, i, n - 1);
      SlotReady(l, platform, e, w, n - 1);
      OtherSlotsKept(l, platform, SlotsRecord(l, platform, rec, e, w, n - 1), n - 1, e.slots[n - 1], w.slots[n - 1], i);
    }
  }

  /** Writing macro sections leaves every stretch apart from the ones written alone. */
  lemma MacroPutsKeepOthers(l: Layout, platform: Byte, rec: seq<Byte>, e: Profile, w: Profile, t: Span)
    requires KnownLayout(l) && ProfileFits(l, e) && ProfileFits(l, w) && ProfileAccepted(l, platform, e, w) && |rec| == l.size
    requires t.offset + t.length <= l.size
    requires forall k :: 0 <= k < l.slots ==> MacroPuts(l, platform, e, w)[k].data == [] || SpansApart(t, MacroSpan(l, k))
    ensures Apply(rec, MacroPuts(l, platform, e, w), l.slots)[t.offset..t.offset + t.length] == rec[t.offset..t.offset + t.length]
  {
    hide KnownLayout, SlotFits, ProfileAccepted, MacroSpan, Apply, MacroPut;
    var puts := MacroPuts(l, platform, e, w);
    forall k | 0 <= k < l.slots
      ensures puts[k].data == [] || puts[k].offset + |puts[k].data| <= t.offset || t.offset + t.length <= puts[k].offset
    {
      assert puts[k] == MacroPut(l, platform, e, w, k);
    }
    ApplyKeeps(rec, puts, l.slots, t.offset, t.length);
  }

  lemma MacroPutsKeep(l: Layout, platform: Byte, rec: seq<Byte>, e: Profile, w: Profile, t: Span)
    requires KnownLayout(l) && ProfileFits(l, e) && ProfileFits(l, w) && ProfileAccepted(l, platform, e, w) && |rec| == l.size
    requires t.offset + t.length <= l.size
    requires forall k :: 0 <= k < l.slots ==> SpansApart(t, MacroSpan(l, k))
    ensures Apply(rec, MacroPuts(l, platform, e, w), l.slots)[t.offset..t.offset + t.length] == rec[t.offset..t.offset + t.length]
  {
    hide KnownLayout, SlotFits, ProfileAccepted, ProfileFits, MacroSpan, Apply, MacroPuts, SpansApart;
    MacroPutsKeepOthers(l, platform, rec, e, w, t);
  }

  lemma MacroPutsKeepSection(l: Layout, platform: Byte, rec: seq<Byte>, e: Profile, w: Profile, i: nat, n: nat)
    requires KnownLayout(l) && ProfileFits(l, e) && ProfileFits(l, w) && ProfileAccepted(l, platform, e, w) && |rec| == l.size
    requires i < l.slots && n < SECTIONS
    ensures At(l, Apply(rec, MacroPuts(l, platform, e, w), l.slots), i, n) == At(l, rec, i, n)
  {
    hide KnownLayout, SlotFits, ProfileAccepted, ProfileFits, Apply, Where, MacroSpan, MacroPuts, SpansApart;
    if Where(l, i, n).length > 0 {
      forall slot | 0 <= slot < l.slots
        ensures SpansApart(Where(l, i, n), MacroSpan(l, slot))
      {
        MacrosApart(l, slot, i, n);
      }
      MacroPutsKeep(l, platform, rec, e, w, Where(l, i, n));
    }
  }

  lemma MacroPutsKeepPlatform(l: Layout, platform: Byte, rec: seq<Byte>, e: Profile, w: Profile)
    requires KnownLayout(l) && ProfileFits(l, e) && ProfileFits(l, w) && ProfileAccepted(l, platform, e, w) && |rec| == l.size
    ensures PlatformOf(l, Apply(rec, MacroPuts(l, platform, e, w), l.slots)) == PlatformOf(l, rec)
  {
    hide SlotFits, ProfileAccepted, ProfileFits, Apply, Where, MacroSpan, MacroPuts, SpansApart;
    forall slot | 0 <= slot < l.slots
      ensures SpansApart(HeaderSpan(l), MacroSpan(l, slot))
    {
      MacrosApart(l, slot, 0, 0);
    }
    MacroPutsKeep(l, platform, rec, e, w, HeaderSpan(l));
    SamePlatform(l, rec, Apply(rec, MacroPuts(l, platform, e, w), l.slots));
  }

  lemma MacroPutsKeepSlots(l: Layout, platform: Byte, rec: seq<Byte>, e: Profile, w: Profile, i: nat)
    requires KnownLayout(l) && ProfileFits(l, e) && ProfileFits(l, w) && ProfileAccepted(l, platform, e, w) && |rec| == l.size
    requires i < l.slots
    ensures DecodeSlot(l, Apply(rec, MacroPuts(l, platform, e, w), l.slots), i) == DecodeSlot(l, rec, i)
  {
    hide KnownLayout, SlotFits, ProfileAccepted, ProfileFits, Apply, Where, MacroPuts, At, PlatformOf;
    forall n | 0 <= n < SECTIONS
      ensures At(l, Apply(rec, MacroPuts(l, platform, e, w), l.slots), i, n) == At(l, rec, i, n)
    {
      MacroPutsKeepSection(l, platform, rec, e, w, i, n);
    }
    MacroPutsKeepPlatform(l, platform, rec, e, w);
  }

  lemma SamePlatform(l: Layout, a: seq<Byte>, b: seq<Byte>)
    requires KnownLayout(l) && |a| == |b| == l.size
    requires a[HeaderSpan(l).offset..HeaderSpan(l).offset + 8] == b[HeaderSpan(l).offset..HeaderSpan(l).offset + 8]
    ensures PlatformOf(l, a) == PlatformOf(l, b)
  {
    var at := HeaderSpan(l).offset;
    assert l.Platform() == at + 4;
    assert a[at..at + 8][4] == b[at..at + 8][4];
  }

  /**
   The planned record shows the edit: a slot that was in use and stays so decodes to the edit's
   normal form exactly when its name can be stored or was left as it was.
   */
  lemma PlannedSlot(l: Layout, platform: Byte, rec: seq<Byte>, e: Profile, w: Profile, i: nat)
    requires PlanReady(l, platform, rec, e, w) && i < l.slots && w.slots[i].inUse && e.slots[i].inUse
    ensures DecodeSlot(l, PlannedRecord(l, platform, rec, e, w), i) == NormalSlot(e.slots[i])
       <==> e.slots[i].name == w.slots[i].name || Names.Storable(e.slots[i].name)
  {
    var before := SlotsRecord(l, platform, rec, e, w, i);
    SlotReady(l, platform, e, w, i);
    SlotsKept(l, platform, rec, e, w, i);
    assert SlotEdit(l, before, i, e.slots[i]);
    assert Edited(l, before, i, e.slots[i]) == SlotsRecord(l, platform, rec, e, w, i + 1);
    hide KnownLayout, SlotFits, Accepted, Encoded, DecodeSlot, PlatformOf, ProfileAccepted, SlotsRecord, Edited, NormalSlot, NameReads;
    SlotRoundTrip(l, before, i, e.slots[i]);
    InUseNameReads(l, before, i, e.slots[i]);
    SlotStays(l, platform, rec, e, w, i, l.slots);
    MacroPutsKeepSlots(l, platform, SlotsRecord(l, platform, rec, e, w, l.slots), e, w, i);
  }

  lemma MacroPutsAt(l: Layout, platform: Byte, rec: seq<Byte>, e: Profile, w: Profile, k: nat)
    requires KnownLayout(l) && ProfileFits(l, e) && ProfileFits(l, w) && ProfileAccepted(l, platform, e, w) && |rec| == l.size
    requires k < l.slots
    ensures MacroSection(l, Apply(rec, MacroPuts(l, platform, e, w), l.slots), k) ==
            if MacroPut(l, platform, e, w, k).data == [] then MacroSection(l, rec, k) else MacroPut(l, platform, e, w, k).data
  {
    hide KnownLayout, SlotFits, ProfileAccepted, Apply, MacroSpan, SpansApart, EncodeSection, MacroPut;
    var puts := MacroPuts(l, platform, e, w);
    assert puts[k] == MacroPut(l, platform, e, w, k);
    if puts[k].data == [] {
      forall slot | 0 <= slot < l.slots
        ensures puts[slot].data == [] || SpansApart(MacroSpan(l, k), MacroSpan(l, slot))
      {
        if slot != k {
          MacrosApartFromMacros(l, slot, k);
        }
      }
      MacroPutsKeepOthers(l, platform, rec, e, w, MacroSpan(l, k));
    } else {
      MacroPutsApart(l, platform, e, w);
      ApplyAt(rec, puts, l.slots, k);
    }
  }

  /** The planned record's macro sections are the edited ones, or the ones that were there. */
  lemma PlannedMacros(l: Layout, platform: Byte, rec: seq<Byte>, e: Profile, w: Profile, k: nat)
    requires PlanReady(l, platform, rec, e, w) && k < l.slots
    ensures PlatformOf(l, PlannedRecord(l, platform, rec, e, w)) == platform
    ensures e.macros[k] == w.macros[k] ==> MacroSection(l, PlannedRecord(l, platform, rec, e, w), k) == MacroSection(l, rec, k)
    ensures e.macros[k] != w.macros[k] ==> SectionFits(e.macros[k])
    ensures e.macros[k] != w.macros[k] ==>
              MacroSection(l, PlannedRecord(l, platform, rec, e, w), k) == EncodeSection(l, platform, e.macros[k])
  {
    assert MacrosAccepted(l, e, w, k);
    if e.macros[k] != w.macros[k] {
      EditedMacrosFit(l, e, w, k);
    }
    SlotsKept(l, platform, rec, e, w, l.slots);
    var before := SlotsRecord(l, platform, rec, e, w, l.slots);
    hide KnownLayout, SlotFits, Apply, MacroPuts, SlotsRecord, ProfileAccepted, DecodeSlot, PlatformOf, MacroSection, EncodeSection;
    MacroPutsKeepPlatform(l, platform, before, e, w);
    MacroPutsAt(l, platform, before, e, w, k);
  }

  lemma MacroPutsApart(l: Layout, platform: Byte, e: Profile, w: Profile)
    requires KnownLayout(l) && ProfileFits(l, e) && ProfileFits(l, w) && ProfileAccepted(l, platform, e, w)
    ensures AllApart(MacroPuts(l, platform, e, w))
  {
    hide KnownLayout, SlotFits, ProfileAccepted, MacroSpan;
    var puts := MacroPuts(l, platform, e, w);
    forall j, k | 0 <= j < k < l.slots
      ensures Apart(puts[j], puts[k])
    {
      assert puts[j] == MacroPut(l, platform, e, w, j) && puts[k] == MacroPut(l, platform, e, w, k);
      MacrosApartFromMacros(l, j, k);
    }
  }

  lemma {:induction false} SlotsFrame(l: Layout, platform: Byte, rec: seq<Byte>, e: Profile, w: Profile, n: nat)
    requires KnownLayout(l) && ProfileFits(l, e) && ProfileFits(l, w) && ProfileAccepted(l, platform, e, w) && |rec| == l.size && n <= l.slots
    ensures SpansFit(l.size, SlotsSpans(l, platform, rec, e, w, n))
    ensures forall p :: 0 <= p < l.size && !Covered(p, SlotsSpans(l, platform, rec, e, w, n)) ==>
              SlotsRecord(l, platform, rec, e, w, n)[p] == rec[p]
  {
    hide KnownLayout, SlotFits, Accepted, ProfileAccepted, Encoded, EncodedSpans, Covered;
    if n > 0 {
      SlotsFrame(l, platform, rec, e, w, n - 1);
      SlotReady(l, platform, e, w, n - 1);
      var before, front := SlotsRecord(l, platform, rec, e, w, n - 1), SlotsSpans(l, platform, rec, e, w, n - 1);
      var last := EncodedSpans(l, platform, before, n - 1, e.slots[n - 1], w.slots[n - 1]);
      SlotFrame(l, platform, before, n - 1, e.slots[n - 1], w.slots[n - 1]);
      forall p | 0 <= p < l.size && !Covered(p, front + last)
        ensures SlotsRecord(l, platform, rec, e, w, n)[p] == rec[p]
      {
        CoveredByBoth(p, front, last);
      }
    }
  }

  /** Outside the spans it reports, the planned record is the record as it was read. */
  lemma PlannedFrame(l: Layout, platform: Byte, rec: seq<Byte>, e: Profile, w: Profile)
    requires KnownLayout(l) && ProfileFits(l, e) && ProfileFits(l, w) && ProfileAccepted(l, platform, e, w) && |rec| == l.size
    ensures SpansFit(l.size, PlannedSpans(l, platform, rec, e, w))
    ensures forall p :: 0 <= p < l.size && !Covered(p, PlannedSpans(l, platform, rec, e, w)) ==>
              PlannedRecord(l, platform, rec, e, w)[p] == rec[p]
  {
    hide KnownLayout, SlotFits, ProfileAccepted, ProfileFits, SlotsRecord, SlotsSpans, Apply, Changed, Covered, MacroPuts;
    var before, front := SlotsRecord(l, platform, rec, e, w, l.slots), SlotsSpans(l, platform, rec, e, w, l.slots);
    var puts := MacroPuts(l, platform, e, w);
    var last := Changed(before, puts, l.slots);
    SlotsFrame(l, platform, rec, e, w, l.slots);
    MacroPutsApart(l, platform, e, w);
    ChangedDisjoint(before, puts, l.slots);
    forall p | 0 <= p < l.size && !Covered(p, front + last)
      ensures Apply(before, puts, l.slots)[p] == rec[p]
    {
      CoveredByBoth(p, front, last);
      ChangedCovers(before, puts, l.slots, p);
    }
  }
}

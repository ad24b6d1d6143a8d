/**
 A profile slot in a controller's record: reading it, writing an edited one back section by section,
 and what that leaves alone.
 */
module PadCodec {
  import opened Bytes
  import opened Names
  import opened Patch
  import opened PadLayouts
  import opened PadSections
  import opened PadCombos
  import opened PadRules

  // ---- The sections of a slot, in the order an edit writes them

  const NAME := 0
  const BUTTONS := 1
  const LIGHT_FLAG := 2
  const LIGHT_TABLES := 3
  const LIGHT_EFFECT := 4
  const COMBO := 5
  const STICKS := 6
  const TRIGGER := 7
  const OPTIONS := 8
  const MOTION := 9
  const TRACING := 10
  const FIRE := 11
  const CUSTOM := 12
  const MARK := 13
  const SECTIONS: nat := 14

  const LIGHT_SECTION: nat := 376

  /** Where a slot's nth section is; of no length where the model has none. */
  function Where(l: Layout, i: nat, n: nat): (s: Span)
    requires KnownLayout(l) && i < l.slots && n < SECTIONS
    ensures s.offset + s.length <= l.size
  {
    if n == NAME then Span(l.names + i * NAME_BYTES, NAME_BYTES)
    else if n == BUTTONS then Span(l.buttons + i * l.ButtonSection(), l.ButtonSection())
    else if n == LIGHT_FLAG then Span(l.buttonLights + i * LIGHT_SECTION, if l.ArcadePro() then 4 else 0)
    else if n == LIGHT_TABLES then Span(l.buttonLights + i * LIGHT_SECTION + 5, if l.ArcadePro() then TABLE_BYTES else 0)
    else if n == LIGHT_EFFECT then Span(l.buttonLights + i * LIGHT_SECTION + 4, if l.ArcadePro() then 1 else 0)
    else if n == COMBO then Span(l.combos + i * COMBO_BYTES, if l.ArcadePro() then COMBO_BYTES else 0)
    else if n == STICKS then Span(l.sticks + i * 8, 8)
    else if n == TRIGGER then Span(l.triggers + i * 8, 8)
    else if n == OPTIONS then Span(l.options + i * 8, 8)
    else if n == MOTION then Span(l.motion + i * 12, if l.HasMotion() then 12 else 0)
    else if n == TRACING then Span(l.tracing + i * 12, if l.HasLights() then 12 else 0)
    else if n == FIRE then Span(l.fire + i * 16, if l.HasLights() then 16 else 0)
    else if n == CUSTOM then Span(l.custom + i * 100, if l.HasLights() then 100 else 0)
    else Span(i * 4, 4)
  }

  predicate SectionsMeet(l: Layout, i: nat, m: nat, k: nat, n: nat)
    requires KnownLayout(l) && i < l.slots && k < l.slots && m < SECTIONS && n < SECTIONS
  {
    (i, m) != (k, n) && Where(l, i, m).length > 0 && Where(l, k, n).length > 0 && !SpansApart(Where(l, i, m), Where(l, k, n))
  }

  lemma U2Apart(i: nat, m: nat, k: nat, n: nat)
    requires i < 3 && k < 3 && m < SECTIONS && n < SECTIONS
    ensures !SectionsMeet(U2, i, m, k, n)
  {
  }

  lemma U2BTApart(i: nat, m: nat, k: nat, n: nat)
    requires i < 3 && k < 3 && m < SECTIONS && n < SECTIONS
    ensures !SectionsMeet(U2BT, i, m, k, n)
  {
  }

  lemma Pro3Apart(i: nat, m: nat, k: nat, n: nat)
    requires i < 3 && k < 3 && m < SECTIONS && n < SECTIONS
    ensures !SectionsMeet(PRO3, i, m, k, n) && !SectionsMeet(ARCADE, i, m, k, n)
  {
  }

  lemma ArcadeProApart(i: nat, m: nat, k: nat, n: nat)
    requires i < 2 && k < 2 && m < SECTIONS && n < SECTIONS
    ensures !SectionsMeet(ARCADE_PRO, i, m, k, n)
  {
  }

  lemma UltimateBTApart(i: nat, m: nat, k: nat, n: nat)
    requires i < 3 && k < 3 && m < SECTIONS && n < SECTIONS
    ensures !SectionsMeet(ULTIMATE_BT, i, m, k, n)
  {
  }

  /** No two sections of a record share a byte, whichever slots they belong to. */
  lemma SectionsApart(l: Layout, i: nat, m: nat, k: nat, n: nat)
    requires KnownLayout(l) && i < l.slots && k < l.slots && m < SECTIONS && n < SECTIONS && (i, m) != (k, n)
    requires Where(l, i, m).length > 0 && Where(l, k, n).length > 0
    ensures SpansApart(Where(l, i, m), Where(l, k, n))
  {
    hide Where, SpansApart;
    if l == U2 { U2Apart(i, m, k, n); }
    else if l == U2BT { U2BTApart(i, m, k, n); }
    else if l == ARCADE_PRO { ArcadeProApart(i, m, k, n); }
    else if l == ULTIMATE_BT { UltimateBTApart(i, m, k, n); }
    else { Pro3Apart(i, m, k, n); }
  }

  /** The bytes of a slot's nth section. */
  function At(l: Layout, rec: seq<Byte>, i: nat, n: nat): (b: seq<Byte>)
    requires KnownLayout(l) && |rec| == l.size && i < l.slots && n < SECTIONS
    ensures |b| == Where(l, i, n).length
  {
    rec[Where(l, i, n).offset..Where(l, i, n).offset + Where(l, i, n).length]
  }

  function PlatformOf(l: Layout, rec: seq<Byte>): Byte
    requires KnownLayout(l) && |rec| == l.size
  {
    rec[l.Platform()]
  }

  function DecodeSlot(l: Layout, rec: seq<Byte>, i: nat): (s: Slot)
    requires KnownLayout(l) && |rec| == l.size && i < l.slots
    ensures s.Shaped()
  {
    var inUse := Marked(At(l, rec, i, MARK));
    Slot(
      inUse, if inUse then DecodeName(At(l, rec, i, NAME)) else [],
      ButtonsOf(l, PlatformOf(l, rec), At(l, rec, i, BUTTONS)), ExtraOf(l, At(l, rec, i, BUTTONS)),
      PairOf(At(l, rec, i, STICKS), 128), PairOf(At(l, rec, i, TRIGGER), 255), OptionsOf(At(l, rec, i, OPTIONS)),
      MotionOf(At(l, rec, i, MOTION)), TracingOf(At(l, rec, i, TRACING)), FireOf(At(l, rec, i, FIRE)),
      CustomOf(At(l, rec, i, CUSTOM)), CombosOf(At(l, rec, i, COMBO)),
      if l.ArcadePro() then At(l, rec, i, LIGHT_EFFECT)[0] else 0,
      TablesOf(At(l, rec, i, LIGHT_FLAG), At(l, rec, i, LIGHT_TABLES)))
  }

  // ---- What an edit writes

  /** What the edit puts in the nth section: nothing where the setting is the one read. */
  function Edit(l: Layout, platform: Byte, s: Slot, w: Slot, n: nat): (data: seq<Byte>)
    requires KnownLayout(l) && SlotFits(l, s) && SlotFits(l, w) && Accepted(l, platform, s, w) && n < MARK
    ensures data == [] || forall i :: 0 <= i < l.slots ==> |data| == Where(l, i, n).length
  {
    if n == NAME then (if s.name == w.name then [] else EncodeName(s.name))
    else if n == BUTTONS then (if s.buttons == w.buttons && s.extra == w.extra then [] else ButtonBytes(l, s.buttons, s.extra))
    else if n == LIGHT_FLAG then (if s.tables == w.tables then [] else SECTION_FLAG)
    else if n == LIGHT_TABLES then (if s.tables == w.tables then [] else TableBytes(s.tables))
    else if n == LIGHT_EFFECT then (if s.effect == w.effect then [] else [s.effect])
    else if n == COMBO then (if s.combos == w.combos then [] else ComboBytes(s.combos))
    else if n == STICKS then (if s.sticks == w.sticks then [] else PairBytes(s.sticks))
    else if n == TRIGGER then (if s.triggers == w.triggers then [] else PairBytes(s.triggers))
    else if n == OPTIONS then (if s.options == w.options then [] else OptionsBytes(s.options))
    else if n == MOTION then (if s.motion == w.motion then [] else MotionBytes(s.motion))
    else if n == TRACING then (if s.tracing == w.tracing then [] else TracingBytes(s.tracing))
    else if n == FIRE then (if s.fire == w.fire then [] else FireBytes(s.fire))
    else (if s.custom == w.custom then [] else CustomBytes(s.custom))
  }

  /** Every section's write but the last, in order. */
  function Front(l: Layout, platform: Byte, i: nat, s: Slot, w: Slot): (puts: seq<Put>)
    requires KnownLayout(l) && i < l.slots && SlotFits(l, s) && SlotFits(l, w) && Accepted(l, platform, s, w)
    ensures |puts| == MARK && AllFit(l.size, puts)
    ensures forall n :: 0 <= n < MARK ==> puts[n] == Put(Where(l, i, n).offset, Edit(l, platform, s, w, n))
  {
    hide Edit, Where;
    seq(MARK, n requires 0 <= n < MARK => Put(Where(l, i, n).offset, Edit(l, platform, s, w, n)))
  }

  /** The slot's mark: a slot with anything set in it is in use. */
  function MarkData(changed: bool, s: Slot, w: Slot): (data: seq<Byte>)
    ensures data == [] || |data| == 4
  {
    if !changed && s.inUse == w.inUse then [] else if s.inUse || changed then SECTION_FLAG else [0, 0, 0, 0]
  }

  predicate AnyChanged(l: Layout, platform: Byte, rec: seq<Byte>, i: nat, s: Slot, w: Slot)
    requires KnownLayout(l) && |rec| == l.size && i < l.slots && SlotFits(l, s) && SlotFits(l, w) && Accepted(l, platform, s, w)
  {
    Changed(rec, Front(l, platform, i, s, w), MARK) != []
  }

  function Plan(l: Layout, platform: Byte, rec: seq<Byte>, i: nat, s: Slot, w: Slot): (puts: seq<Put>)
    requires KnownLayout(l) && |rec| == l.size && i < l.slots && SlotFits(l, s) && SlotFits(l, w) && Accepted(l, platform, s, w)
    ensures |puts| == SECTIONS && AllFit(l.size, puts)
    ensures forall n :: 0 <= n < MARK ==> puts[n] == Put(Where(l, i, n).offset, Edit(l, platform, s, w, n))
    ensures puts[MARK] == Put(Where(l, i, MARK).offset, MarkData(AnyChanged(l, platform, rec, i, s, w), s, w))
  {
    Front(l, platform, i, s, w) + [Put(Where(l, i, MARK).offset, MarkData(AnyChanged(l, platform, rec, i, s, w), s, w))]
  }

  /** The record with the edited slot written into it. */
  function Encoded(l: Layout, platform: Byte, rec: seq<Byte>, i: nat, s: Slot, w: Slot): (r: seq<Byte>)
    requires KnownLayout(l) && |rec| == l.size && i < l.slots && SlotFits(l, s) && SlotFits(l, w) && Accepted(l, platform, s, w)
    ensures |r| == l.size
  {
    Apply(rec, Plan(l, platform, rec, i, s, w), SECTIONS)
  }

  /** The spans that changes. */
  function EncodedSpans(l: Layout, platform: Byte, rec: seq<Byte>, i: nat, s: Slot, w: Slot): seq<Span>
    requires KnownLayout(l) && |rec| == l.size && i < l.slots && SlotFits(l, s) && SlotFits(l, w) && Accepted(l, platform, s, w)
  {
    Changed(rec, Plan(l, platform, rec, i, s, w), SECTIONS)
  }

  /** Writes what the edit changes into the record and returns the spans it changed. */
  method EncodeSlot(record: array<Byte>, l: Layout, platform: Byte, i: nat, s: Slot, w: Slot) returns (r: Result<seq<Span>>)
    requires KnownLayout(l) && record.Length == l.size && i < l.slots && SlotFits(l, s) && SlotFits(l, w)
    modifies record
    ensures r.Ok? <==> Accepted(l, platform, s, w)
    ensures r.Ok? ==> record[..] == Encoded(l, platform, old(record[..]), i, s, w)
    ensures r.Ok? ==> r.value == EncodedSpans(l, platform, old(record[..]), i, s, w)
    ensures r.Err? ==> record[..] == old(record[..])
  {
    var ok := CheckEdit(l, platform, s, w);
    if !ok { return Err; }
    hide Edit, Where, Accepted, Apply, Changed, MarkData, KnownLayout, SlotFits;
    ghost var rec := record[..];
    var front := Front(l, platform, i, s, w);
    var spans := PutAll(record, front);
    var mark := Put(Where(l, i, MARK).offset, MarkData(spans != [], s, w));
    ghost var plan := Plan(l, platform, rec, i, s, w);
    assert plan == front + [mark];
    assert plan[..MARK] == front == front[..MARK];
    ApplyPrefix(rec, front, plan, MARK);
    spans := PutNext(record, mark, spans, rec, plan, MARK);
    return Ok(spans);
  }

  // ---- What an edit leaves alone

  lemma PlanPut(l: Layout, platform: Byte, rec: seq<Byte>, i: nat, s: Slot, w: Slot, n: nat)
    requires KnownLayout(l) && |rec| == l.size && i < l.slots && SlotFits(l, s) && SlotFits(l, w) && Accepted(l, platform, s, w) && n < SECTIONS
    ensures Plan(l, platform, rec, i, s, w)[n].offset == Where(l, i, n).offset
    ensures Plan(l, platform, rec, i, s, w)[n].data == [] || |Plan(l, platform, rec, i, s, w)[n].data| == Where(l, i, n).length
  {
    hide Accepted, Changed, Where;
    if n == MARK {
      assert Where(l, i, MARK).length == 4 by { MarkWhere(l, i); }
    }
  }

  lemma MarkWhere(l: Layout, i: nat)
    requires KnownLayout(l) && i < l.slots
    ensures Where(l, i, MARK) == Span(i * 4, 4)
  {
  }

  lemma PlanApart(l: Layout, platform: Byte, rec: seq<Byte>, i: nat, s: Slot, w: Slot)
    requires KnownLayout(l) && |rec| == l.size && i < l.slots && SlotFits(l, s) && SlotFits(l, w) && Accepted(l, platform, s, w)
    ensures AllApart(Plan(l, platform, rec, i, s, w))
  {
    hide Accepted, Changed, Where, Edit, Plan;
    var puts := Plan(l, platform, rec, i, s, w);
    forall j, k | 0 <= j < k < |puts|
      ensures Apart(puts[j], puts[k])
    {
      PlanPut(l, platform, rec, i, s, w, j);
      PlanPut(l, platform, rec, i, s, w, k);
      if puts[j].data != [] && puts[k].data != [] {
        SectionsApart(l, i, j, i, k);
      }
    }
  }

  /** A stretch of the record no section of the slot reaches is left alone. */
  lemma StretchKept(l: Layout, platform: Byte, rec: seq<Byte>, i: nat, s: Slot, w: Slot, t: Span)
    requires KnownLayout(l) && |rec| == l.size && i < l.slots && SlotFits(l, s) && SlotFits(l, w) && Accepted(l, platform, s, w)
    requires t.offset + t.length <= l.size
    requires forall n :: 0 <= n < SECTIONS ==> Where(l, i, n).length == 0 || SpansApart(Where(l, i, n), t)
    ensures Encoded(l, platform, rec, i, s, w)[t.offset..t.offset + t.length] == rec[t.offset..t.offset + t.length]
  {
    hide Accepted, Changed, Where, Edit, Plan;
    var puts := Plan(l, platform, rec, i, s, w);
    forall n | 0 <= n < SECTIONS
      ensures puts[n].data == [] || puts[n].offset + |puts[n].data| <= t.offset || t.offset + t.length <= puts[n].offset
    {
      PlanPut(l, platform, rec, i, s, w, n);
    }
    ApplyKeeps(rec, puts, SECTIONS, t.offset, t.length);
  }

  /** The header from its crc to the names, which says the platform and the active slot, is no slot's. */
  function HeaderSpan(l: Layout): (t: Span)
    requires KnownLayout(l)
    ensures t.length == 8 && t.offset + 8 <= l.size
  {
    Span(l.crc, 8)
  }

  lemma HeaderApart(l: Layout, i: nat, n: nat)
    requires KnownLayout(l) && i < l.slots && n < SECTIONS
    ensures l.crc + 8 == l.names
    ensures Where(l, i, n).length == 0 || SpansApart(Where(l, i, n), HeaderSpan(l))
  {
  }

  /** Editing one slot leaves the header alone. */
  lemma HeaderKept(l: Layout, platform: Byte, rec: seq<Byte>, i: nat, s: Slot, w: Slot)
    requires KnownLayout(l) && |rec| == l.size && i < l.slots && SlotFits(l, s) && SlotFits(l, w) && Accepted(l, platform, s, w)
    ensures l.names <= l.size && Encoded(l, platform, rec, i, s, w)[l.crc..l.names] == rec[l.crc..l.names]
    ensures PlatformOf(l, Encoded(l, platform, rec, i, s, w)) == PlatformOf(l, rec)
  {
    hide Accepted, Edit, Plan, Where, SpansApart, Encoded;
    forall n | 0 <= n < SECTIONS
      ensures Where(l, i, n).length == 0 || SpansApart(Where(l, i, n), HeaderSpan(l))
    {
      HeaderApart(l, i, n);
    }
    StretchKept(l, platform, rec, i, s, w, HeaderSpan(l));
    HeaderApart(l, i, 0);
    var after := Encoded(l, platform, rec, i, s, w);
    assert after[l.crc..l.names][4] == rec[l.crc..l.names][4];
  }

  /** A section of another slot, or one of this slot that nothing is put in, keeps its bytes. */
  lemma SectionKept(l: Layout, platform: Byte, rec: seq<Byte>, i: nat, s: Slot, w: Slot, k: nat, n: nat)
    requires KnownLayout(l) && |rec| == l.size && i < l.slots && SlotFits(l, s) && SlotFits(l, w) && Accepted(l, platform, s, w)
    requires k < l.slots && n < SECTIONS && (k == i ==> Plan(l, platform, rec, i, s, w)[n].data == [])
    ensures At(l, Encoded(l, platform, rec, i, s, w), k, n) == At(l, rec, k, n)
  {
    hide Accepted, Changed, Where, Edit, Plan;
    var puts, t := Plan(l, platform, rec, i, s, w), Where(l, k, n);
    if t.length > 0 {
      forall m | 0 <= m < SECTIONS
        ensures puts[m].data == [] || puts[m].offset + |puts[m].data| <= t.offset || t.offset + t.length <= puts[m].offset
      {
        PlanPut(l, platform, rec, i, s, w, m);
        if puts[m].data != [] && (k, n) != (i, m) {
          SectionsApart(l, i, m, k, n);
        }
      }
      ApplyKeeps(rec, puts, SECTIONS, t.offset, t.length);
    }
  }

  /** Editing one slot leaves every other slot reading as it did. */
  lemma OtherSlotsKept(l: Layout, platform: Byte, rec: seq<Byte>, i: nat, s: Slot, w: Slot, k: nat)
    requires KnownLayout(l) && |rec| == l.size && i < l.slots && SlotFits(l, s) && SlotFits(l, w) && Accepted(l, platform, s, w)
    requires k < l.slots && k != i
    ensures DecodeSlot(l, Encoded(l, platform, rec, i, s, w), k) == DecodeSlot(l, rec, k)
  {
    hide Accepted, Changed, Where, Edit, Plan, At, Encoded, PlatformOf;
    HeaderKept(l, platform, rec, i, s, w);
    forall n | 0 <= n < SECTIONS
      ensures At(l, Encoded(l, platform, rec, i, s, w), k, n) == At(l, rec, k, n)
    {
      SectionKept(l, platform, rec, i, s, w, k, n);
    }
  }

  /** What an edit reports: nonempty, disjoint spans of the record, outside which nothing changed. */
  lemma SlotFrame(l: Layout, platform: Byte, rec: seq<Byte>, i: nat, s: Slot, w: Slot)
    requires KnownLayout(l) && |rec| == l.size && i < l.slots && SlotFits(l, s) && SlotFits(l, w) && Accepted(l, platform, s, w)
    ensures SpansDisjoint(EncodedSpans(l, platform, rec, i, s, w)) && SpansFit(l.size, EncodedSpans(l, platform, rec, i, s, w))
    ensures forall p :: 0 <= p < l.size && !Covered(p, EncodedSpans(l, platform, rec, i, s, w)) ==>
              Encoded(l, platform, rec, i, s, w)[p] == rec[p]
  {
    hide Accepted, Where, Edit, Plan, Changed, Apply;
    var puts := Plan(l, platform, rec, i, s, w);
    PlanApart(l, platform, rec, i, s, w);
    ChangedDisjoint(rec, puts, SECTIONS);
    forall p | 0 <= p < l.size && !Covered(p, Changed(rec, puts, SECTIONS))
      ensures Apply(rec, puts, SECTIONS)[p] == rec[p]
    {
      ChangedCovers(rec, puts, SECTIONS, p);
    }
  }

  /** An unedited slot writes nothing. */
  lemma UneditedWritesNothing(l: Layout, platform: Byte, rec: seq<Byte>, i: nat, s: Slot)
    requires KnownLayout(l) && |rec| == l.size && i < l.slots && SlotFits(l, s) && Accepted(l, platform, s, s)
    ensures EncodedSpans(l, platform, rec, i, s, s) == [] && Encoded(l, platform, rec, i, s, s) == rec
  {
    hide Accepted, Where, Plan, Changed, Apply, Holds;
    var front, puts := Front(l, platform, i, s, s), Plan(l, platform, rec, i, s, s);
    forall n | 0 <= n < MARK
      ensures Holds(rec, front[n]) && Holds(rec, puts[n])
    {
      assert Edit(l, platform, s, s, n) == [];
      EmptyHolds(rec, front[n]);
      EmptyHolds(rec, puts[n]);
    }
    ChangedNothing(rec, front, MARK);
    EmptyHolds(rec, puts[MARK]);
    ChangedNothing(rec, puts, SECTIONS);
  }

  // ---- What an edit reads back as

  function New(at: seq<Byte>, data: seq<Byte>): seq<Byte> { if data == [] then at else data }

  /** After the whole plan, a section holds what was put in it, or what it held. */
  lemma SectionAfter(l: Layout, platform: Byte, rec: seq<Byte>, i: nat, s: Slot, w: Slot, n: nat)
    requires KnownLayout(l) && |rec| == l.size && i < l.slots && SlotFits(l, s) && SlotFits(l, w) && Accepted(l, platform, s, w) && n < SECTIONS
    ensures At(l, Encoded(l, platform, rec, i, s, w), i, n) == New(At(l, rec, i, n), Plan(l, platform, rec, i, s, w)[n].data)
  {
    hide Accepted, Changed, Where, Edit, Plan, Apply;
    var puts := Plan(l, platform, rec, i, s, w);
    if puts[n].data == [] {
      SectionKept(l, platform, rec, i, s, w, i, n);
    } else {
      PlanPut(l, platform, rec, i, s, w, n);
      PlanApart(l, platform, rec, i, s, w);
      ApplyAt(rec, puts, SECTIONS, n);
    }
  }

  lemma EditAfter(l: Layout, platform: Byte, rec: seq<Byte>, i: nat, s: Slot, w: Slot, n: nat)
    requires KnownLayout(l) && |rec| == l.size && i < l.slots && SlotFits(l, s) && SlotFits(l, w) && Accepted(l, platform, s, w) && n < MARK
    ensures At(l, Encoded(l, platform, rec, i, s, w), i, n) == New(At(l, rec, i, n), Edit(l, platform, s, w, n))
  {
    hide Accepted, Changed, Where, Edit, Encoded, At;
    SectionAfter(l, platform, rec, i, s, w, n);
  }
}

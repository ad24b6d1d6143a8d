/** Decoding an edited slot gives the edit. */
module PadRoundTrip {
  import opened Bytes
  import opened Names
  import opened Patch
  import opened PadLayouts
  import opened PadSections
  import opened PadCombos
  import opened PadRules
  import opened PadCodec

  ghost predicate EditOk(l: Layout, platform: Byte, s: Slot, w: Slot) {
    KnownLayout(l) && SlotFits(l, s) && SlotFits(l, w) && Accepted(l, platform, s, w)
  }

  lemma ButtonsAfter(l: Layout, platform: Byte, at: seq<Byte>, s: Slot, w: Slot)
    requires EditOk(l, platform, s, w) && |at| == l.ButtonSection()
    requires ButtonsOf(l, platform, at) == w.buttons && ExtraOf(l, at) == w.extra
    ensures |New(at, Edit(l, platform, s, w, BUTTONS))| == l.ButtonSection()
    ensures ButtonsOf(l, platform, New(at, Edit(l, platform, s, w, BUTTONS))) == s.buttons
    ensures ExtraOf(l, New(at, Edit(l, platform, s, w, BUTTONS))) == s.extra
  {
    hide ButtonBytes, Marked, WordsIn, DefaultTarget;
    ButtonsRoundTrip(l, platform, s.buttons, s.extra);
    if s.buttons != w.buttons || s.extra != w.extra {
      var b := ButtonBytes(l, s.buttons, s.extra);
      forall x | l.inputs <= x < PAD_BUTTONS
        ensures s.buttons[x] == DefaultTarget(l, x, platform)
      {
        assert l.ultimateBT && Stored(l, x) == x;
        assert w.buttons[x] == DefaultTarget(l, x, platform);
      }
      assert ButtonsOf(l, platform, b) == s.buttons;
    }
  }

  lemma TablesAfter(l: Layout, platform: Byte, flag: seq<Byte>, at: seq<Byte>, s: Slot, w: Slot)
    requires EditOk(l, platform, s, w) && |flag| == (if l.ArcadePro() then 4 else 0) && |at| == (if l.ArcadePro() then TABLE_BYTES else 0)
    requires TablesOf(flag, at) == w.tables
    ensures |New(flag, Edit(l, platform, s, w, LIGHT_FLAG))| == |flag| && |New(at, Edit(l, platform, s, w, LIGHT_TABLES))| == |at|
    ensures TablesOf(New(flag, Edit(l, platform, s, w, LIGHT_FLAG)), New(at, Edit(l, platform, s, w, LIGHT_TABLES))) == s.tables
  {
    if s.tables != w.tables {
      hide TableBytes, Triple, KnownLayout;
      forall k | 0 <= k < CELLS
        ensures s.tables.colours[k] < COLOURS
      {
        if s.tables.colours[k] == w.tables.colours[k] {
          ReadColour(flag, at, k);
        }
      }
      TablesRoundTrip(s.tables);
    }
  }

  lemma ReadColour(flag: seq<Byte>, at: seq<Byte>, k: nat)
    requires |flag| == 4 && |at| == TABLE_BYTES && k < CELLS
    ensures TablesOf(flag, at).colours[k] < COLOURS
  {
  }

  lemma CombosAfter(l: Layout, platform: Byte, at: seq<Byte>, s: Slot, w: Slot)
    requires EditOk(l, platform, s, w) && |at| == (if l.ArcadePro() then COMBO_BYTES else 0) && CombosOf(at) == w.combos
    ensures |New(at, Edit(l, platform, s, w, COMBO))| == |at|
    ensures CombosOf(New(at, Edit(l, platform, s, w, COMBO))) == Compact(s.combos)
  {
    hide ComboBytes, CombosOf, Compact, KnownLayout;
    if s.combos == w.combos {
      ReadIsCompact(at);
    } else {
      CombosRoundTrip(s.combos);
    }
  }

  lemma RangesAfter(l: Layout, platform: Byte, sticks: seq<Byte>, triggers: seq<Byte>, options: seq<Byte>, s: Slot, w: Slot)
    requires EditOk(l, platform, s, w) && |sticks| == |triggers| == |options| == 8
    requires PairOf(sticks, 128) == w.sticks && PairOf(triggers, 255) == w.triggers && OptionsOf(options) == w.options
    ensures PairOf(New(sticks, Edit(l, platform, s, w, STICKS)), 128) == s.sticks
    ensures PairOf(New(triggers, Edit(l, platform, s, w, TRIGGER)), 255) == s.triggers
    ensures OptionsOf(New(options, Edit(l, platform, s, w, OPTIONS))) == s.options
  {
    hide PairOf, PairBytes, OptionsOf, OptionsBytes, KnownLayout, Accepted;
    PairRoundTrip(s.sticks, 128);
    PairRoundTrip(s.triggers, 255);
    OptionsRoundTrip(s.options);
  }

  lemma MotionAfter(l: Layout, platform: Byte, at: seq<Byte>, s: Slot, w: Slot)
    requires EditOk(l, platform, s, w) && |at| == (if l.HasMotion() then 12 else 0) && MotionOf(at) == w.motion
    ensures |New(at, Edit(l, platform, s, w, MOTION))| == |at|
    ensures MotionOf(New(at, Edit(l, platform, s, w, MOTION))) == NormalMotion(s.motion)
  {
    if s.motion != w.motion {
      hide MotionOf, MotionBytes, KnownLayout;
      MotionRoundTrip(s.motion);
    }
  }

  lemma LightsAfter(l: Layout, platform: Byte, tracing: seq<Byte>, fire: seq<Byte>, custom: seq<Byte>, s: Slot, w: Slot)
    requires EditOk(l, platform, s, w)
    requires if l.HasLights() then |tracing| == 12 && |fire| == 16 && |custom| == 100 else tracing == fire == custom == []
    requires TracingOf(tracing) == w.tracing && FireOf(fire) == w.fire && CustomOf(custom) == w.custom
    ensures |New(tracing, Edit(l, platform, s, w, TRACING))| == |tracing| && |New(fire, Edit(l, platform, s, w, FIRE))| == |fire|
    ensures |New(custom, Edit(l, platform, s, w, CUSTOM))| == |custom|
    ensures TracingOf(New(tracing, Edit(l, platform, s, w, TRACING))) == s.tracing
    ensures FireOf(New(fire, Edit(l, platform, s, w, FIRE))) == s.fire
    ensures CustomOf(New(custom, Edit(l, platform, s, w, CUSTOM))) == s.custom
  {
    hide TracingOf, FireOf, CustomOf, TracingBytes, FireBytes, CustomBytes, KnownLayout;
    if s.tracing != w.tracing { TracingRoundTrip(s.tracing); }
    if s.fire != w.fire { FireRoundTrip(s.fire); }
    if s.custom != w.custom { CustomRoundTrip(s.custom); }
  }

  /** What a slot reads back as: motion that is off has no settings, and combos are at the front. */
  function NormalSlot(s: Slot): Slot
    requires s.Shaped()
  {
    s.(motion := NormalMotion(s.motion), combos := Compact(s.combos))
  }

  /** The name the edit asks for is what its stored form reads as. */
  predicate NameReads(l: Layout, rec: seq<Byte>, i: nat, s: Slot)
    requires KnownLayout(l) && |rec| == l.size && i < l.slots && s.Shaped()
  {
    if s.name == DecodeSlot(l, rec, i).name then DecodeName(At(l, rec, i, NAME)) == s.name else Storable(s.name)
  }

  ghost predicate SlotEdit(l: Layout, rec: seq<Byte>, i: nat, s: Slot) {
    && KnownLayout(l) && |rec| == l.size && i < l.slots
    && EditOk(l, PlatformOf(l, rec), s, DecodeSlot(l, rec, i))
  }

  /** The record after an edit of the slot it was read from. */
  function Edited(l: Layout, rec: seq<Byte>, i: nat, s: Slot): (after: seq<Byte>)
    requires SlotEdit(l, rec, i, s)
    ensures |after| == l.size
  {
    Encoded(l, PlatformOf(l, rec), rec, i, s, DecodeSlot(l, rec, i))
  }

  /** Every setting but the name and the mark reads back as edited. */
  lemma SettingsRead(l: Layout, rec: seq<Byte>, i: nat, s: Slot)
    requires SlotEdit(l, rec, i, s)
    ensures DecodeSlot(l, Edited(l, rec, i, s), i).(inUse := s.inUse, name := s.name) == NormalSlot(s)
  {
    var platform, w, after := PlatformOf(l, rec), DecodeSlot(l, rec, i), Edited(l, rec, i, s);
    forall n | 0 <= n < MARK
      ensures At(l, after, i, n) == New(At(l, rec, i, n), Edit(l, platform, s, w, n))
    {
      EditAfter(l, platform, rec, i, s, w, n);
    }
    HeaderKept(l, platform, rec, i, s, w);
    SectionLengths(l, rec, i);
    hide Edit, Encoded, Where, Accepted, At, PlatformOf, Edited;
    hide ButtonsOf, ExtraOf, PairOf, OptionsOf, MotionOf, TracingOf, FireOf, CustomOf, CombosOf, TablesOf, Compact;
    ButtonsAfter(l, platform, At(l, rec, i, BUTTONS), s, w);
    RangesAfter(l, platform, At(l, rec, i, STICKS), At(l, rec, i, TRIGGER), At(l, rec, i, OPTIONS), s, w);
    MotionAfter(l, platform, At(l, rec, i, MOTION), s, w);
    LightsAfter(l, platform, At(l, rec, i, TRACING), At(l, rec, i, FIRE), At(l, rec, i, CUSTOM), s, w);
    CombosAfter(l, platform, At(l, rec, i, COMBO), s, w);
    TablesAfter(l, platform, At(l, rec, i, LIGHT_FLAG), At(l, rec, i, LIGHT_TABLES), s, w);
    EffectAfter(l, platform, At(l, rec, i, LIGHT_EFFECT), s, w);
  }

  lemma SectionLengths(l: Layout, rec: seq<Byte>, i: nat)
    requires KnownLayout(l) && |rec| == l.size && i < l.slots
    ensures |At(l, rec, i, BUTTONS)| == l.ButtonSection()
    ensures |At(l, rec, i, STICKS)| == |At(l, rec, i, TRIGGER)| == |At(l, rec, i, OPTIONS)| == 8
    ensures |At(l, rec, i, MOTION)| == if l.HasMotion() then 12 else 0
    ensures if l.HasLights() then |At(l, rec, i, TRACING)| == 12 && |At(l, rec, i, FIRE)| == 16 && |At(l, rec, i, CUSTOM)| == 100
            else At(l, rec, i, TRACING) == At(l, rec, i, FIRE) == At(l, rec, i, CUSTOM) == []
    ensures |At(l, rec, i, COMBO)| == if l.ArcadePro() then COMBO_BYTES else 0
    ensures |At(l, rec, i, LIGHT_FLAG)| == if l.ArcadePro() then 4 else 0
    ensures |At(l, rec, i, LIGHT_TABLES)| == if l.ArcadePro() then TABLE_BYTES else 0
    ensures |At(l, rec, i, LIGHT_EFFECT)| == if l.ArcadePro() then 1 else 0
  {
    hide KnownLayout;
  }

  lemma EffectAfter(l: Layout, platform: Byte, at: seq<Byte>, s: Slot, w: Slot)
    requires EditOk(l, platform, s, w) && |at| == (if l.ArcadePro() then 1 else 0)
    requires w.effect == if l.ArcadePro() then at[0] else 0
    ensures |New(at, Edit(l, platform, s, w, LIGHT_EFFECT))| == |at|
    ensures s.effect == if l.ArcadePro() then New(at, Edit(l, platform, s, w, LIGHT_EFFECT))[0] else 0
  {
    hide KnownLayout;
  }

  /** A slot with anything set in it is in use, whatever the edit says. */
  lemma MarkRead(l: Layout, rec: seq<Byte>, i: nat, s: Slot)
    requires SlotEdit(l, rec, i, s)
    ensures DecodeSlot(l, Edited(l, rec, i, s), i).inUse
       <==> s.inUse || AnyChanged(l, PlatformOf(l, rec), rec, i, s, DecodeSlot(l, rec, i))
  {
    var platform, w := PlatformOf(l, rec), DecodeSlot(l, rec, i);
    SectionAfter(l, platform, rec, i, s, w, MARK);
    hide Edit, Where, Accepted, At, Encoded, AnyChanged;
    MarkedSection([]);
    assert SECTION_FLAG + [] == SECTION_FLAG;
    assert !Marked([0, 0, 0, 0]);
  }

  lemma NameAfter(l: Layout, rec: seq<Byte>, i: nat, s: Slot)
    requires SlotEdit(l, rec, i, s)
    ensures DecodeName(At(l, Edited(l, rec, i, s), i, NAME)) == s.name <==> NameReads(l, rec, i, s)
  {
    var platform, w := PlatformOf(l, rec), DecodeSlot(l, rec, i);
    EditAfter(l, platform, rec, i, s, w, NAME);
    hide At, Encoded, Where;
    NameRoundTrip(s.name);
  }

  /**
   An accepted edit that leaves its slot in use decodes to its normal form exactly when the name asked
   for is one the stored form can carry, or is the one already stored.
   */
  lemma SlotRoundTrip(l: Layout, rec: seq<Byte>, i: nat, s: Slot)
    requires SlotEdit(l, rec, i, s) && s.inUse
    ensures DecodeSlot(l, Edited(l, rec, i, s), i) == NormalSlot(s) <==> NameReads(l, rec, i, s)
  {
    hide Edited, At, NameReads;
    SettingsRead(l, rec, i, s);
    MarkRead(l, rec, i, s);
    NameAfter(l, rec, i, s);
    hide NormalSlot, ButtonsOf, ExtraOf, PairOf, OptionsOf, MotionOf, TracingOf, FireOf, CustomOf, CombosOf, TablesOf, DecodeName;
  }

  /** A slot already in use keeps its name unless the edit gives it one that cannot be stored. */
  lemma InUseNameReads(l: Layout, rec: seq<Byte>, i: nat, s: Slot)
    requires SlotEdit(l, rec, i, s) && DecodeSlot(l, rec, i).inUse
    ensures NameReads(l, rec, i, s) <==> s.name == DecodeSlot(l, rec, i).name || Storable(s.name)
  {
    hide At, EditOk, Storable, ButtonsOf, ExtraOf, PairOf, OptionsOf, MotionOf, TracingOf, FireOf, CustomOf, CombosOf, TablesOf;
  }

  /** What is read always has the shape an edit needs. */
  lemma DecodedFits(l: Layout, rec: seq<Byte>, i: nat)
    requires KnownLayout(l) && |rec| == l.size && i < l.slots
    ensures SlotFits(l, DecodeSlot(l, rec, i))
  {
    SectionLengths(l, rec, i);
    hide KnownLayout, Where, At;
  }
}

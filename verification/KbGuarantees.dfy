/** What a reader of the keyboard finds after an apply or a rollback. */
module KbGuarantees {
  import opened Bytes
  import opened Names
  import opened KbTargets
  import opened KbLighting
  import opened KbCodec
  import KbMacros
  import opened KbProfile
  import opened KbApply

  /** Marking a record as in use changes nothing it shows. */
  lemma InUseKeepsFields(l: Layout, rec: seq<Byte>)
    requires KnownLayout(l) && |rec| == RECORD_SIZE
    ensures InUse(Le32(IN_USE) + rec[4..])
    ensures DecodeFields(l, Le32(IN_USE) + rec[4..]) == DecodeFields(l, rec)
  {
    hide DecodeName, DecodeTarget, DecodeTheme, ThemeFromWire, LocksOf;
    var marked := Le32(IN_USE) + rec[4..];
    Word32OfLe32(IN_USE);
    assert forall i :: 0 <= i < 4 ==> marked[i] == Le32(IN_USE)[i];
    forall n | 0 <= n < SECTIONS
      ensures At(marked, n) == At(rec, n)
    {
    }
  }

  /** The settings a reader finds after a successful apply are the edit's, in their normal form. */
  lemma AppliedSettings(l: Layout, record: seq<Byte>, area: seq<Byte>, lights: seq<Byte>, e: Profile)
    requires KnownLayout(l) && |record| == RECORD_SIZE && KbMacros.StorageOk(l, area) && BlockOk(l, lights)
    requires Editable(l, ProfileOf(l, record, area, lights), e) && Accepts(l, ProfileOf(l, record, area, lights), e)
    ensures var before := ProfileOf(l, record, area, lights);
            var shown := DecodeFields(l, Base(l, WantedRecord(l, before, e)));
            && (forall i :: 0 <= i < KEY_SLOTS ==>
                  shown.targets[i] == NormalTarget(l, Base(l, record), e.fields, before.fields, i))
            && shown == e.fields.(name := shown.name, targets := shown.targets)
            && (shown.name == e.fields.name <==> e.fields.name == before.fields.name || Storable(e.fields.name))
  {
    hide Encoded, EncodedSpans, NormalTarget, Storable, HeardMacros, DecodePerKey, Accepted, Nothing, DecodeFields;
    var before := ProfileOf(l, record, area, lights);
    var base := Base(l, record);
    RecordRoundTrip(l, base, e.fields);
    var encoded := Encoded(l, base, e.fields, before.fields);
    var wanted := WantedRecord(l, before, e);
    if before.inUse {
      InUseFlagKept(l, base, e.fields, before.fields);
    } else if Nothing(l, before, e) {
      NothingEncodesBase(l, before, e);
    } else {
      InUseKeepsFields(l, encoded);
    }
  }

  /** No section an edit writes covers the in-use flag. */
  lemma InUseFlagKept(l: Layout, rec: seq<Byte>, e: Fields, w: Fields)
    requires KnownLayout(l) && |rec| == RECORD_SIZE && Shaped(e) && Shaped(w)
    ensures InUse(Encoded(l, rec, e, w)) == InUse(rec)
  {
    hide Edit, Patch.Apply;
    var puts := Plan(l, rec, e, w);
    forall n | 0 <= n < SECTIONS
      ensures puts[n].data == [] || puts[n].offset >= 4
    {
      assert puts[n] == PutOf(l, rec, e, w, n);
    }
    Patch.ApplyKeeps(rec, puts, SECTIONS, 0, 4);
    var after := Encoded(l, rec, e, w);
    assert after[0..4] == rec[0..4];
    assert forall i :: 0 <= i < 4 ==> after[i] == after[0..4][i] && rec[i] == rec[0..4][i];
  }

  lemma NothingEncodesBase(l: Layout, before: Profile, e: Profile)
    requires Editable(l, before, e) && LightsAccepted(l, before, e) && Nothing(l, before, e)
    ensures Encoded(l, Base(l, before.record), e.fields, before.fields) == Base(l, before.record)
  {
    hide Encoded, EncodedSpans, Shaped, Base;
    RecordFrame(l, Base(l, before.record), e.fields, before.fields);
  }

  /** The per-key colours a reader finds after a successful apply are the edit's. */
  lemma AppliedLights(l: Layout, record: seq<Byte>, area: seq<Byte>, lights: seq<Byte>, e: Profile)
    requires KnownLayout(l) && |record| == RECORD_SIZE && KbMacros.StorageOk(l, area) && BlockOk(l, lights)
    requires Editable(l, ProfileOf(l, record, area, lights), e) && LightsAccepted(l, ProfileOf(l, record, area, lights), e)
    ensures DecodePerKey(l, WantedLights(l, ProfileOf(l, record, area, lights), e)) == e.perKey
  {
    hide DecodePerKey, PerKeyBlock, PerKeyAccepted, DecodeFields, HeardMacros, Base;
    if e.perKey != DecodePerKey(l, lights) {
      PerKeyRoundTrip(l, lights, e.perKey);
    }
  }

  /** A macro the apply stored reads as the edit's, its name exactly when it can be stored. */
  lemma AppliedMacro(l: Layout, was: seq<Byte>, now: seq<Byte>, before: Profile, e: Profile, slot: nat)
    requires Editable(l, before, e) && KbMacros.StorageOk(l, was) && KbMacros.StorageOk(l, now)
    requires MacrosStored(l, was, now, before, e)
    requires slot < l.macroSlots && NeedOf(l, before, e, slot).Some?
    ensures var m := KbMacros.MacroAt(l, now, slot);
            && m == e.macros[slot].(name := m.name)
            && (WellFormed(e.macros[slot].name) ==> (m.name == e.macros[slot].name <==> Storable(e.macros[slot].name)))
  {
    hide KbMacros.EncodeMacro, KbMacros.MacroAt, KbMacros.StepOk, Shaped, InUse, Storable, EncodeName, DecodeName;
    var m := e.macros[slot];
    var targets := e.fields.targets;
    assert SlotStored(l, was, now, slot, NeedOf(l, before, e, slot));
    KbMacros.PlayersOfFirst(targets, slot);
    var trigger := KbMacros.FirstPlayer(targets, slot).value;
    assert NeedOf(l, before, e, slot).value.image == KbMacros.EncodeMacro(trigger, m);
    assert forall i :: 0 <= i < |m.steps| ==> KbMacros.StepOk(m.steps[i]);
    StepsFit(m.steps);
    KbMacros.ImageReads(l, now, slot, trigger, m);
    if WellFormed(m.name) { NameRoundTrip(m.name); }
  }

  /** A macro an edit leaves alone, played by the key that played it. */
  ghost predicate Unedited(before: Profile, e: Profile, slot: nat)
    requires slot < |before.macros| && slot < |e.macros|
  {
    && e.macros[slot] == before.macros[slot]
    && KbMacros.FirstPlayer(e.fields.targets, slot) == KbMacros.FirstPlayer(before.fields.targets, slot)
  }

  /** What a slot reads as that was not written because its stored form is that of the edit's macro. */
  lemma AlikeMacro(l: Layout, was: seq<Byte>, i: nat, m: KbMacros.Macro, j: nat, b: KbMacros.Macro, slot: nat)
    requires KnownLayout(l) && KbMacros.StorageOk(l, was) && slot < l.macroSlots && b == KbMacros.MacroAt(l, was, slot)
    requires b.steps != [] && WellFormed(m.name) && i < 256 && j < 256 && KbMacros.EncodeMacro(i, m) == KbMacros.EncodeMacro(j, b)
    ensures b == m.(name := b.name) <==> KbMacros.NumbersFit(m)
    ensures KbMacros.NumbersFit(m) ==> (b.name == m.name <==> (Encodable(m.name) && Storable(m.name)) || (m == b && i == j))
  {
    NameHeard(l, was, slot);
    KbMacros.ReadMacroFits(l, was, slot);
    var raw := KbMacros.HeaderAt(l, was, slot)[5..5 + NAME_BYTES];
    hide KbMacros.MacroAt, KbMacros.HeaderAt, KbMacros.EncodeMacro, KbMacros.FieldsFit, DecodeName, WellFormed, Storable, KnownLayout, KbMacros.StorageOk;
    AlikeRead(l, i, m, j, b, raw);
  }

  lemma AlikeRead(l: Layout, i: nat, m: KbMacros.Macro, j: nat, b: KbMacros.Macro, raw: seq<Byte>)
    requires KbMacros.FieldsFit(l, b) && |raw| == NAME_BYTES && b.name == DecodeName(raw) && i < 256 && j < 256
    requires KbMacros.EncodeMacro(i, m) == KbMacros.EncodeMacro(j, b)
    ensures b == m.(name := b.name) <==> KbMacros.NumbersFit(m)
    ensures KbMacros.NumbersFit(m) ==> (b.name == m.name <==> (Encodable(m.name) && Storable(m.name)) || (m == b && i == j))
  {
    assert Encodable(b.name);
    hide KbMacros.EncodeMacro, KbMacros.NumbersFit, DecodeName, Storable, EncodeName, KbMacros.NameField;
    KbMacros.SameImage(l, i, m, j, b);
    hide KbMacros.FieldsFit;
    SameByte(i, j);
    AlikeName(m.name, b.name, raw);
    SameButName(m, b);
  }

  lemma SameButName(m: KbMacros.Macro, b: KbMacros.Macro)
    ensures b == m.(name := b.name) <==> m == b.(name := m.name)
    ensures m == b.(name := m.name) && m.name == b.name ==> m == b
  {
  }

  lemma SameByte(i: nat, j: nat)
    requires i < 256 && j < 256 && i % 256 == j % 256
    ensures i == j
  {
  }

  lemma AlikeName(name: Name, read: Name, raw: seq<Byte>)
    requires |raw| == NAME_BYTES && read == DecodeName(raw) && Encodable(read) && KbMacros.NameField(name) == EncodeName(read)
    ensures Encodable(name) && Storable(name) ==> name == read
  {
    hide DecodeName, EncodeName, Storable;
    if Encodable(name) && Storable(name) { SameStoredName(name, raw); }
  }

  lemma NameHeard(l: Layout, area: seq<Byte>, slot: nat)
    requires KnownLayout(l) && KbMacros.StorageOk(l, area) && slot < l.macroSlots && KbMacros.MacroAt(l, area, slot).steps != []
    ensures KbMacros.MacroAt(l, area, slot).name == DecodeName(KbMacros.HeaderAt(l, area, slot)[5..5 + NAME_BYTES])
  {
    hide KbMacros.StepCount, KbMacros.HeaderAt, KbMacros.StepsAt, KbMacros.DecodeSteps, DecodeName;
  }

  /**
   After an apply every slot some key of the edit plays reads as the edit's macro: but for its name,
   exactly when its numbers fit the fields they are stored in, and its name too exactly when it can be
   stored or the macro was left alone. What is sent was checked; a macro whose stored form is the one
   read is neither checked nor sent, so one with a number too large for its field passes for that one.
   */
  lemma PlayedMacro(l: Layout, record: seq<Byte>, was: seq<Byte>, lights: seq<Byte>, now: seq<Byte>, e: Profile, slot: nat)
    requires KnownLayout(l) && |record| == RECORD_SIZE && BlockOk(l, lights)
    requires KbMacros.StorageOk(l, was) && KbMacros.StorageOk(l, now)
    requires Editable(l, ProfileOf(l, record, was, lights), e) && Accepts(l, ProfileOf(l, record, was, lights), e)
    requires MacrosStored(l, was, now, ProfileOf(l, record, was, lights), e)
    requires slot < l.macroSlots && KbMacros.IsPlayed(e.fields.targets, slot)
    requires e.macros[slot].steps != [] && WellFormed(e.macros[slot].name)
    ensures var before, wanted, got := ProfileOf(l, record, was, lights), e.macros[slot], KbMacros.MacroAt(l, now, slot);
            && (got == wanted.(name := got.name) <==> KbMacros.NumbersFit(wanted))
            && (KbMacros.NumbersFit(wanted) ==>
                  (got.name == wanted.name <==> (Encodable(wanted.name) && Storable(wanted.name)) || Unedited(before, e, slot)))
  {
    var before, m, targets := ProfileOf(l, record, was, lights), e.macros[slot], e.fields.targets;
    hide ProfileOf, KbMacros.EncodeMacro, KbMacros.MacroAt, Shaped, InUse, Storable, WellFormed, EncodeName, DecodeName;
    HeardAt(l, record, was, lights, slot);
    KbMacros.PlanMeans(l, KbProfile.Played(e), KbProfile.Played(before), slot);
    assert SlotStored(l, was, now, slot, NeedOf(l, before, e, slot));
    KeysAreBytes(e.fields.targets, before.fields.targets, slot);
    hide KbMacros.FirstPlayer, KbMacros.IsPlayed, KbMacros.PlayedOnce, KbMacros.NumbersFit;
    if NeedOf(l, before, e, slot).Some? {
      AppliedMacro(l, was, now, before, e, slot);
      SentFits(l, before, e, slot);
    } else {
      SlotAlone(l, was, now, slot);
      AlikeMacro(l, was, KbMacros.FirstPlayer(targets, slot).value, m, KbMacros.FirstPlayer(before.fields.targets, slot).value,
                 before.macros[slot], slot);
    }
  }

  /** A slot whose macro's stored form changed names the key that plays it. */
  lemma PlayingKey(l: Layout, was: seq<Byte>, now: seq<Byte>, before: Profile, e: Profile, slot: nat)
    requires Editable(l, before, e) && Accepts(l, before, e) && KbMacros.StorageOk(l, was) && KbMacros.StorageOk(l, now)
    requires MacrosStored(l, was, now, before, e) && slot < l.macroSlots
    requires KbMacros.IsPlayed(e.fields.targets, slot) && !KbMacros.StoredAlike(KbProfile.Played(e), KbProfile.Played(before), slot)
    ensures var key := KbMacros.HeaderAt(l, now, slot)[4];
            key < |e.fields.targets| && e.fields.targets[key] == PlayMacro(slot) && KbMacros.PlayedOnce(e.fields.targets, slot)
  {
    EditSizes(l, before, e, slot);
    hide NeedOf, Accepts, Shaped, MacrosStored, KnownLayout, KbMacros.IsPlayed, KbMacros.PlayedOnce, KbMacros.StoredAlike;
    hide KbMacros.FirstPlayer, KbMacros.EncodeMacro, Editable, KbMacros.HeaderAt;
    PlayingImage(l, before, e, slot);
    SentHeader(l, was, now, before, e, slot);
    FirstPlayerNamed(e.fields.targets, slot, e.macros[slot]);
  }

  lemma EditSizes(l: Layout, before: Profile, e: Profile, slot: nat)
    requires Editable(l, before, e) && slot < l.macroSlots
    ensures |e.fields.targets| <= 256 && slot < |e.macros|
  {
  }

  lemma FirstPlayerNamed(targets: seq<Target>, slot: nat, m: KbMacros.Macro)
    requires |targets| <= 256 && KbMacros.FirstPlayer(targets, slot).Some?
    ensures var key := KbMacros.EncodeMacro(KbMacros.FirstPlayer(targets, slot).value, m).header[4];
            key < |targets| && targets[key] == PlayMacro(slot)
  {
    hide KbMacros.FirstPlayer, KbMacros.EncodeMacro;
    var i := KbMacros.FirstPlayer(targets, slot).value;
    TriggerByte(i, m);
    assert KbMacros.Plays(targets[i], slot) && i % 256 == i;
  }

  lemma SentHeader(l: Layout, was: seq<Byte>, now: seq<Byte>, before: Profile, e: Profile, slot: nat)
    requires Editable(l, before, e) && KbMacros.StorageOk(l, was) && KbMacros.StorageOk(l, now)
    requires MacrosStored(l, was, now, before, e) && slot < l.macroSlots && NeedOf(l, before, e, slot).Some?
    ensures KbMacros.HeaderAt(l, now, slot) == NeedOf(l, before, e, slot).value.image.header
  {
    hide NeedOf, Shaped;
    assert SlotStored(l, was, now, slot, NeedOf(l, before, e, slot));
  }

  /** The image sent for it is the macro's own with that key. */
  lemma PlayingImage(l: Layout, before: Profile, e: Profile, slot: nat)
    requires Editable(l, before, e) && Accepts(l, before, e) && slot < l.macroSlots
    requires KbMacros.IsPlayed(e.fields.targets, slot) && !KbMacros.StoredAlike(KbProfile.Played(e), KbProfile.Played(before), slot)
    ensures NeedOf(l, before, e, slot).Some? && KbMacros.FirstPlayer(e.fields.targets, slot).Some?
    ensures NeedOf(l, before, e, slot).value.image == KbMacros.EncodeMacro(KbMacros.FirstPlayer(e.fields.targets, slot).value, e.macros[slot])
    ensures KbMacros.PlayedOnce(e.fields.targets, slot)
  {
    KbMacros.PlanMeans(l, KbProfile.Played(e), KbProfile.Played(before), slot);
    hide KbMacros.SlotPlan, KbMacros.EncodeMacro, KbMacros.FirstPlayer;
    hide KbMacros.IsPlayed, KbMacros.PlayedOnce, KbMacros.StoredAlike, KbMacros.MacroOk, Shaped;
  }

  lemma TriggerByte(trigger: nat, m: KbMacros.Macro)
    ensures KbMacros.EncodeMacro(trigger, m).header[4] == trigger % 256
  {
  }

  /** A slot no key of the edit plays keeps its bytes, whether the edit is applied or rolled back. */
  lemma UnplayedKept(l: Layout, was: seq<Byte>, now: seq<Byte>, before: Profile, e: Profile, slot: nat)
    requires Editable(l, before, e) && KbMacros.StorageOk(l, was) && KbMacros.StorageOk(l, now)
    requires MacrosStored(l, was, now, before, e) || MacrosRestored(l, was, now, before, e)
    requires slot < l.macroSlots && !KbMacros.IsPlayed(e.fields.targets, slot)
    ensures SlotBytes(l, was, slot) == SlotBytes(l, now, slot)
  {
    KbMacros.PlanMeans(l, KbProfile.Played(e), KbProfile.Played(before), slot);
    hide KbMacros.SlotPlan, KbMacros.IsPlayed, SlotBytes, KbMacros.StorageOk;
    assert NeedOf(l, before, e, slot).None?;
    if MacrosStored(l, was, now, before, e) {
      assert SlotStored(l, was, now, slot, NeedOf(l, before, e, slot));
    } else {
      assert SlotRestored(l, was, now, slot, NeedOf(l, before, e, slot));
    }
  }

  const TAP := KbMacros.Macro([65], [KbMacros.Step(KbMacros.PRESS, 4, 10), KbMacros.Step(KbMacros.RELEASE, 4, 10)], 1, 0, 0)

  /** A macro to be played 257 times where the keyboard holds it to be played once: no macro it can hold, and nothing to send. */
  lemma UncheckedRepeat(l: Layout)
    requires KnownLayout(l)
    ensures var before, edited := KbMacros.Played([PlayMacro(0)], [TAP]), KbMacros.Played([PlayMacro(0)], [TAP.(repeat := 257)]);
            && !KbMacros.MacroOk(l, edited.macros[0]) && !KbMacros.NumbersFit(edited.macros[0])
            && KbMacros.PlanOk(l, edited, before, 1) && KbMacros.WritesFor(l, edited, before, 1) == []
  {
    var before, edited := KbMacros.Played([PlayMacro(0)], [TAP]), KbMacros.Played([PlayMacro(0)], [TAP.(repeat := 257)]);
    assert KbMacros.Plays(edited.targets[0], 0);
    KbMacros.PlanMeans(l, edited, before, 0);
    assert KbMacros.HeaderRaw(0, edited.macros[0]) == KbMacros.HeaderRaw(0, before.macros[0]);
    hide KbMacros.HeaderRaw, KbMacros.StepsRaw;
    assert KbMacros.StoredAlike(edited, before, 0);
    hide KbMacros.SlotPlan, KbMacros.StoredAlike;
    assert KbMacros.WritesFor(l, edited, before, 0) == [];
  }

  lemma HeardAt(l: Layout, record: seq<Byte>, area: seq<Byte>, lights: seq<Byte>, slot: nat)
    requires KnownLayout(l) && |record| == RECORD_SIZE && KbMacros.StorageOk(l, area) && BlockOk(l, lights) && slot < l.macroSlots
    ensures var p := ProfileOf(l, record, area, lights);
            KbMacros.FirstPlayer(p.fields.targets, slot).Some? ==> slot < |p.macros| && p.macros[slot] == KbMacros.MacroAt(l, area, slot)
  {
    hide DecodeFields, DecodePerKey, Base, InUse, KbMacros.MacroAt;
  }

  lemma KeysAreBytes(a: seq<Target>, b: seq<Target>, slot: nat)
    requires |a| <= 256 && |b| <= 256
    ensures KbMacros.FirstPlayer(a, slot).Some? ==> KbMacros.FirstPlayer(a, slot).value < 256
    ensures KbMacros.FirstPlayer(b, slot).Some? ==> KbMacros.FirstPlayer(b, slot).value < 256
  {
  }

  /** What is sent was checked. */
  lemma SentFits(l: Layout, before: Profile, e: Profile, slot: nat)
    requires Editable(l, before, e) && slot < l.macroSlots && NeedOf(l, before, e, slot).Some?
    ensures KbMacros.NumbersFit(e.macros[slot]) && Encodable(e.macros[slot].name) && !Unedited(before, e, slot)
  {
    KbMacros.PlanMeans(l, KbProfile.Played(e), KbProfile.Played(before), slot);
    hide KbMacros.EncodeMacro, KbMacros.FirstPlayer, KbMacros.IsPlayed;
    assert KbMacros.MacroOk(l, e.macros[slot]);
    assert forall i :: 0 <= i < |e.macros[slot].steps| ==> KbMacros.StepOk(e.macros[slot].steps[i]);
  }

  lemma StepsFit(steps: seq<KbMacros.Step>)
    requires forall i :: 0 <= i < |steps| ==> KbMacros.StepOk(steps[i])
    ensures forall i :: 0 <= i < |steps| ==> 0 <= steps[i].millis < 0x1_0000
  {
  }

  /**
   After a successful rollback, a slot that held a macro some key played reads as that macro: always
   when no key of the edit plays the slot or its stored form was not to change, and otherwise exactly
   when the macro's name holds no replacement character. A name stored with a broken surrogate pair
   reads with one, is written back with it, and its 0xff byte then reads as erased flash.
   */
  lemma RestoredMacro(l: Layout, record: seq<Byte>, was: seq<Byte>, lights: seq<Byte>, now: seq<Byte>, e: Profile, slot: nat)
    requires KnownLayout(l) && |record| == RECORD_SIZE && BlockOk(l, lights)
    requires KbMacros.StorageOk(l, was) && KbMacros.StorageOk(l, now)
    requires Editable(l, ProfileOf(l, record, was, lights), e) && Accepts(l, ProfileOf(l, record, was, lights), e)
    requires MacrosRestored(l, was, now, ProfileOf(l, record, was, lights), e)
    requires slot < l.macroSlots && ProfileOf(l, record, was, lights).macros[slot].steps != []
    ensures var before := ProfileOf(l, record, was, lights);
            KbMacros.MacroAt(l, now, slot) == before.macros[slot] <==>
            !KbMacros.IsPlayed(e.fields.targets, slot) || KbMacros.StoredAlike(KbProfile.Played(e), KbProfile.Played(before), slot)
            || REPLACEMENT !in before.macros[slot].name
  {
    hide KbMacros.EncodeMacro, KbMacros.MacroAt, DecodeFields, DecodePerKey, Base, InUse, Shaped, EncodeName, DecodeName, KbMacros.MacroOk, KbMacros.Players;
    var before := ProfileOf(l, record, was, lights);
    KbMacros.PlanMeans(l, KbProfile.Played(e), KbProfile.Played(before), slot);
    assert SlotRestored(l, was, now, slot, NeedOf(l, before, e, slot));
    assert before.macros[slot] == KbMacros.MacroAt(l, was, slot);
    hide KbMacros.StoredAlike, KbMacros.IsPlayed, KbMacros.PlayedOnce;
    if NeedOf(l, before, e, slot).None? {
      SlotAlone(l, was, now, slot);
    } else {
      var trigger := KbMacros.FirstPlayer(before.fields.targets, slot).value;
      KbMacros.ReadMacroFits(l, was, slot);
      KbMacros.ImageReads(l, now, slot, trigger, before.macros[slot]);
    }
  }

  /** A stored macro whose name is one half of a surrogate pair. */
  const BROKEN := KbMacros.Image(
    Le32(KbMacros.IN_USE) + [0] + LONE_SURROGATE + [0] + Le16(1) + Le16(0) + [1, 0] + Fill(4, 0), [KbMacros.PRESS, 4, 10, 0])

  lemma BrokenHeader()
    ensures |BROKEN.header| == KbMacros.HEADER && Word32(BROKEN.header) == KbMacros.IN_USE
    ensures BROKEN.header[5..5 + NAME_BYTES] == LONE_SURROGATE && Word16(BROKEN.header[38..]) == 1
    ensures Word16(BROKEN.header[40..]) == 0 && BROKEN.header[42] == 1 && BROKEN.header[43] == 0
  {
    Word32OfLe32(KbMacros.IN_USE);
    var h := BROKEN.header;
    assert h[..4] == Le32(KbMacros.IN_USE);
    assert h[0] == h[..4][0] && h[1] == h[..4][1] && h[2] == h[..4][2] && h[3] == h[..4][3];
  }

  /** Written back by a rollback as it was read, it reads as the same macro without its name. */
  lemma BrokenNameLost()
    ensures |BROKEN.header| == KbMacros.HEADER && Word32(BROKEN.header) == KbMacros.IN_USE
    ensures var m := KbMacros.DecodeMacro(BROKEN.header, BROKEN.steps);
            var back := KbMacros.EncodeMacro(0, m);
            && Word16(BROKEN.header[38..]) == 1 == |m.steps| && m.name == [REPLACEMENT]
            && KbMacros.DecodeMacro(back.header, back.steps) == m.(name := [])
  {
    BrokenHeader();
    LoneSurrogateLost();
    var m := KbMacros.DecodeMacro(BROKEN.header, BROKEN.steps);
    assert 0 <= m.steps[0].millis < 0x1_0000;
    hide DecodeName, EncodeName, KbMacros.HeaderRaw, KbMacros.StepsRaw, KbMacros.DecodeSteps, LONE_SURROGATE, BROKEN;
    KbMacros.HeaderParts(0, m);
    KbMacros.StepsRoundTrip(m.steps);
  }
}

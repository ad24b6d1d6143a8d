/** Writing a backed-up record keyboard profile back wherever the keyboard's now differs from it. */
module KbRestore {
  import opened Bytes
  import opened Patch
  import opened DiffRuns
  import opened KbTargets
  import opened KbLighting
  import opened KbCodec
  import KbMacros
  import opened KbDevice
  import opened KbProfile
  import opened KbApply

  const SWITCH := Protected(OFF_PROFILE_ON, OFF_PROFILE_ON + 1)

  /**
   Restores a backup. Whatever the keyboard does with the writes, success means its record is the
   backup's except for the profile switch, its colours are the backup's, and it holds every macro
   the backup needed stored; and whatever comes of it, colours that were the backup's already, bytes that
   were and the profile switch are left alone. A sound keyboard takes every backup whose macros it can hold.
   */
  method Restore(k: Keyboard, backup: Profile) returns (ok: bool)
    requires k.Valid() && ProfileShaped(backup)
    requires |backup.record| == RECORD_SIZE && BlockOk(k.layout, backup.lights)
    modifies k
    ensures k.Valid()
    ensures ok ==>
              var now := ProfileOf(k.layout, old(k.record), old(k.macros), old(k.lights));
              && Editable(k.layout, now, backup)
              && (forall i :: 0 <= i < RECORD_SIZE ==>
                    k.record[i] == if i == OFF_PROFILE_ON then old(k.record)[i] else backup.record[i])
              && k.lights == backup.lights
              && MacrosStored(k.layout, old(k.macros), k.macros, now, backup)
    ensures old(k.lights) == backup.lights ==> k.lights == old(k.lights)
    ensures forall i :: 0 <= i < RECORD_SIZE && (old(k.record)[i] == backup.record[i] || i == OFF_PROFILE_ON) ==>
              k.record[i] == old(k.record)[i]
    ensures k.refused <= old(k.refused) + 1 && (ok ==> k.refused == old(k.refused))
    ensures k.sound ==>
              var now := ProfileOf(k.layout, old(k.record), old(k.macros), old(k.lights));
              && Editable(k.layout, now, backup)
              && (ok <==> KbMacros.PlanOk(k.layout, Played(backup), Played(now), k.layout.macroSlots))
  {
    hide ProfileOf, Base, MacrosStored, KbMacros.WritesFor, KbMacros.PlanOk, AreRuns, Shaped;
    var l := k.layout;
    var read := ReadProfile(k);
    if read.None? { return false; }
    var current := read.value;
    ReadProfileFits(l, k.record, k.macros, k.lights, backup);
    ReadParts(l, k.record, k.macros, k.lights);
    StoresFit(l, current, backup);
    ghost var stored, slots := k.record, k.macros;

    var spans := FindRuns(current.record, backup.record, SWITCH);
    RunsApart(current.record, backup.record, SWITCH, spans);
    var wrote := WriteSpans(k, backup.record, spans);
    RunsLeave(stored, backup.record, spans, k.record);
    if !wrote { return false; }
    SpansWritten(stored, backup.record, spans, k.record);
    RunsRestore(stored, backup.record, SWITCH, spans, k.record);
    if current.lights != backup.lights {
      wrote := WriteLights(k, backup.lights);
      if !wrote { return false; }
    }
    var plan := KbMacros.PlanMacros(l, Played(backup), Played(current));
    if plan.Err? { return false; }
    wrote := StoreMacros(k, NewStores(plan.value));
    if !wrote { return false; }
    StoredOf(l, slots, k.macros, current, backup);
    return true;
  }

  /** Bytes that are the backup's already, and the profile switch, are in no run. */
  lemma RunsLeave(was: seq<Byte>, wanted: seq<Byte>, spans: seq<Span>, now: seq<Byte>)
    requires |was| == |wanted| == RECORD_SIZE && AreRuns(was, wanted, SWITCH, spans, |was|) && SameOutsideSpans(was, now, spans)
    ensures forall i :: 0 <= i < RECORD_SIZE && (was[i] == wanted[i] || i == OFF_PROFILE_ON) ==> now[i] == was[i]
  {
    forall i | 0 <= i < RECORD_SIZE && (was[i] == wanted[i] || i == OFF_PROFILE_ON)
      ensures now[i] == was[i]
    {
      assert Covered(i, spans) <==> Differs(was, wanted, SWITCH, i);
    }
  }

  /** A record that kept its bytes outside the spans and took new ones inside. */
  lemma SpansWritten(was: seq<Byte>, wanted: seq<Byte>, spans: seq<Span>, now: seq<Byte>)
    requires |was| == |wanted| && SameOutsideSpans(was, now, spans) && SameInAll(now, wanted, spans)
    ensures forall i :: 0 <= i < |was| ==> now[i] == if Covered(i, spans) then wanted[i] else was[i]
  {
    forall i | 0 <= i < |was| && Covered(i, spans)
      ensures now[i] == wanted[i]
    {
      var n :| 0 <= n < |spans| && InSpan(i, spans[n]);
      var s := spans[n];
      assert SameIn(now, wanted, s);
      assert now[s.offset..s.offset + s.length][i - s.offset] == wanted[s.offset..s.offset + s.length][i - s.offset];
    }
  }
}

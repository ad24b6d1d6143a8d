/** Writing a backed-up controller profile back wherever the controller's now differs from it. */
module PadRestore {
  import opened Bytes
  import opened Patch
  import opened DiffRuns
  import opened PadLayouts
  import opened PadMacros
  import opened PadRules
  import opened PadCodec
  import opened PadProfile
  import opened PadDevice
  import opened PadWrite
  import opened PadApply

  /** The header's crc, platform and active slot stay the controller's. */
  function Header(l: Layout): Protected { Protected(l.crc, l.names) }

  /** The backup with the controller's own header. */
  function Wanted(l: Layout, current: seq<Byte>, backup: seq<Byte>): (r: seq<Byte>)
    requires KnownLayout(l) && |current| == |backup| == l.size
    ensures |r| == l.size
    ensures forall i :: 0 <= i < l.size ==> r[i] == if l.crc <= i < l.names then current[i] else backup[i]
  {
    HeaderApart(l, 0, 0);
    backup[..l.crc] + current[l.crc..l.names] + backup[l.names..]
  }

  lemma RunsCover(l: Layout, current: seq<Byte>, wanted: seq<Byte>, spans: seq<Span>)
    requires |current| == |wanted| && AreRuns(current, wanted, Header(l), spans, |current|)
    requires forall i :: 0 <= i < |current| && l.crc <= i < l.names ==> wanted[i] == current[i]
    ensures Agrees(wanted, current, spans) && SpansFit(|current|, spans)
    ensures wanted == current ==> |spans| == 0
  {
    RunsApart(current, wanted, Header(l), spans);
    forall i | 0 <= i < |current| && !Covered(i, spans)
      ensures current[i] == wanted[i]
    {
      assert !Differs(current, wanted, Header(l), i);
    }
  }

  /** Whether fault-free flash takes macros over those it holds. */
  ghost predicate FlashHolds(l: Layout, platform: Byte, macros: seq<seq<Macro>>, rec: seq<Byte>, areas: seq<seq<Byte>>)
    requires KnownLayout(l) && |rec| == l.size && Areas(areas) && MacrosShaped(l, macros) && AllMacrosFit(l, macros)
  {
    MacrosShaped(l, AllMacros(l, rec, areas)) && AllFlashTakes(l, platform, areas, macros, AllMacros(l, rec, areas), l.slots)
  }

  /** Every byte that is to change is the wanted one. */
  ghost predicate ChangedAre(current: seq<Byte>, wanted: seq<Byte>, now: seq<Byte>) {
    |now| == |current| == |wanted| && forall i :: 0 <= i < |now| && current[i] != wanted[i] ==> now[i] == wanted[i]
  }

  lemma ChangedOn(current: seq<Byte>, wanted: seq<Byte>, now: seq<Byte>, spans: seq<Span>)
    requires Agrees(wanted, current, spans) && AgreesOn(wanted, now, spans, |spans|)
    ensures ChangedAre(current, wanted, now)
  {
    assert spans[..|spans|] == spans;
  }

  /**
   Restores a backup's record and macros. Whatever the controller does with the writes and whatever was
   left staged, success means that every byte of its record that differed is the backup's, except for
   the header, and the backup's macros are in its storage; where nothing was staged and the check proves
   the whole record, the record is the backup's with the controller's header; where nothing differs nothing is committed. A controller without
   faults takes every backup of its own platform whose macros its flash can hold.
   */
  method Restore(c: Controller, l: Layout, platform: Byte, backup: seq<Byte>, macros: seq<seq<Macro>>) returns (ok: bool)
    requires c.Valid() && KnownLayout(l) && |c.stored| == l.size && PlatformOf(l, c.stored) == platform
    requires MacrosShaped(l, macros) && AllMacrosFit(l, macros)
    modifies c
    ensures c.failures <= old(c.failures) + 1 && (ok ==> c.failures == old(c.failures))
    ensures c.Valid() && |c.stored| == l.size && Areas(old(c.macros)) && MacrosShaped(l, AllMacros(l, old(c.stored), old(c.macros)))
    ensures ok ==> |backup| == l.size && PlatformOf(l, backup) == platform
    ensures ok && l.ultimateBT ==> Word16(old(c.stored)[l.Platform()..]) == platform
    ensures ok ==> ChangedAre(old(c.stored), Wanted(l, old(c.stored), backup), c.stored)
    ensures ok ==> StepsThere(l, platform, macros, AllMacros(l, old(c.stored), old(c.macros)), c.macros, l.slots)
    ensures |backup| == l.size && Wanted(l, old(c.stored), backup) == old(c.stored) && macros == AllMacros(l, old(c.stored), old(c.macros)) ==>
              c.log == old(c.log)
    ensures ok && old(c.Clean()) ==> c.Clean()
    ensures ok && old(c.Clean()) ==> RegionsKept(l, macros, AllMacros(l, old(c.stored), old(c.macros)), old(c.macros), c.macros)
    ensures ok && old(c.Clean()) && WholeChecked(l, c.fault) ==> c.stored == Wanted(l, old(c.stored), backup)
    ensures c.fault.NoFault? && old(c.pending) == map[] && (l.ultimateBT ==> Word16(old(c.stored)[l.Platform()..]) == platform) ==>
              (ok <==> |backup| == l.size && PlatformOf(l, backup) == platform && FlashHolds(l, platform, macros, old(c.stored), old(c.macros)))
  {
    AtMostThreeSlots(l);
    ValidAreas(c);
    ReadFits(l, c.stored, c.macros, c.light);
    hide KnownLayout;
    ghost var clean := c.Clean();
    if |backup| != l.size || PlatformOf(l, backup) != platform { return false; }
    var got := ReadRecord(c, l.size);
    if got.Err? { return false; }
    var current := got.value;
    assert current == c.stored;
    if l.ultimateBT && Word16(current[l.Platform()..]) != platform { return false; }
    var wanted := Wanted(l, current, backup);
    var spans := FindRuns(current, wanted, Header(l));
    RunsCover(l, current, wanted, spans);
    var now := ReadMacros(c, l, current);
    if now.Err? { return false; }
    var open := OpenSync(c, l);
    if !open { return false; }
    hide AreRuns, AllMacros, AllMacrosFit, Wanted, Word16, PlatformOf;
    ok := RestoreParts(c, l, platform, wanted, spans, macros, now.value);
  }

  /** Writes a backup's macros and then the runs of its record that differ. */
  method RestoreParts(c: Controller, l: Layout, platform: Byte, wanted: seq<Byte>, spans: seq<Span>, macros: seq<seq<Macro>>,
    now: seq<seq<Macro>>) returns (ok: bool)
    requires l.ArcadePro() ==> c.syncing
    requires c.Valid() && MacrosShaped(l, macros) && MacrosShaped(l, now) && AllMacrosFit(l, macros)
    requires |c.stored| > 0 && Agrees(wanted, c.stored, spans) && SpansFit(|c.stored|, spans)
    modifies c
    ensures c.failures <= old(c.failures) + 1 && (ok ==> c.failures == old(c.failures))
    ensures c.Valid() && |c.stored| == |wanted| && Areas(old(c.macros))
    ensures ok ==> ChangedAre(old(c.stored), wanted, c.stored) && StepsThere(l, platform, macros, now, c.macros, l.slots)
    ensures ok && old(c.Clean()) ==> c.Clean() && RegionsKept(l, macros, now, old(c.macros), c.macros)
    ensures ok && old(c.Clean()) && WholeChecked(l, c.fault) ==> c.stored == wanted
    ensures c.fault.NoFault? && old(c.pending) == map[] ==> (ok <==> AllFlashTakes(l, platform, old(c.macros), macros, now, l.slots))
    ensures |spans| == 0 && macros == now ==> ok && c.log == old(c.log)
  {
    ghost var current, areas0, clean := c.stored, c.macros, c.Clean();
    ValidAreas(c);
    hide StepsThere, RegionsKept, AllMacrosFit, AllFlashTakes, Agrees, AgreesOn, SpansFit, MacrosShaped, Promoted, AnyWritten, Written;
    if clean { KeptAtFirst(c, l, macros, now); }
    ok := WriteMacros(c, l, platform, macros, now, areas0, clean);
    if !ok { return; }
    ghost var macros1 := c.macros;
    if |spans| == 0 {
      assert Agrees(wanted, current, spans);
      SameAs(wanted, current);
      NoSpansAgree(wanted, c.stored);
      ChangedOn(current, wanted, c.stored, spans);
      return true;
    }
    if clean { PromotedNothing(c.macros); }
    ok := WriteSpans(c, l, wanted, spans, clean && WholeChecked(l, c.fault));
    if ok { ChangedOn(current, wanted, c.stored, spans); }
  }

  lemma SameAs(a: seq<Byte>, b: seq<Byte>)
    requires Agrees(a, b, [])
    ensures a == b
  {
  }

  /** A restored backup's macros read as they did when it was taken. */
  lemma RestoredMacros(l: Layout, current: seq<Byte>, backup: seq<Byte>, then0: seq<seq<Byte>>, areas0: seq<seq<Byte>>,
    areas: seq<seq<Byte>>, k: nat)
    requires KnownLayout(l) && |current| == |backup| == l.size && Areas(then0) && Areas(areas0) && Areas(areas) && k < l.slots <= PAD_SLOTS
    requires PlatformOf(l, current) == PlatformOf(l, backup)
    requires MacrosShaped(l, AllMacros(l, backup, then0)) && AllMacrosFit(l, AllMacros(l, backup, then0))
    requires MacrosShaped(l, AllMacros(l, current, areas0))
    requires RegionsKept(l, AllMacros(l, backup, then0), AllMacros(l, current, areas0), areas0, areas)
    requires StepsThere(l, PlatformOf(l, backup), AllMacros(l, backup, then0), AllMacros(l, current, areas0), areas, l.slots)
    ensures MacrosOf(l, Wanted(l, current, backup), areas[k], k) == AllMacros(l, backup, then0)[k]
  {
    var e, w, platform := AllMacros(l, backup, then0)[k], AllMacros(l, current, areas0)[k], PlatformOf(l, backup);
    WantedParts(l, current, backup, k);
    MacrosAre(l, backup, then0, k);
    MacrosAre(l, current, areas0, k);
    MacrosFitAt(l, AllMacros(l, backup, then0), k);
    assert HoldsChanging(l, platform, areas[k], e, w) && Untouched(e, w, areas0[k], areas[k]);
    hide KnownLayout, MacroSection, PlatformOf, AllMacros, Untouched, HoldsChanging, DecodeMacro, HeaderIn, Wanted, Word32, AllMacrosFit;
    hide ReadsSteps, DecodeSection, RegionsKept, StepsThere;
    forall j | 0 <= j < MACROS && !e[j].Empty()
      ensures ReadsSteps(l, platform, areas[k], j, e[j].steps)
    {
      SlotCarried(l, platform, MacroSection(l, current, k), e, areas0[k], areas[k], j);
    }
    SectionFrom(l, platform, MacroSection(l, backup, k), then0[k], areas[k]);
  }

  lemma SectionFrom(l: Layout, platform: Byte, section: seq<Byte>, a: seq<Byte>, b: seq<Byte>)
    requires |section| == SECTION && |a| == |b| == AREA
    requires forall j :: 0 <= j < MACROS && !DecodeSection(l, platform, section, a)[j].Empty() ==>
               ReadsSteps(l, platform, b, j, DecodeSection(l, platform, section, a)[j].steps)
    ensures DecodeSection(l, platform, section, b) == DecodeSection(l, platform, section, a)
  {
    hide DecodeMacro, HeaderIn, Word32, ReadsSteps;
    if Word32(section) == IN_USE {
      forall j | 0 <= j < MACROS
        ensures DecodeMacro(l, platform, HeaderIn(section, j), j, b) == DecodeSection(l, platform, section, a)[j]
      {
        assert DecodeSection(l, platform, section, a)[j] == DecodeMacro(l, platform, HeaderIn(section, j), j, a);
        MacroFrom(l, platform, HeaderIn(section, j), j, a, b);
      }
    }
  }

  lemma WantedParts(l: Layout, current: seq<Byte>, backup: seq<Byte>, k: nat)
    requires KnownLayout(l) && |current| == |backup| == l.size && k < l.slots
    ensures MacroSection(l, Wanted(l, current, backup), k) == MacroSection(l, backup, k)
    ensures PlatformOf(l, Wanted(l, current, backup)) == PlatformOf(l, current)
  {
    MacrosApart(l, k, 0, 0);
    HeaderApart(l, 0, 0);
  }

  lemma MacroFrom(l: Layout, platform: Byte, header: seq<Byte>, j: nat, a: seq<Byte>, b: seq<Byte>)
    requires |header| == HEADER && j < MACROS && |a| == |b| == AREA
    requires !DecodeMacro(l, platform, header, j, a).Empty() ==> ReadsSteps(l, platform, b, j, DecodeMacro(l, platform, header, j, a).steps)
    ensures DecodeMacro(l, platform, header, j, b) == DecodeMacro(l, platform, header, j, a)
  {
    hide StepsDecoded, Names.DecodeName, CanTrigger, TriggerIn, Word32;
    if Describes(l, header) {
      assert |DecodeMacro(l, platform, header, j, a).steps| == CountIn(header) as int;
    }
  }
}

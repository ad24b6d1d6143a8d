/**
 Writing a controller's record and macro storage: stage, commit, and check what the controller now
 holds.
 */
module PadWrite {
  import Names
  import opened Bytes
  import opened Flash
  import opened Patch
  import opened PadLayouts
  import opened PadMacros
  import opened PadDevice

  // ---- The record

  /** A record and a copy that may differ only inside the spans. */
  ghost predicate Agrees(record: seq<Byte>, copy: seq<Byte>, spans: seq<Span>) {
    |record| == |copy| && forall i :: 0 <= i < |record| && !Covered(i, spans) ==> copy[i] == record[i]
  }

  ghost predicate AgreesOn(record: seq<Byte>, copy: seq<Byte>, spans: seq<Span>, n: nat) {
    |record| == |copy| && n <= |spans| && forall i :: 0 <= i < |record| && Covered(i, spans[..n]) ==> copy[i] == record[i]
  }

  lemma AgreesEverywhere(record: seq<Byte>, copy: seq<Byte>, spans: seq<Span>)
    requires Agrees(record, copy, spans) && AgreesOn(record, copy, spans, |spans|)
    ensures copy == record
  {
    assert spans[..|spans|] == spans;
  }

  lemma AgreesOnMore(record: seq<Byte>, copy: seq<Byte>, spans: seq<Span>, n: nat)
    requires n < |spans| && AgreesOn(record, copy, spans, n)
    requires forall i :: 0 <= i < |record| && InSpan(i, spans[n]) ==> copy[i] == record[i]
    ensures AgreesOn(record, copy, spans, n + 1)
  {
    forall i | 0 <= i < |record| && Covered(i, spans[..n + 1])
      ensures copy[i] == record[i]
    {
      var a :| 0 <= a < n + 1 && InSpan(i, spans[..n + 1][a]);
      if a < n {
        assert InSpan(i, spans[..n][a]);
      }
    }
  }

  lemma SpanAgrees(record: seq<Byte>, copy: seq<Byte>, spans: seq<Span>, k: nat)
    requires |copy| == |record| && k < |spans| && spans[k].offset + spans[k].length <= |record|
    ensures AgreesOn(record, copy, spans, |spans|) ==>
              copy[spans[k].offset..spans[k].offset + spans[k].length] == record[spans[k].offset..spans[k].offset + spans[k].length]
  {
    assert spans[..|spans|] == spans;
    assert forall i :: InSpan(i, spans[k]) ==> Covered(i, spans);
  }

  /** Whether a readback shows the record inside every span. */
  method Matches(got: seq<Byte>, record: seq<Byte>, spans: seq<Span>) returns (same: bool)
    requires |got| == |record| && SpansFit(|record|, spans)
    ensures same <==> AgreesOn(record, got, spans, |spans|)
  {
    for k := 0 to |spans|
      invariant AgreesOn(record, got, spans, k)
    {
      var at, end := spans[k].offset, spans[k].offset + spans[k].length;
      SpanAgrees(record, got, spans, k);
      if got[at..end] != record[at..end] { return false; }
      forall i | 0 <= i < |record| && InSpan(i, spans[k])
        ensures got[i] == record[i]
      {
        assert got[at..end][i - at] == record[at..end][i - at];
      }
      AgreesOnMore(record, got, spans, k);
    }
    return true;
  }

  /** Stages each stretch to send. */
  method StageSpans(c: Controller, record: seq<Byte>, sent: seq<Span>, ghost spans: seq<Span>, ghost sure: bool) returns (ok: bool)
    requires c.Valid() && |record| == |c.stored| && SpansFit(|record|, sent)
    requires sure ==> Agrees(record, c.Staging(), spans) && (sent == spans || !c.fault.Garbles?)
    modifies c
    ensures c.failures <= old(c.failures) + 1 && (ok ==> c.failures == old(c.failures))
    ensures c.Valid() && c.stored == old(c.stored) && c.macros == old(c.macros) && c.pending == old(c.pending)
    ensures c.light == old(c.light) && c.log == old(c.log)
    ensures sure ==> Agrees(record, c.Staging(), spans)
    ensures !c.fault.Garbles? ==> EachOldOrNew(old(c.Staging()), c.Staging(), record)
    ensures c.fault.NoFault? ==> ok && AgreesOn(record, c.Staging(), sent, |sent|)
  {
    assert AgreesOn(record, c.Staging(), sent, 0) by { assert sent[..0] == []; }
    for k := 0 to |sent|
      invariant c.Valid() && c.stored == old(c.stored) && c.macros == old(c.macros) && c.pending == old(c.pending)
      invariant c.light == old(c.light) && c.log == old(c.log) && c.failures == old(c.failures)
      invariant sure ==> Agrees(record, c.Staging(), spans)
      invariant !c.fault.Garbles? ==> EachOldOrNew(old(c.Staging()), c.Staging(), record)
      invariant c.fault.NoFault? ==> AgreesOn(record, c.Staging(), sent, k)
    {
      ghost var before := c.Staging();
      ok := WriteRange(c, record, sent[k].offset, sent[k].length);
      StagedAgrees(c.fault, record, before, c.Staging(), sent, k, spans, sure);
      if !ok { return; }
    }
    return true;
  }

  lemma StagedAgrees(fault: Fault, record: seq<Byte>, before: seq<Byte>, after: seq<Byte>, sent: seq<Span>, k: nat,
    spans: seq<Span>, sure: bool)
    requires k < |sent| && SpansFit(|record|, sent) && |before| == |record|
    requires sure ==> Agrees(record, before, spans) && (sent == spans || !fault.Garbles?)
    requires SameOutside(before, after, sent[k].offset, sent[k].length)
    requires fault.NoFault? ==> forall i :: sent[k].offset <= i < sent[k].offset + sent[k].length ==> after[i] == record[i]
    requires !fault.Garbles? ==> EachOldOrNew(before, after, record)
    ensures sure ==> Agrees(record, after, spans)
    ensures fault.NoFault? && AgreesOn(record, before, sent, k) ==> AgreesOn(record, after, sent, k + 1)
  {
    assert sent == spans ==> forall i :: InSpan(i, sent[k]) ==> Covered(i, spans);
    if fault.NoFault? && AgreesOn(record, before, sent, k) {
      AgreesOnMore(record, after, sent, k);
    }
  }

  function Sent(l: Layout, size: nat, spans: seq<Span>): seq<Span> {
    if l.ultimateBT then [Span(0, size)] else spans
  }

  /**
   Whether the check after a write of some spans proves the whole record: not for the model that is sent
   its whole record, where a write may garble a byte outside the spans.
   */
  predicate WholeChecked(l: Layout, fault: Fault) { !(l.ultimateBT && fault.Garbles?) }

  /**
   Writes the spans of a record, commits, and checks the controller now holds them. The model that is
   only ever sent its whole record gets all of it, and still only the spans are checked.
   */
  method WriteSpans(c: Controller, l: Layout, record: seq<Byte>, spans: seq<Span>, ghost sure: bool) returns (ok: bool)
    requires c.Valid() && |record| == |c.stored| > 0 && SpansFit(|record|, spans)
    requires sure ==> WholeChecked(l, c.fault) && Agrees(record, c.stored, spans) && Agrees(record, c.Staging(), spans)
    modifies c
    ensures c.failures <= old(c.failures) + 1 && (ok ==> c.failures == old(c.failures))
    ensures c.Valid() && c.light == old(c.light) && |c.stored| == |record|
    ensures sure ==> Agrees(record, c.stored, spans) && Agrees(record, c.Staging(), spans)
    ensures ok ==> AgreesOn(record, c.stored, spans, |spans|) && (sure ==> c.stored == record)
    ensures ok ==> c.Clean() && c.macros == old(Promoted(c.macros, c.pending)) && c.log != old(c.log)
    ensures OnlyCommitted(c.macros, c.pending, c.log, old(c.macros), old(c.pending), old(c.log), c.stored)
    ensures c.log == old(c.log) ==> c.stored == old(c.stored)
    ensures !c.fault.Garbles? && old(c.stored) == record == old(c.Staging()) ==> c.stored == record == c.Staging()
    ensures c.fault.NoFault? ==> ok
  {
    var sent := Sent(l, |record|, spans);
    assert SpansFit(|record|, sent) && (sure ==> sent == spans || !c.fault.Garbles?);
    hide Agrees, AgreesOn, EachOldOrNew, SpansFit, Sent, OnlyCommitted;
    ghost var before := c.Staging();
    NothingCommitted(c);
    ok := StageSpans(c, record, sent, spans, sure);
    OldOrNewSame(before, c.Staging());
    if !ok { return; }
    if c.fault.NoFault? {
      SentCoversAll(l, record, c.Staging(), spans);
    }
    ok := CommitAndCheck(c, record, spans, sure);
  }

  /** Commits what is staged and checks the controller now holds the record in the spans. */
  method CommitAndCheck(c: Controller, record: seq<Byte>, spans: seq<Span>, ghost sure: bool) returns (ok: bool)
    requires c.Valid() && |record| == |c.stored| > 0 && SpansFit(|record|, spans)
    requires sure ==> Agrees(record, c.stored, spans) && Agrees(record, c.Staging(), spans)
    requires c.fault.NoFault? ==> AgreesOn(record, c.Staging(), spans, |spans|)
    modifies c
    ensures c.failures <= old(c.failures) + 1 && (ok ==> c.failures == old(c.failures))
    ensures c.Valid() && c.light == old(c.light) && |c.stored| == |record| && c.Staging() == old(c.Staging())
    ensures c.stored == old(c.stored) || c.stored == old(c.Staging())
    ensures ok ==> AgreesOn(record, c.stored, spans, |spans|) && (sure ==> c.stored == record)
    ensures ok ==> c.Clean() && c.macros == old(Promoted(c.macros, c.pending)) && c.log != old(c.log)
    ensures OnlyCommitted(c.macros, c.pending, c.log, old(c.macros), old(c.pending), old(c.log), c.stored)
    ensures c.log == old(c.log) ==> c.stored == old(c.stored)
    ensures c.fault.NoFault? ==> ok
  {
    hide Agrees, AgreesOn, SpansFit, Promoted;
    ok := c.Commit();
    if !ok { return; }
    var got := ReadRecord(c, |record|);
    if got.Err? { return false; }
    assert c.stored[..|record|] == c.stored;
    ok := Matches(got.value, record, spans);
    if ok && sure {
      AgreesEverywhere(record, c.stored, spans);
    }
  }

  lemma NothingCommitted(c: Controller)
    requires c.Valid()
    ensures OnlyCommitted(c.macros, c.pending, c.log, c.macros, c.pending, c.log, c.stored)
  {
  }

  lemma OldOrNewSame(a: seq<Byte>, b: seq<Byte>)
    ensures EachOldOrNew(a, b, a) ==> b == a
  {
  }

  lemma SentCoversAll(l: Layout, record: seq<Byte>, copy: seq<Byte>, spans: seq<Span>)
    requires |record| > 0 && AgreesOn(record, copy, Sent(l, |record|, spans), |Sent(l, |record|, spans)|)
    ensures AgreesOn(record, copy, spans, |spans|)
  {
    var sent := Sent(l, |record|, spans);
    if l.ultimateBT {
      forall i | 0 <= i < |record|
        ensures copy[i] == record[i]
      {
        assert InSpan(i, sent[..1][0]) && Covered(i, sent[..|sent|]);
      }
    }
  }

  /** Checking some spans proves the whole record exactly when they cover it. */
  lemma CheckProves(record: seq<Byte>, spans: seq<Span>)
    ensures (forall copy: seq<Byte> :: AgreesOn(record, copy, spans, |spans|) ==> copy == record) <==>
            (forall i :: 0 <= i < |record| ==> Covered(i, spans))
  {
    if i :| 0 <= i < |record| && !Covered(i, spans) {
      GarbledByteUnseen(record, spans, i, if record[i] == 0 then 1 else 0);
    } else {
      forall copy: seq<Byte> | AgreesOn(record, copy, spans, |spans|)
        ensures copy == record
      {
        assert spans[..|spans|] == spans;
      }
    }
  }

  /** A byte outside the spans may be garbled by a write of the whole record, and the check does not see it. */
  lemma GarbledByteUnseen(record: seq<Byte>, spans: seq<Span>, i: nat, b: Byte)
    requires i < |record| && !Covered(i, spans) && b != record[i]
    ensures MayLand(Garbles, record, record, record[i := b])
    ensures AgreesOn(record, record[i := b], spans, |spans|) && record[i := b] != record
  {
    assert spans[..|spans|] == spans;
    assert record[i := b][i] == b;
  }

  /** The macro side of a device that did at most one commit. */
  ghost predicate OnlyCommitted(macros: seq<seq<Byte>>, pending: map<nat, seq<Byte>>, log: seq<Snapshot>,
    macros0: seq<seq<Byte>>, pending0: map<nat, seq<Byte>>, log0: seq<Snapshot>, stored: seq<Byte>)
  {
    Areas(macros0) && PendingOk(pending0) &&
    ((macros == macros0 && pending == pending0 && log == log0) ||
     (macros == Promoted(macros0, pending0) && pending == map[] && log == log0 + [Snapshot(stored, macros)]))
  }

  // ---- Macro storage

  /** A macro whose steps are to be written: they differ, and there are some. */
  predicate Changing(now: seq<Macro>, was: seq<Macro>, j: nat)
    requires |now| == |was| == MACROS && j < MACROS
  {
    now[j].steps != was[j].steps && !now[j].Empty()
  }

  /** One of the first n macros is to be written. */
  predicate AnyChanging(now: seq<Macro>, was: seq<Macro>, n: nat)
    requires |now| == |was| == MACROS && n <= MACROS
  {
    exists j :: 0 <= j < n && Changing(now, was, j)
  }

  ghost predicate MacrosFit(macros: seq<Macro>) {
    |macros| == MACROS && forall j :: 0 <= j < MACROS ==> StepsFit(macros[j].steps)
  }

  /** The bytes of one macro's region. */
  function Region(area: seq<Byte>, j: nat): (r: seq<Byte>)
    requires |area| == AREA && j < MACROS
    ensures |r| == REGION
  {
    area[j * REGION..(j + 1) * REGION]
  }

  function StorageOf(l: Layout, platform: Byte, m: Macro): (data: seq<Byte>)
    requires StepsFit(m.steps)
    ensures |m.steps| * STEP_BYTES <= |data| <= REGION && (m.steps != [] ==> data != [])
  {
    Storage(l, StepsEncoded(m.steps, Analog(l, platform)))
  }

  /** A region after writing data over it: erased first, or not. */
  function WrittenRegion(region: seq<Byte>, data: seq<Byte>, erased: bool): (r: seq<Byte>)
    requires |region| == REGION && |data| <= REGION
    ensures |r| == REGION
  {
    if erased then data + Fill(REGION - |data|, ERASED) else WriteOver(region[..|data|], data) + region[|data|..]
  }

  /**
   What fault-free flash with nothing pending holds of macro j: an erase reaches stored bytes only,
   and the copy that writes go to is taken with the first, so only the first macro written is written
   to erased flash.
   */
  function FlashRegion(l: Layout, platform: Byte, area: seq<Byte>, now: seq<Macro>, was: seq<Macro>, j: nat): (r: seq<Byte>)
    requires |area| == AREA && MacrosFit(now) && |was| == MACROS && j < MACROS
    ensures |r| == REGION
  {
    if Changing(now, was, j) then WrittenRegion(Region(area, j), StorageOf(l, platform, now[j]), !AnyChanging(now, was, j))
    else Region(area, j)
  }

  /** Erases one macro's region and writes its steps. */
  method StageMacro(c: Controller, slot: nat, j: nat, data: seq<Byte>) returns (ok: bool)
    requires c.Valid() && slot < PAD_SLOTS && j < MACROS && 1 <= |data| <= REGION
    modifies c
    ensures c.failures <= old(c.failures) + 1 && (ok ==> c.failures == old(c.failures))
    ensures c.Valid() && c.stored == old(c.stored) && c.staged == old(c.staged) && c.light == old(c.light) && c.log == old(c.log)
    ensures forall s :: 0 <= s < PAD_SLOTS && s != slot ==> c.macros[s] == old(c.macros[s]) && c.MacroStaging(s) == old(c.MacroStaging(s))
    ensures c.pending.Keys <= old(c.pending).Keys + {slot} && (ok ==> slot in c.pending)
    ensures SameOutside(old(c.macros[slot]), c.macros[slot], j * REGION, REGION)
    ensures SameOutside(old(c.MacroStaging(slot)), c.MacroStaging(slot), j * REGION, REGION)
    ensures c.fault.NoFault? ==> ok
    ensures c.fault.NoFault? ==>
              Region(c.MacroStaging(slot), j) == WrittenRegion(old(Region(c.MacroStaging(slot), j)), data, slot !in old(c.pending))
  {
    hide Region, WrittenRegion, Overwritten, Write1, SameOutside, Replace;
    ghost var before := c.MacroStaging(slot);
    SameAsItself(before, j * REGION, REGION);
    ok := c.Erase(slot, j * REGION, REGION);
    if !ok { return; }
    ghost var erased := c.MacroStaging(slot);
    ok := WriteMacroData(c, slot, j * REGION, data);
    WithinRegion(erased, c.MacroStaging(slot), j, |data|);
    SameOutsideMore(before, erased, c.MacroStaging(slot), j * REGION, REGION, j * REGION, REGION);
    if c.fault.NoFault? {
      StagedRegion(before, erased, c.MacroStaging(slot), j, data, slot !in old(c.pending));
    }
  }

  lemma SameAsItself(a: seq<Byte>, at: int, len: int)
    ensures SameOutside(a, a, at, len)
  {
  }

  lemma WithinRegion(a: seq<Byte>, b: seq<Byte>, j: nat, len: nat)
    requires SameOutside(a, b, j * REGION, len) && len <= REGION
    ensures SameOutside(a, b, j * REGION, REGION)
  {
  }

  /** One region after data is written over it: the bits of the data over what was there, then the rest. */
  lemma OverwrittenRegion(erased: seq<Byte>, after: seq<Byte>, at: nat, data: seq<Byte>)
    requires |data| <= REGION && at + REGION <= |erased| && Overwritten(erased, after, at, data)
    ensures after[at..at + REGION] == WriteOver(erased[at..at + REGION][..|data|], data) + erased[at..at + REGION][|data|..]
  {
    hide Write1;
  }

  lemma ErasedRegion(before: seq<Byte>, at: nat)
    requires at + REGION <= |before|
    ensures Replace(before, at, Fill(REGION, ERASED))[at..at + REGION] == Fill(REGION, ERASED)
  {
  }

  /** Writing to an erased region leaves the data and erased flash after it. */
  lemma WrittenToErased(data: seq<Byte>)
    requires |data| <= REGION
    ensures WriteOver(Fill(REGION, ERASED)[..|data|], data) + Fill(REGION, ERASED)[|data|..]
         == WrittenRegion(Fill(REGION, ERASED), data, true)
  {
    hide Write1;
    assert Fill(REGION, ERASED)[..|data|] == Fill(|data|, ERASED);
    assert Fill(REGION, ERASED)[|data|..] == Fill(REGION - |data|, ERASED);
    WriteOverErased(data);
  }

  lemma StagedRegion(before: seq<Byte>, erased: seq<Byte>, after: seq<Byte>, j: nat, data: seq<Byte>, erase: bool)
    requires |before| == AREA && j < MACROS && |data| <= REGION && Overwritten(erased, after, j * REGION, data)
    requires erased == if erase then Replace(before, j * REGION, Fill(REGION, ERASED)) else before
    ensures Region(after, j) == WrittenRegion(Region(before, j), data, erase)
  {
    hide Overwritten, Replace, Fill, WriteOver;
    OverwrittenRegion(erased, after, j * REGION, data);
    if erase {
      ErasedRegion(before, j * REGION);
      WrittenToErased(data);
      assert WrittenRegion(Region(before, j), data, true) == WrittenRegion(Fill(REGION, ERASED), data, true);
    }
  }

  /** The regions of macros not to be written are the same in two areas. */
  ghost predicate SameRest(now: seq<Macro>, was: seq<Macro>, a: seq<Byte>, b: seq<Byte>)
    requires |now| == |was| == MACROS && |a| == |b| == AREA
  {
    forall j :: 0 <= j < MACROS && !Changing(now, was, j) ==> Region(a, j) == Region(b, j)
  }

  lemma OutsideRegion(a: seq<Byte>, b: seq<Byte>, j: nat, k: nat)
    requires |a| == AREA && SameOutside(a, b, j * REGION, REGION) && j < MACROS && k < MACROS && j != k
    ensures Region(a, k) == Region(b, k)
  {
    forall i | k * REGION <= i < (k + 1) * REGION
      ensures a[i] == b[i]
    {
    }
  }

  lemma SameRestMore(now: seq<Macro>, was: seq<Macro>, a: seq<Byte>, b: seq<Byte>, c: seq<Byte>, j: nat)
    requires |now| == |was| == MACROS && |a| == |b| == AREA && j < MACROS && Changing(now, was, j)
    requires SameRest(now, was, a, b) && SameOutside(b, c, j * REGION, REGION)
    ensures SameRest(now, was, a, c)
  {
    forall k | 0 <= k < MACROS && !Changing(now, was, k)
      ensures Region(a, k) == Region(c, k)
    {
      OutsideRegion(b, c, j, k);
    }
  }

  /** The first n regions are as fault-free flash leaves them, and the rest as they were. */
  ghost predicate FlashedTo(l: Layout, platform: Byte, was: seq<Macro>, now: seq<Macro>, area: seq<Byte>, staging: seq<Byte>, n: nat)
    requires |area| == |staging| == AREA && MacrosFit(now) && |was| == MACROS && n <= MACROS
  {
    && (forall j :: 0 <= j < n ==> Region(staging, j) == FlashRegion(l, platform, area, now, was, j))
    && (forall j :: n <= j < MACROS ==> Region(staging, j) == Region(area, j))
  }

  lemma FlashedMore(l: Layout, platform: Byte, was: seq<Macro>, now: seq<Macro>, area: seq<Byte>, before: seq<Byte>, after: seq<Byte>, n: nat)
    requires |area| == |before| == |after| == AREA && MacrosFit(now) && |was| == MACROS && n < MACROS
    requires FlashedTo(l, platform, was, now, area, before, n)
    requires SameOutside(before, after, n * REGION, REGION) && Changing(now, was, n)
    requires Region(after, n) == WrittenRegion(Region(before, n), StorageOf(l, platform, now[n]), !AnyChanging(now, was, n))
    ensures FlashedTo(l, platform, was, now, area, after, n + 1)
  {
    hide Region, WrittenRegion, StorageOf;
    forall j | 0 <= j < MACROS && j != n
      ensures Region(after, j) == Region(before, j)
    {
      OutsideRegion(before, after, n, j);
    }
  }

  lemma FlashedStart(l: Layout, platform: Byte, was: seq<Macro>, now: seq<Macro>, area: seq<Byte>)
    requires |area| == AREA && MacrosFit(now) && |was| == MACROS
    ensures FlashedTo(l, platform, was, now, area, area, 0) && SameRest(now, was, area, area)
  {
  }

  lemma FlashedSkip(l: Layout, platform: Byte, was: seq<Macro>, now: seq<Macro>, area: seq<Byte>, staging: seq<Byte>, n: nat)
    requires |area| == |staging| == AREA && MacrosFit(now) && |was| == MACROS && n < MACROS
    requires FlashedTo(l, platform, was, now, area, staging, n) && !Changing(now, was, n)
    ensures FlashedTo(l, platform, was, now, area, staging, n + 1)
  {
  }

  lemma NoneChangingYet(now: seq<Macro>, was: seq<Macro>)
    requires |now| == |was| == MACROS
    ensures !AnyChanging(now, was, 0)
  {
  }

  lemma ChangingMore(now: seq<Macro>, was: seq<Macro>, j: nat)
    requires |now| == |was| == MACROS && j < MACROS
    ensures AnyChanging(now, was, j + 1) <==> AnyChanging(now, was, j) || Changing(now, was, j)
    ensures Changing(now, was, j) ==> AnyChanging(now, was, MACROS)
  {
  }

  /** What staging has left of one slot's storage once the first j macros are done; `clear` says nothing was pending. */
  ghost predicate StagedTo(c: Controller, l: Layout, platform: Byte, slot: nat, now: seq<Macro>, was: seq<Macro>, j: nat,
    area: seq<Byte>, staging: seq<Byte>, clear: bool)
    requires c.Valid() && slot < PAD_SLOTS && MacrosFit(now) && |was| == MACROS && j <= MACROS && |area| == |staging| == AREA
    reads c
  {
    && SameRest(now, was, area, c.macros[slot]) && SameRest(now, was, staging, c.MacroStaging(slot))
    && (clear ==> (slot in c.pending <==> AnyChanging(now, was, j)))
    && (c.fault.NoFault? && clear ==> FlashedTo(l, platform, was, now, area, c.MacroStaging(slot), j))
  }

  /** Stages one macro that is to be written. */
  method StageChanging(c: Controller, l: Layout, platform: Byte, slot: nat, now: seq<Macro>, was: seq<Macro>, j: nat,
    ghost area: seq<Byte>, ghost staging: seq<Byte>, ghost clear: bool) returns (ok: bool)
    requires c.Valid() && slot < PAD_SLOTS && MacrosFit(now) && |was| == MACROS && j < MACROS && Changing(now, was, j)
    requires |area| == |staging| == AREA && StagedTo(c, l, platform, slot, now, was, j, area, staging, clear)
    modifies c
    ensures c.failures <= old(c.failures) + 1 && (ok ==> c.failures == old(c.failures))
    ensures c.Valid() && c.stored == old(c.stored) && c.staged == old(c.staged) && c.light == old(c.light) && c.log == old(c.log)
    ensures forall s :: 0 <= s < PAD_SLOTS && s != slot ==> c.macros[s] == old(c.macros[s]) && c.MacroStaging(s) == old(c.MacroStaging(s))
    ensures c.pending.Keys <= old(c.pending).Keys + {slot}
    ensures SameRest(now, was, area, c.macros[slot]) && SameRest(now, was, staging, c.MacroStaging(slot))
    ensures ok ==> slot in c.pending && StagedTo(c, l, platform, slot, now, was, j + 1, area, staging, clear)
    ensures c.fault.NoFault? ==> ok
  {
    hide SameRest, FlashedTo, Region, WrittenRegion, StorageOf, StepsFit, SameOutside;
    ghost var macros0, staging0 := c.macros[slot], c.MacroStaging(slot);
    ok := StageMacro(c, slot, j, StorageOf(l, platform, now[j]));
    SameRestMore(now, was, area, macros0, c.macros[slot], j);
    SameRestMore(now, was, staging, staging0, c.MacroStaging(slot), j);
    if ok && c.fault.NoFault? && clear {
      FlashedMore(l, platform, was, now, area, staging0, c.MacroStaging(slot), j);
    }
  }

  lemma StagedSkip(c: Controller, l: Layout, platform: Byte, slot: nat, now: seq<Macro>, was: seq<Macro>, j: nat,
    area: seq<Byte>, staging: seq<Byte>, clear: bool)
    requires c.Valid() && slot < PAD_SLOTS && MacrosFit(now) && |was| == MACROS && j < MACROS && !Changing(now, was, j)
    requires |area| == |staging| == AREA && StagedTo(c, l, platform, slot, now, was, j, area, staging, clear)
    ensures StagedTo(c, l, platform, slot, now, was, j + 1, area, staging, clear)
  {
    hide SameRest, FlashedTo;
    if c.fault.NoFault? && clear {
      FlashedSkip(l, platform, was, now, area, c.MacroStaging(slot), j);
    }
  }

  lemma StagedStart(c: Controller, l: Layout, platform: Byte, slot: nat, now: seq<Macro>, was: seq<Macro>)
    requires c.Valid() && slot < PAD_SLOTS && MacrosFit(now) && |was| == MACROS
    ensures StagedTo(c, l, platform, slot, now, was, 0, c.macros[slot], c.MacroStaging(slot), slot !in c.pending)
  {
    hide SameRest, FlashedTo;
    FlashedStart(l, platform, was, now, c.macros[slot]);
    FlashedStart(l, platform, was, now, c.MacroStaging(slot));
  }

  /** Stages every macro of a slot that is to be written. */
  method StageMacros(c: Controller, l: Layout, platform: Byte, slot: nat, now: seq<Macro>, was: seq<Macro>)
    returns (ok: bool, wrote: bool)
    requires c.Valid() && slot < PAD_SLOTS && MacrosFit(now) && |was| == MACROS
    modifies c
    ensures c.failures <= old(c.failures) + 1 && (ok ==> c.failures == old(c.failures))
    ensures c.Valid() && c.stored == old(c.stored) && c.staged == old(c.staged) && c.light == old(c.light) && c.log == old(c.log)
    ensures forall s :: 0 <= s < PAD_SLOTS && s != slot ==> c.macros[s] == old(c.macros[s]) && c.MacroStaging(s) == old(c.MacroStaging(s))
    ensures c.pending.Keys <= old(c.pending).Keys + {slot}
    ensures SameRest(now, was, old(c.macros[slot]), c.macros[slot])
    ensures SameRest(now, was, old(c.MacroStaging(slot)), c.MacroStaging(slot))
    ensures ok ==> (wrote <==> AnyChanging(now, was, MACROS)) && (!wrote ==> c.pending == old(c.pending) && c.macros == old(c.macros))
    ensures c.fault.NoFault? || !AnyChanging(now, was, MACROS) ==> ok
    ensures c.fault.NoFault? && slot !in old(c.pending) ==>
              FlashedTo(l, platform, was, now, old(c.macros[slot]), c.MacroStaging(slot), MACROS)
  {
    ghost var area, staging, clear := c.macros[slot], c.MacroStaging(slot), slot !in c.pending;
    StagedStart(c, l, platform, slot, now, was);
    NoneChangingYet(now, was);
    hide Controller.Valid, Controller.MacroStaging, SameRest, FlashedTo, StepsFit, Changing, AnyChanging;
    wrote := false;
    for j := 0 to MACROS
      invariant c.Valid() && c.stored == old(c.stored) && c.staged == old(c.staged) && c.light == old(c.light) && c.log == old(c.log)
      invariant forall s :: 0 <= s < PAD_SLOTS && s != slot ==> c.macros[s] == old(c.macros[s]) && c.MacroStaging(s) == old(c.MacroStaging(s))
      invariant c.pending.Keys <= old(c.pending).Keys + {slot} && c.failures == old(c.failures)
      invariant StagedTo(c, l, platform, slot, now, was, j, area, staging, clear)
      invariant (wrote <==> AnyChanging(now, was, j)) && (!wrote ==> c.pending == old(c.pending) && c.macros == old(c.macros))
    {
      ChangingMore(now, was, j);
      if !Changing(now, was, j) {
        StagedSkip(c, l, platform, slot, now, was, j, area, staging, clear);
        continue;
      }
      ok := StageChanging(c, l, platform, slot, now, was, j, area, staging, clear);
      if !ok { return; }
      wrote := true;
    }
    return true, wrote;
  }

  /** Reads the written macros back and says whether they are there. */
  method CheckMacros(c: Controller, l: Layout, platform: Byte, slot: nat, now: seq<Macro>, was: seq<Macro>) returns (ok: bool)
    requires c.Valid() && slot < PAD_SLOTS && MacrosFit(now) && |was| == MACROS
    ensures ok ==> HoldsChanging(l, platform, c.macros[slot], now, was)
    ensures c.fault.NoFault? ==> (ok <==> HoldsChanging(l, platform, c.macros[slot], now, was))
  {
    for j := 0 to MACROS
      invariant forall k :: 0 <= k < j && Changing(now, was, k) ==> HoldsSteps(l, platform, c.macros[slot], k, now[k].steps)
    {
      if !Changing(now, was, j) {
        continue;
      }
      var want := EncodeSteps(now[j].steps, Analog(l, platform));
      var got := ReadMacroData(c, slot, j * REGION, |want|);
      if got != Ok(want) { return false; }
    }
    return true;
  }

  /** Every macro that was to be written is there. */
  ghost predicate HoldsChanging(l: Layout, platform: Byte, area: seq<Byte>, now: seq<Macro>, was: seq<Macro>)
    requires |area| == AREA && MacrosFit(now) && |was| == MACROS
  {
    forall j :: 0 <= j < MACROS && Changing(now, was, j) ==> HoldsSteps(l, platform, area, j, now[j].steps)
  }

  /** The record side of a device that did at most one commit. */
  ghost predicate RecordOnlyCommitted(c: Controller, stored0: seq<Byte>, staged0: Option<seq<Byte>>, log0: seq<Snapshot>)
    reads c
  {
    || (c.stored == stored0 && c.staged == staged0 && c.log == log0)
    || (c.stored == (if staged0.Some? then staged0.value else stored0) && c.staged.None? &&
        c.log == log0 + [Snapshot(c.stored, c.macros)])
  }

  /** Each other slot's macros are what they were or what was already pending for them. */
  ghost predicate OthersKept(c: Controller, slot: nat, macros0: seq<seq<Byte>>, pending0: map<nat, seq<Byte>>)
    reads c
  {
    && Areas(c.macros) && Areas(macros0) && PendingOk(c.pending) && PendingOk(pending0)
    && c.pending.Keys <= pending0.Keys + {slot}
    && forall s :: 0 <= s < PAD_SLOTS && s != slot ==>
         && (c.macros[s] == macros0[s] || c.macros[s] == Promoted(macros0, pending0)[s])
         && Promoted(c.macros, c.pending)[s] == Promoted(macros0, pending0)[s]
  }

  /**
   Erases and rewrites the storage of each macro of a slot that differs, commits, and reads the steps
   back.
   */
  method WriteMacroSteps(c: Controller, l: Layout, platform: Byte, slot: nat, now: seq<Macro>, was: seq<Macro>) returns (ok: bool)
    requires c.Valid() && slot < PAD_SLOTS && MacrosFit(now) && |was| == MACROS
    modifies c
    ensures c.failures <= old(c.failures) + 1 && (ok ==> c.failures == old(c.failures))
    ensures c.Valid() && c.light == old(c.light)
    ensures RecordOnlyCommitted(c, old(c.stored), old(c.staged), old(c.log))
    ensures OthersKept(c, slot, old(c.macros), old(c.pending))
    ensures SameRest(now, was, old(c.MacroStaging(slot)), c.MacroStaging(slot))
    ensures SameRest(now, was, old(c.macros[slot]), c.macros[slot]) || SameRest(now, was, old(c.MacroStaging(slot)), c.macros[slot])
    ensures ok ==> HoldsChanging(l, platform, c.macros[slot], now, was) && HoldsChanging(l, platform, c.MacroStaging(slot), now, was)
    ensures ok && AnyChanging(now, was, MACROS) ==> c.pending == map[]
    ensures !AnyChanging(now, was, MACROS) ==> ok && c.stored == old(c.stored) && c.staged == old(c.staged) && c.log == old(c.log)
    ensures !AnyChanging(now, was, MACROS) ==> c.macros == old(c.macros) && c.pending == old(c.pending)
    ensures c.fault.NoFault? && AnyChanging(now, was, MACROS) ==> c.pending == map[]
    ensures c.fault.NoFault? && slot !in old(c.pending) ==> (ok <==> FlashTakes(l, platform, old(c.macros[slot]), now, was))
    ensures c.fault.NoFault? && slot !in old(c.pending) ==>
              FlashedTo(l, platform, was, now, old(c.macros[slot]), c.macros[slot], MACROS)
  {
    var wrote: bool;
    ok, wrote := StageMacros(c, l, platform, slot, now, was);
    if !ok || !wrote { return; }
    ok := c.Commit();
    if !ok { return; }
    if c.fault.NoFault? && slot !in old(c.pending) {
      FlashHoldsExactly(l, platform, was, now, old(c.macros[slot]), c.macros[slot]);
    }
    ok := CheckMacros(c, l, platform, slot, now, was);
  }

  // ---- What fault-free flash takes

  /** Every bit a later macro's steps need is already set in what its region held. */
  ghost predicate FlashTakes(l: Layout, platform: Byte, area: seq<Byte>, now: seq<Macro>, was: seq<Macro>)
    requires |area| == AREA && MacrosFit(now) && |was| == MACROS
  {
    forall j :: 0 <= j < MACROS && Changing(now, was, j) && AnyChanging(now, was, j) ==>
      OnlyClears(Region(area, j), StepsEncoded(now[j].steps, Analog(l, platform)))
  }

  predicate OnlyClears(held: seq<Byte>, data: seq<Byte>)
    requires |data| <= |held|
  {
    WriteOver(held[..|data|], data) == data
  }

  lemma HoldsInRegion(l: Layout, platform: Byte, area: seq<Byte>, j: nat, steps: seq<Step>)
    requires j < MACROS && |area| == AREA && |steps| <= MAX_STEPS
    ensures HoldsSteps(l, platform, area, j, steps)
       <==> Region(area, j)[..|steps| * STEP_BYTES] == StepsEncoded(steps, Analog(l, platform))
  {
    hide StepsEncoded;
    SliceOfSlice(area, j * REGION, REGION, 0, |steps| * STEP_BYTES);
  }

  lemma WrittenPrefix(region: seq<Byte>, steps: seq<Byte>, data: seq<Byte>, erased: bool)
    requires |region| == REGION && |steps| <= |data| <= REGION && data[..|steps|] == steps
    ensures WrittenRegion(region, data, erased)[..|steps|] == steps <==> erased || OnlyClears(region, steps)
  {
    hide Write1;
    var n := |steps|;
    if erased {
      assert WrittenRegion(region, data, erased)[..n] == data[..n];
    } else {
      assert WriteOver(region[..|data|], data)[..n] == WriteOver(region[..n], steps) by {
        forall i | 0 <= i < n
          ensures WriteOver(region[..|data|], data)[..n][i] == WriteOver(region[..n], steps)[i]
        {
          assert data[i] == data[..n][i] == steps[i];
        }
      }
      assert WrittenRegion(region, data, erased)[..n] == WriteOver(region[..|data|], data)[..n];
    }
  }

  /** Rewriting macros on fault-free flash succeeds exactly when every one after the first only clears bits. */
  lemma FlashHoldsExactly(l: Layout, platform: Byte, was: seq<Macro>, now: seq<Macro>, area: seq<Byte>, after: seq<Byte>)
    requires |area| == |after| == AREA && MacrosFit(now) && |was| == MACROS
    requires FlashedTo(l, platform, was, now, area, after, MACROS)
    ensures HoldsChanging(l, platform, after, now, was) <==> FlashTakes(l, platform, area, now, was)
  {
    forall j | 0 <= j < MACROS && Changing(now, was, j)
      ensures HoldsSteps(l, platform, after, j, now[j].steps)
         <==> !AnyChanging(now, was, j) || OnlyClears(Region(area, j), StepsEncoded(now[j].steps, Analog(l, platform)))
    {
      FlashHoldsMacro(l, platform, was, now, area, after, j);
    }
    hide FlashedTo, HoldsSteps, OnlyClears, Changing, AnyChanging;
  }

  lemma FlashHoldsMacro(l: Layout, platform: Byte, was: seq<Macro>, now: seq<Macro>, area: seq<Byte>, after: seq<Byte>, j: nat)
    requires |area| == |after| == AREA && MacrosFit(now) && |was| == MACROS && j < MACROS && Changing(now, was, j)
    requires Region(after, j) == FlashRegion(l, platform, area, now, was, j)
    ensures HoldsSteps(l, platform, after, j, now[j].steps)
       <==> !AnyChanging(now, was, j) || OnlyClears(Region(area, j), StepsEncoded(now[j].steps, Analog(l, platform)))
  {
    hide HoldsSteps, OnlyClears, WrittenRegion, StepsEncoded, Region;
    var steps, data := StepsEncoded(now[j].steps, Analog(l, platform)), StorageOf(l, platform, now[j]);
    assert data[..|steps|] == steps;
    HoldsInRegion(l, platform, after, j, now[j].steps);
    WrittenPrefix(Region(area, j), steps, data, !AnyChanging(now, was, j));
  }

  /** What fault-free flash with nothing pending holds of a slot once its macros are rewritten. */
  function Flashed(l: Layout, platform: Byte, area: seq<Byte>, now: seq<Macro>, was: seq<Macro>): (r: seq<Byte>)
    requires |area| == AREA && MacrosFit(now) && |was| == MACROS
    ensures |r| == AREA
  {
    FlashRegion(l, platform, area, now, was, 0) + FlashRegion(l, platform, area, now, was, 1) +
    FlashRegion(l, platform, area, now, was, 2) + FlashRegion(l, platform, area, now, was, 3)
  }

  lemma FourRegions(area: seq<Byte>)
    requires |area| == AREA
    ensures area == Region(area, 0) + Region(area, 1) + Region(area, 2) + Region(area, 3)
  {
  }

  lemma FlashedIs(l: Layout, platform: Byte, was: seq<Macro>, now: seq<Macro>, area: seq<Byte>, after: seq<Byte>)
    requires |area| == |after| == AREA && MacrosFit(now) && |was| == MACROS
    requires FlashedTo(l, platform, was, now, area, after, MACROS)
    ensures after == Flashed(l, platform, area, now, was)
  {
    hide Region, FlashRegion;
    FourRegions(after);
  }

  lemma FlashedRegion(l: Layout, platform: Byte, area: seq<Byte>, now: seq<Macro>, was: seq<Macro>, j: nat)
    requires |area| == AREA && MacrosFit(now) && |was| == MACROS && j < MACROS
    ensures Region(Flashed(l, platform, area, now, was), j) == FlashRegion(l, platform, area, now, was, j)
  {
    hide FlashRegion;
  }

  /** So one macro can always be rewritten. */
  lemma OneMacroAlwaysTakes(l: Layout, platform: Byte, area: seq<Byte>, now: seq<Macro>, was: seq<Macro>, j: nat)
    requires |area| == AREA && MacrosFit(now) && |was| == MACROS && j < MACROS
    requires forall k :: 0 <= k < MACROS && k != j ==> !Changing(now, was, k)
    ensures FlashTakes(l, platform, area, now, was)
  {
  }

  /** A macro that waits a millisecond with nothing held. */
  const TICK := Macro([65], PadLayouts.A, [Step(1, 0, CENTRE, CENTRE)], 1, 0)

  lemma TickValid(l: Layout)
    requires KnownLayout(l)
    ensures MacroValid(l, TICK)
  {
    assert CanTrigger(l, PadLayouts.A) by { assert TRIGGERS[4] == PadLayouts.A; }
    assert Names.WellFormed([65]) by { assert Names.Readable([65][1..]) == []; }
  }

  /** Two cannot: a second macro of one-millisecond steps does not go over zeros. */
  lemma SecondMacroRefused(l: Layout, platform: Byte, was: seq<Macro>, now: seq<Macro>, area: seq<Byte>)
    requires KnownLayout(l) && was == [NO_MACRO, NO_MACRO, NO_MACRO, NO_MACRO] && now == [TICK, TICK, NO_MACRO, NO_MACRO]
    requires area == Fill(AREA, 0)
    ensures MacroValid(l, TICK) && MacrosFit(now) && !FlashTakes(l, platform, area, now, was)
  {
    TickValid(l);
    assert Changing(now, was, 0) && Changing(now, was, 1) && AnyChanging(now, was, 1);
    var steps := now[1].steps;
    assert StepsEncoded(steps, Analog(l, platform)) == [] + EncodeStep(steps[0], Analog(l, platform));
    assert StepsEncoded(steps, Analog(l, platform))[0] == 1;
    assert Region(area, 1)[0] == 0;
    assert Write1(0, 1) == 0;
  }
}

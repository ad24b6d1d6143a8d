/**
 What a controller's old macro headers describe once their steps were rewritten. An edit that replaces
 the steps of a macro is committed while the record still has the old header, and a rollback commits the
 old record before it writes the old steps: whether either header then describes steps that are there
 depends on how the old steps and the new ones begin.
 */
module PadHeaders {
  import Names
  import opened Bytes
  import opened Flash
  import opened PadLayouts
  import opened PadMacros
  import opened PadRules
  import opened PadCodec
  import opened PadProfile
  import opened PadDevice
  import opened PadWrite
  import opened PadApply

  // ---- Steps from joined and cut data

  lemma {:induction false} StepsInSame(a: seq<Byte>, b: seq<Byte>, analog: bool, n: nat)
    requires n * STEP_BYTES <= |a| && n * STEP_BYTES <= |b| && a[..n * STEP_BYTES] == b[..n * STEP_BYTES]
    ensures StepsIn(a, analog, n) == StepsIn(b, analog, n)
  {
    hide DecodeStep;
    if n > 0 {
      var at, end := (n - 1) * STEP_BYTES, n * STEP_BYTES;
      assert a[..at] == a[..end][..at] && b[..at] == b[..end][..at];
      assert a[at..end] == a[..end][at..] && b[at..end] == b[..end][at..];
      StepsInSame(a, b, analog, n - 1);
    }
  }

  lemma {:induction false} StepsInFront(data: seq<Byte>, analog: bool, n: nat, m: nat)
    requires m <= n && n * STEP_BYTES <= |data|
    ensures StepsIn(data, analog, n)[..m] == StepsIn(data, analog, m)
  {
    hide DecodeStep;
    if n > m {
      StepsInFront(data, analog, n - 1, m);
    }
  }

  // ---- One macro

  /** What erased flash reads as. */
  function ErasedSteps(n: nat, analog: bool): (steps: seq<Step>)
    ensures |steps| == n
  {
    StepsIn(Fill(n * STEP_BYTES, ERASED), analog, n)
  }

  /**
   The old steps of a rewritten macro are still there: they begin the new ones, or go on after them as
   what the flash has there, erased for the first macro written and unchanged for the others.
   */
  predicate OldLeft(before: seq<Step>, after: seq<Step>, first: bool, analog: bool) {
    if |before| <= |after| then before <= after
    else after <= before && (first ==> before[|after|..] == ErasedSteps(|before| - |after|, analog))
  }

  /** A region reads as steps. */
  predicate StepsAre(r: seq<Byte>, analog: bool, steps: seq<Step>)
    requires |steps| * STEP_BYTES <= |r|
  {
    StepsIn(r, analog, |steps|) == steps
  }

  lemma StepsAreIn(r: seq<Byte>, analog: bool, steps: seq<Step>, n: nat)
    requires |steps| == n && n * STEP_BYTES <= |r|
    ensures StepsAre(r, analog, steps) <==> StepsIn(r, analog, n) == steps
  {
    hide StepsIn;
  }

  lemma ReadsInRegion(l: Layout, platform: Byte, area: seq<Byte>, j: nat, steps: seq<Step>)
    requires j < MACROS && |area| == AREA && |steps| <= MAX_STEPS
    ensures ReadsSteps(l, platform, area, j, steps) <==> StepsAre(Region(area, j), Analog(l, platform), steps)
  {
    hide StepsIn;
    var at, n := j * REGION, |steps| * STEP_BYTES;
    var slice, region := area[at..at + n], Region(area, j);
    SliceOfSlice(area, at, REGION, 0, n);
    assert region[..n] == region[0..n] == slice;
    hide Region;
    assert slice[..n] == slice;
    StepsInSame(slice, region, Analog(l, platform), |steps|);
    assert |slice| / STEP_BYTES == |steps|;
  }

  /** Data that holds new steps and nothing but erased bytes after them. */
  predicate HoldsJust(data: seq<Byte>, n: nat) {
    n <= |data| <= REGION && forall i :: n <= i < |data| ==> data[i] == ERASED
  }

  /** The bytes after the new steps of a rewritten region, as far as the old steps went. */
  lemma TailLeft(region: seq<Byte>, data: seq<Byte>, n: nat, m: nat, first: bool)
    requires |region| == REGION && n <= m <= REGION && HoldsJust(data, n)
    ensures WrittenRegion(region, data, first)[n..m] == if first then Fill(m - n, ERASED) else region[n..m]
  {
    hide Write1;
    var r := WrittenRegion(region, data, first);
    forall i | n <= i < m
      ensures r[i] == if first then ERASED else region[i]
    {
      WriteErased(region[i]);
    }
  }

  /** The k steps after the first n. */
  function StepsAfter(r: seq<Byte>, analog: bool, n: nat, k: nat): (steps: seq<Step>)
    requires (n + k) * STEP_BYTES <= |r|
    ensures |steps| == k
  {
    StepsIn(r[n * STEP_BYTES..], analog, k)
  }

  /** Steps read in two parts. */
  lemma {:induction false} StepsInParts(r: seq<Byte>, analog: bool, n: nat, k: nat)
    requires (n + k) * STEP_BYTES <= |r|
    ensures StepsIn(r, analog, n + k) == StepsIn(r, analog, n) + StepsAfter(r, analog, n, k)
  {
    hide DecodeStep;
    if k > 0 {
      StepsInParts(r, analog, n, k - 1);
      var rest := r[n * STEP_BYTES..];
      assert rest[(k - 1) * STEP_BYTES..k * STEP_BYTES] == r[(n + k - 1) * STEP_BYTES..(n + k) * STEP_BYTES];
    }
  }

  lemma TakeAll(s: seq<Byte>, n: nat)
    requires |s| == n
    ensures s[..n] == s
  {
  }

  lemma TakeDropped(s: seq<Byte>, at: nat, end: nat)
    requires at <= end <= |s|
    ensures s[at..][..end - at] == s[at..end]
  {
  }

  /** What the steps after the new ones read as, as far as the old steps went. */
  lemma TailReads(region: seq<Byte>, data: seq<Byte>, n: nat, k: nat, first: bool, analog: bool)
    requires |region| == REGION && (n + k) * STEP_BYTES <= REGION && HoldsJust(data, n * STEP_BYTES)
    ensures StepsAfter(WrittenRegion(region, data, first), analog, n, k)
         == if first then ErasedSteps(k, analog) else StepsAfter(region, analog, n, k)
  {
    hide WrittenRegion, StepsIn;
    var at, end, r := n * STEP_BYTES, (n + k) * STEP_BYTES, WrittenRegion(region, data, first);
    TailLeft(region, data, at, end, first);
    TakeDropped(r, at, end);
    if first {
      TakeAll(Fill(end - at, ERASED), end - at);
      StepsInSame(r[at..], Fill(end - at, ERASED), analog, k);
    } else {
      TakeDropped(region, at, end);
      StepsInSame(r[at..], region[at..], analog, k);
    }
  }

  /** A region that begins with encoded steps reads as them. */
  lemma EncodedRead(r: seq<Byte>, steps: seq<Step>, analog: bool)
    requires StepsFit(steps) && |steps| * STEP_BYTES <= |r| && r[..|steps| * STEP_BYTES] == StepsEncoded(steps, analog)
    ensures StepsAre(r, analog, steps)
  {
    hide DecodeStep, EncodeStep;
    var raw := StepsEncoded(steps, analog);
    StepsRoundTrip(steps, analog);
    assert raw[..|raw|] == raw;
    StepsInSame(r, raw, analog, |steps|);
  }

  lemma OldTail(region: seq<Byte>, before: seq<Step>, n: nat, k: nat, analog: bool)
    requires (n + k) * STEP_BYTES <= |region| && StepsIn(region, analog, n + k) == before
    ensures StepsAfter(region, analog, n, k) == before[n..]
  {
    hide StepsIn, StepsAfter;
    StepsInParts(region, analog, n, k);
    var front, tail := StepsIn(region, analog, n), StepsAfter(region, analog, n, k);
    assert before == front + tail;
  }

  /** Longer ones are left when they go on after the new ones as the region does. */
  lemma LongerLeft(read: seq<Step>, before: seq<Step>, after: seq<Step>, tail: seq<Step>)
    requires read == after + tail && |read| == |before|
    ensures read == before <==> after <= before && before[|after|..] == tail
  {
    assert before == before[..|after|] + before[|after|..];
    if read == before {
      assert before[..|after|] == after;
    }
  }

  lemma OldStepsShorter(r: seq<Byte>, before: seq<Step>, after: seq<Step>, analog: bool)
    requires |before| <= |after| && |after| * STEP_BYTES <= |r| && StepsAre(r, analog, after)
    ensures StepsAre(r, analog, before) <==> before <= after
  {
    StepsInFront(r, analog, |after|, |before|);
    hide StepsIn;
  }

  lemma OldStepsLonger(region: seq<Byte>, before: seq<Step>, after: seq<Step>, data: seq<Byte>, first: bool, analog: bool, n: nat, k: nat)
    requires |region| == REGION && |after| == n && |before| == n + k <= MAX_STEPS && HoldsJust(data, n * STEP_BYTES) && |data| <= REGION
    requires StepsAre(region, analog, before) && StepsAre(WrittenRegion(region, data, first), analog, after)
    ensures StepsAre(WrittenRegion(region, data, first), analog, before) <==>
            after <= before && (first ==> before[n..] == ErasedSteps(k, analog))
  {
    hide WrittenRegion, StepsIn, ErasedSteps, HoldsJust, StepsAre;
    var r := WrittenRegion(region, data, first);
    StepsAreIn(r, analog, after, n);
    StepsAreIn(r, analog, before, n + k);
    StepsAreIn(region, analog, before, n + k);
    LongerRegion(region, r, before, after, data, first, analog, n, k);
  }

  /** What is left of a macro's old steps when storage of new ones was written over them and holds those. */
  lemma OldStepsLeft(region: seq<Byte>, before: seq<Step>, after: seq<Step>, data: seq<Byte>, first: bool, analog: bool)
    requires |region| == REGION && |before| <= MAX_STEPS && HoldsJust(data, |after| * STEP_BYTES) && |data| <= REGION
    requires |after| <= MAX_STEPS && StepsAre(WrittenRegion(region, data, first), analog, after) && StepsAre(region, analog, before)
    ensures StepsAre(WrittenRegion(region, data, first), analog, before) <==> OldLeft(before, after, first, analog)
  {
    hide WrittenRegion, StepsIn, ErasedSteps, HoldsJust, StepsAre;
    if |before| <= |after| {
      OldStepsShorter(WrittenRegion(region, data, first), before, after, analog);
    } else {
      OldStepsLonger(region, before, after, data, first, analog, |after|, |before| - |after|);
    }
  }

  lemma LongerRegion(region: seq<Byte>, r: seq<Byte>, before: seq<Step>, after: seq<Step>, data: seq<Byte>, first: bool, analog: bool,
    n: nat, k: nat)
    requires |region| == REGION && n + k <= MAX_STEPS && HoldsJust(data, n * STEP_BYTES) && |data| <= REGION
    requires r == WrittenRegion(region, data, first) && StepsIn(r, analog, n) == after && StepsIn(region, analog, n + k) == before
    ensures StepsIn(r, analog, n + k) == before <==> after <= before && (first ==> before[n..] == ErasedSteps(k, analog))
  {
    hide WrittenRegion, StepsIn, StepsAfter, ErasedSteps, HoldsJust;
    TailReads(region, data, n, k, first, analog);
    OldTail(region, before, n, k, analog);
    StepsInParts(r, analog, n, k);
    LongerLeft(StepsIn(r, analog, n + k), before, after, StepsAfter(r, analog, n, k));
  }

  lemma SameTail(a: seq<Step>, b: seq<Step>, c: seq<Step>)
    requires c == a + b
    ensures c[|a|..] == b
  {
  }

  /** The old macro's steps after fault-free flash took the new ones: exactly when they are left, if rewritten at all. */
  lemma OldMacroLeft(l: Layout, platform: Byte, area: seq<Byte>, now: seq<Macro>, was: seq<Macro>, j: nat)
    requires |area| == AREA && MacrosFit(now) && MacrosFit(was) && j < MACROS
    requires ReadsSteps(l, platform, area, j, was[j].steps) && FlashTakes(l, platform, area, now, was)
    ensures ReadsSteps(l, platform, Flashed(l, platform, area, now, was), j, was[j].steps) <==>
            !Changing(now, was, j) || OldLeft(was[j].steps, now[j].steps, !AnyChanging(now, was, j), Analog(l, platform))
  {
    var after := Flashed(l, platform, area, now, was);
    FlashedRegion(l, platform, area, now, was, j);
    ReadsInRegion(l, platform, area, j, was[j].steps);
    ReadsInRegion(l, platform, after, j, was[j].steps);
    if Changing(now, was, j) {
      var steps, data := StepsEncoded(now[j].steps, Analog(l, platform)), StorageOf(l, platform, now[j]);
      FlashHoldsMacro(l, platform, was, now, area, after, j);
      HoldsInRegion(l, platform, after, j, now[j].steps);
      assert HoldsJust(data, |steps|);
      hide StepsEncoded, Region, WrittenRegion, FlashTakes, Flashed, ReadsSteps, HoldsSteps, OldLeft;
      EncodedRead(WrittenRegion(Region(area, j), data, !AnyChanging(now, was, j)), now[j].steps, Analog(l, platform));
      OldStepsLeft(Region(area, j), was[j].steps, now[j].steps, data, !AnyChanging(now, was, j), Analog(l, platform));
    }
  }

  // ---- A whole edit

  /** Every old header describes steps that are there. */
  ghost predicate OldTold(l: Layout, platform: Byte, w: seq<seq<Macro>>, areas: seq<seq<Byte>>)
    requires MacrosShaped(l, w) && AllMacrosFit(l, w) && Areas(areas)
  {
    forall s, j :: 0 <= s < l.slots && 0 <= j < MACROS ==> ReadsSteps(l, platform, areas[s], j, w[s][j].steps)
  }

  /** The steps of every macro an edit rewrites are left by the new ones. */
  ghost predicate AllLeft(l: Layout, platform: Byte, e: seq<seq<Macro>>, w: seq<seq<Macro>>)
    requires MacrosShaped(l, e) && MacrosShaped(l, w)
  {
    forall s, j :: 0 <= s < l.slots && 0 <= j < MACROS && Changing(e[s], w[s], j) ==>
      OldLeft(w[s][j].steps, e[s][j].steps, !AnyChanging(e[s], w[s], j), Analog(l, platform))
  }

  /**
   The old record committed over macro storage that took an edit has every header describe steps that
   are there exactly when the new steps leave those of every macro they were written over: a fault-free
   controller's, as it is when a step after the macros fails and the rollback commits the old record
   first, and already when the last of the macros is committed.
   */
  lemma OldHeadersTold(l: Layout, platform: Byte, e: seq<seq<Macro>>, w: seq<seq<Macro>>, areas0: seq<seq<Byte>>)
    requires Ready(l, e, w) && Areas(areas0) && OldTold(l, platform, w, areas0)
    requires AllFlashTakes(l, platform, areas0, e, w, l.slots)
    ensures OldTold(l, platform, w, Written(l, platform, areas0, e, w, l.slots)) <==> AllLeft(l, platform, e, w)
  {
    var areas := Written(l, platform, areas0, e, w, l.slots);
    hide Written, OldLeft, ReadsSteps, Changing, AnyChanging, FlashTakes, AllFlashTakes;
    forall s, j | 0 <= s < l.slots && 0 <= j < MACROS
      ensures ReadsSteps(l, platform, areas[s], j, w[s][j].steps) <==>
              (Changing(e[s], w[s], j) ==> OldLeft(w[s][j].steps, e[s][j].steps, !AnyChanging(e[s], w[s], j), Analog(l, platform)))
    {
      WrittenSlot(l, platform, areas0, e, w, l.slots, s);
      MacrosFitAt(l, e, s);
      MacrosFitAt(l, w, s);
      OldMacroLeft(l, platform, areas0[s], e[s], w[s], j);
    }
  }

  lemma {:induction false} WrittenSlot(l: Layout, platform: Byte, areas: seq<seq<Byte>>, now: seq<seq<Macro>>, was: seq<seq<Macro>>, n: nat, s: nat)
    requires MacrosShaped(l, now) && MacrosShaped(l, was) && Areas(areas) && s < n <= l.slots && AllMacrosFit(l, now)
    requires AllFlashTakes(l, platform, areas, now, was, n)
    ensures MacrosFit(now[s]) && FlashTakes(l, platform, areas[s], now[s], was[s])
    ensures Written(l, platform, areas, now, was, n)[s] == Flashed(l, platform, areas[s], now[s], was[s])
  {
    hide FlashTakes, Flashed;
    if s < n - 1 {
      WrittenSlot(l, platform, areas, now, was, n - 1, s);
    }
  }

  /** What a profile shows of macros is what its storage reads as. */
  lemma ShownTold(l: Layout, rec: seq<Byte>, areas: seq<seq<Byte>>, light: Byte)
    requires KnownLayout(l) && |rec| == l.size && Areas(areas)
    ensures Ready(l, ProfileOf(l, rec, areas, light).macros, ProfileOf(l, rec, areas, light).macros)
    ensures OldTold(l, PlatformOf(l, rec), ProfileOf(l, rec, areas, light).macros, areas)
  {
    ReadFits(l, rec, areas, light);
    var w := ProfileOf(l, rec, areas, light).macros;
    hide KnownLayout, ProfileOf, MacrosShaped, AllMacrosFit, MacroSection, DecodeSection, PlatformOf, ReadsSteps;
    ReadShape(l, w);
    forall s, j | 0 <= s < l.slots && 0 <= j < MACROS
      ensures ReadsSteps(l, PlatformOf(l, rec), areas[s], j, w[s][j].steps)
    {
      ShownMacros(l, rec, areas, light, s);
      SectionTold(l, PlatformOf(l, rec), MacroSection(l, rec, s), areas[s], j);
    }
  }

  lemma ReadShape(l: Layout, w: seq<seq<Macro>>)
    requires MacrosShaped(l, w)
    ensures l.slots <= PAD_SLOTS && |w| == l.slots && forall s :: 0 <= s < l.slots ==> |w[s]| == MACROS
  {
  }

  lemma SectionTold(l: Layout, platform: Byte, section: seq<Byte>, area: seq<Byte>, j: nat)
    requires |section| == SECTION && |area| == AREA && j < MACROS
    ensures ReadsSteps(l, platform, area, j, DecodeSection(l, platform, section, area)[j].steps)
  {
    hide ReadsSteps, HeaderIn, Word32, DecodeMacro;
    NoStepsRead(l, platform, area, j);
    if Word32(section) == IN_USE {
      MacroTold(l, platform, HeaderIn(section, j), area, j);
    }
  }

  lemma MacroTold(l: Layout, platform: Byte, header: seq<Byte>, area: seq<Byte>, j: nat)
    requires |header| == HEADER && |area| == AREA && j < MACROS
    ensures ReadsSteps(l, platform, area, j, DecodeMacro(l, platform, header, j, area).steps)
  {
    hide StepsDecoded, CanTrigger, TriggerIn, CountIn, Word32, Names.DecodeName, ReadsSteps, Analog;
    NoStepsRead(l, platform, area, j);
    if Describes(l, header) {
      StepsTold(l, platform, area, j, CountIn(header));
    }
  }

  lemma StepsTold(l: Layout, platform: Byte, area: seq<Byte>, j: nat, n: nat)
    requires |area| == AREA && j < MACROS && n <= MAX_STEPS
    ensures var steps := StepsDecoded(area[j * REGION..j * REGION + n * STEP_BYTES], Analog(l, platform));
            |steps| == n && ReadsSteps(l, platform, area, j, steps)
  {
    hide StepsIn, Analog;
  }

  lemma NoStepsRead(l: Layout, platform: Byte, area: seq<Byte>, j: nat)
    requires |area| == AREA && j < MACROS
    ensures ReadsSteps(l, platform, area, j, [])
  {
  }

  lemma OldFirst(l: Layout, platform: Byte, e: Profile, rec: seq<Byte>, areas: seq<seq<Byte>>, light: Byte, log: seq<Snapshot>, from: nat)
    requires KnownLayout(l) && |rec| == l.size && Areas(areas) && OldRecordFirst(l, platform, e, rec, areas, light, log, from)
    requires PlannedSpans(l, platform, rec, e, ProfileOf(l, rec, areas, light)) != []
    ensures PlatformOf(l, rec) == platform && Ready(l, e.macros, ProfileOf(l, rec, areas, light).macros) && from <= |log|
    ensures Snapshot(rec, Written(l, platform, areas, e.macros, ProfileOf(l, rec, areas, light).macros, l.slots)) in log[from..]
  {
    hide KnownLayout, ProfileOf, PlannedSpans, Written, ProfileFits, PadProfile.ProfileAccepted, DecodeSlot, PlatformOf;
  }

  /** A commit since from has the record rec, and every header of macros w in it describes steps that are there or not. */
  ghost predicate CommitTells(l: Layout, platform: Byte, rec: seq<Byte>, w: seq<seq<Macro>>, log: seq<Snapshot>, from: nat, told: bool)
    requires MacrosShaped(l, w) && AllMacrosFit(l, w)
  {
    exists k :: from <= k < |log| && log[k].record == rec && Areas(log[k].macros) && (OldTold(l, platform, w, log[k].macros) <==> told)
  }

  lemma SnapshotTells(l: Layout, platform: Byte, rec: seq<Byte>, areas: seq<seq<Byte>>, w: seq<seq<Macro>>, log: seq<Snapshot>, from: nat)
    requires MacrosShaped(l, w) && AllMacrosFit(l, w) && Areas(areas) && from <= |log| && Snapshot(rec, areas) in log[from..]
    ensures CommitTells(l, platform, rec, w, log, from, OldTold(l, platform, w, areas))
  {
    hide OldTold, MacrosShaped, AllMacrosFit;
    var k :| 0 <= k < |log[from..]| && log[from..][k] == Snapshot(rec, areas);
    assert log[from + k] == log[from..][k];
  }

  /**
   A rollback of an edit whose macros flash took: the old record it commits first describes steps that
   are there exactly when the edit's steps leave every old macro's.
   */
  lemma RollbackTells(l: Layout, platform: Byte, e: Profile, rec: seq<Byte>, areas: seq<seq<Byte>>, light: Byte, log: seq<Snapshot>, from: nat)
    requires KnownLayout(l) && |rec| == l.size && Areas(areas) && OldRecordFirst(l, platform, e, rec, areas, light, log, from)
    requires PlannedSpans(l, platform, rec, e, ProfileOf(l, rec, areas, light)) != []
    requires Ready(l, e.macros, ProfileOf(l, rec, areas, light).macros)
    requires AllFlashTakes(l, platform, areas, e.macros, ProfileOf(l, rec, areas, light).macros, l.slots)
    ensures CommitTells(l, platform, rec, ProfileOf(l, rec, areas, light).macros, log, from,
                        AllLeft(l, platform, e.macros, ProfileOf(l, rec, areas, light).macros))
  {
    var w := ProfileOf(l, rec, areas, light);
    OldFirst(l, platform, e, rec, areas, light, log, from);
    ShownTold(l, rec, areas, light);
    hide KnownLayout, ProfileOf, PlannedSpans, AllFlashTakes, Written, MacrosShaped, AllMacrosFit, OldTold, AllLeft, PlatformOf, OldRecordFirst, CommitTells;
    OldHeadersTold(l, platform, e.macros, w.macros, areas);
    SnapshotTells(l, platform, rec, Written(l, platform, areas, e.macros, w.macros, l.slots), w.macros, log, from);
  }
}

/** Restoring a backup: the runs of bytes in which a device's record differs from it. */
module DiffRuns {
  import opened Bytes
  import opened Patch

  /** The bytes at lo up to hi are left to the device. */
  datatype Protected = Protected(lo: int, hi: int)

  predicate Differs(current: seq<Byte>, backup: seq<Byte>, p: Protected, i: int)
    requires |current| == |backup|
  {
    0 <= i < |current| && !(p.lo <= i < p.hi) && current[i] != backup[i]
  }

  /**
   Spans that cover exactly the differing bytes below n, in order and with a gap between one and the
   next: the maximal runs.
   */
  ghost predicate AreRuns(current: seq<Byte>, backup: seq<Byte>, p: Protected, spans: seq<Span>, n: int)
    requires |current| == |backup|
  {
    && (forall a :: 0 <= a < |spans| ==> spans[a].length > 0 && spans[a].offset + spans[a].length <= n)
    && (forall a, b :: 0 <= a < b < |spans| ==> spans[a].offset + spans[a].length < spans[b].offset)
    && (forall i :: 0 <= i < n ==> (Covered(i, spans) <==> Differs(current, backup, p, i)))
  }

  /** Finds the runs in one pass. */
  method FindRuns(current: seq<Byte>, backup: seq<Byte>, p: Protected) returns (spans: seq<Span>)
    requires |current| == |backup|
    ensures AreRuns(current, backup, p, spans, |current|)
  {
    hide AreRuns, Differs;
    spans := [];
    var i := 0;
    NoRunsYet(current, backup, p);
    while i < |backup|
      invariant 0 <= i <= |backup|
      invariant AreRuns(current, backup, p, spans, i) && (i < |backup| ==> EndsBefore(spans, i))
    {
      if !Differs(current, backup, p, i) {
        SkipSame(current, backup, p, spans, i);
        i := i + 1;
        continue;
      }
      var start := i;
      while i < |backup| && Differs(current, backup, p, i)
        invariant start <= i <= |backup|
        invariant forall j :: start <= j < i ==> Differs(current, backup, p, j)
      {
        i := i + 1;
      }
      AppendRun(current, backup, p, spans, start, i);
      spans := spans + [Span(start, i - start)];
      if i < |backup| {
        SkipSame(current, backup, p, spans, i);
        i := i + 1;
      }
    }
  }

  /** The last span ends before i, so another may start there. */
  ghost predicate EndsBefore(spans: seq<Span>, i: int) {
    spans != [] ==> spans[|spans| - 1].offset + spans[|spans| - 1].length < i
  }

  lemma NoRunsYet(current: seq<Byte>, backup: seq<Byte>, p: Protected)
    requires |current| == |backup|
    ensures AreRuns(current, backup, p, [], 0)
  {
  }

  lemma SkipSame(current: seq<Byte>, backup: seq<Byte>, p: Protected, spans: seq<Span>, i: nat)
    requires |current| == |backup| && i < |backup| && AreRuns(current, backup, p, spans, i)
    requires !Differs(current, backup, p, i)
    ensures AreRuns(current, backup, p, spans, i + 1) && EndsBefore(spans, i + 1)
  {
    assert !Covered(i, spans);
  }

  lemma AppendRun(current: seq<Byte>, backup: seq<Byte>, p: Protected, spans: seq<Span>, start: nat, end: nat)
    requires |current| == |backup| && start < end <= |current|
    requires AreRuns(current, backup, p, spans, start)
    requires EndsBefore(spans, start)
    requires forall j :: start <= j < end ==> Differs(current, backup, p, j)
    ensures AreRuns(current, backup, p, spans + [Span(start, end - start)], end)
  {
    var more := spans + [Span(start, end - start)];
    forall i | 0 <= i < end
      ensures Covered(i, more) <==> Differs(current, backup, p, i)
    {
      if i < start {
        if Covered(i, spans) {
          var a :| 0 <= a < |spans| && InSpan(i, spans[a]);
          assert InSpan(i, more[a]);
        }
        if Covered(i, more) {
          var a :| 0 <= a < |more| && InSpan(i, more[a]);
          assert InSpan(i, spans[a]);
        }
      } else {
        assert InSpan(i, more[|spans|]);
      }
    }
  }

  /**
   Writing the backup over the runs gives the backup, except the protected bytes, which stay the
   device's: wherever the written record agrees with the backup inside the runs and with the
   device's outside them.
   */
  lemma RunsRestore(current: seq<Byte>, backup: seq<Byte>, p: Protected, spans: seq<Span>, written: seq<Byte>)
    requires |current| == |backup| == |written| && AreRuns(current, backup, p, spans, |current|)
    requires forall i :: 0 <= i < |current| ==> written[i] == if Covered(i, spans) then backup[i] else current[i]
    ensures forall i :: 0 <= i < |current| ==> written[i] == if p.lo <= i < p.hi then current[i] else backup[i]
  {
    forall i | 0 <= i < |current|
      ensures written[i] == if p.lo <= i < p.hi then current[i] else backup[i]
    {
      assert Covered(i, spans) <==> Differs(current, backup, p, i);
    }
  }

  lemma RunsApart(current: seq<Byte>, backup: seq<Byte>, p: Protected, spans: seq<Span>)
    requires |current| == |backup| && AreRuns(current, backup, p, spans, |current|)
    ensures SpansDisjoint(spans) && SpansFit(|current|, spans)
    ensures forall i :: 0 <= i < |current| ==> (Covered(i, spans) <==> current[i] != backup[i] && (i < p.lo || p.hi <= i))
    ensures spans == [] <==> forall i :: 0 <= i < |current| ==> current[i] == backup[i] || p.lo <= i < p.hi
  {
    if spans != [] {
      assert InSpan(spans[0].offset, spans[0]);
      assert Covered(spans[0].offset, spans);
    }
  }

  /** There is only one such list: being the maximal runs decides every span. */
  lemma RunsUnique(current: seq<Byte>, backup: seq<Byte>, p: Protected, s: seq<Span>, t: seq<Span>)
    requires |current| == |backup|
    requires AreRuns(current, backup, p, s, |current|) && AreRuns(current, backup, p, t, |current|)
    ensures s == t
  {
    RunsPrefix(current, backup, p, s, t, Min(|s|, |t|));
    NoMoreRuns(current, backup, p, s, t);
    NoMoreRuns(current, backup, p, t, s);
  }

  lemma NoMoreRuns(current: seq<Byte>, backup: seq<Byte>, p: Protected, s: seq<Span>, t: seq<Span>)
    requires |current| == |backup| && s[..Min(|s|, |t|)] == t[..Min(|s|, |t|)]
    requires AreRuns(current, backup, p, s, |current|) && AreRuns(current, backup, p, t, |current|)
    ensures |t| <= |s|
  {
    if |s| < |t| {
      var i := t[|s|].offset;
      assert InSpan(i, t[|s|]) && Covered(i, t);
      EarlierRunsMiss(s, t, |s|);
    }
  }

  /** A run begins after every earlier one of either list. */
  lemma EarlierRunsMiss(s: seq<Span>, t: seq<Span>, n: nat)
    requires n <= |s| && n < |t| && s[..n] == t[..n]
    requires forall a, b :: 0 <= a < b < |t| ==> t[a].offset + t[a].length < t[b].offset
    ensures forall a :: 0 <= a < n ==> !InSpan(t[n].offset, s[a])
  {
    forall a | 0 <= a < n
      ensures !InSpan(t[n].offset, s[a])
    {
      assert s[..n][a] == t[..n][a];
    }
  }

  lemma {:induction false} RunsPrefix(current: seq<Byte>, backup: seq<Byte>, p: Protected, s: seq<Span>, t: seq<Span>, n: nat)
    requires |current| == |backup| && n <= |s| && n <= |t|
    requires AreRuns(current, backup, p, s, |current|) && AreRuns(current, backup, p, t, |current|)
    ensures s[..n] == t[..n]
  {
    if n > 0 {
      RunsPrefix(current, backup, p, s, t, n - 1);
      RunStart(current, backup, p, s, t, n - 1);
      RunStart(current, backup, p, t, s, n - 1);
      RunEnd(current, backup, p, s, t, n - 1);
      RunEnd(current, backup, p, t, s, n - 1);
      assert s[..n] == s[..n - 1] + [s[n - 1]] && t[..n] == t[..n - 1] + [t[n - 1]];
    }
  }

  /** The next run of one list starts no earlier than the next run of the other. */
  lemma RunStart(current: seq<Byte>, backup: seq<Byte>, p: Protected, s: seq<Span>, t: seq<Span>, n: nat)
    requires |current| == |backup| && n < |s| && n < |t| && s[..n] == t[..n]
    requires AreRuns(current, backup, p, s, |current|) && AreRuns(current, backup, p, t, |current|)
    ensures t[n].offset <= s[n].offset
  {
    var i := s[n].offset;
    assert InSpan(i, s[n]) && Covered(i, s);
    EarlierRunsMiss(t, s, n);
    assert Covered(i, t);
    var a :| 0 <= a < |t| && InSpan(i, t[a]);
  }

  /** Runs that start together end together: the byte after one is covered by neither list. */
  lemma RunEnd(current: seq<Byte>, backup: seq<Byte>, p: Protected, s: seq<Span>, t: seq<Span>, n: nat)
    requires |current| == |backup| && n < |s| && n < |t| && s[n].offset == t[n].offset
    requires AreRuns(current, backup, p, s, |current|) && AreRuns(current, backup, p, t, |current|)
    ensures s[n].length <= t[n].length
  {
    var end := t[n].offset + t[n].length;
    forall a | 0 <= a < |t|
      ensures !InSpan(end, t[a])
    {
    }
    if end < |current| {
      assert !Covered(end, t) && !Covered(end, s);
      assert !InSpan(end, s[n]);
    }
  }
}

/**
 Writing sections into a record and keeping the list of spans that changed: the
 discipline every record encoder here follows.
 */
module Patch {
  import opened Bytes

  /** A section to write at an offset; one with no data writes nothing. */
  datatype Put = Put(offset: nat, data: seq<Byte>)

  /** A stretch of a record that changed. */
  datatype Span = Span(offset: nat, length: nat)

  predicate Fits(size: nat, p: Put) { p.offset + |p.data| <= size }

  ghost predicate AllFit(size: nat, puts: seq<Put>) {
    forall k :: 0 <= k < |puts| ==> Fits(size, puts[k])
  }

  predicate Apart(a: Put, b: Put) {
    a.data == [] || b.data == [] || a.offset + |a.data| <= b.offset || b.offset + |b.data| <= a.offset
  }

  ghost predicate AllApart(puts: seq<Put>) {
    forall j, k :: 0 <= j < k < |puts| ==> Apart(puts[j], puts[k])
  }

  predicate Inside(i: int, p: Put) { p.offset <= i < p.offset + |p.data| }

  predicate InSpan(i: int, s: Span) { s.offset <= i < s.offset + s.length }

  function Apply1(rec: seq<Byte>, p: Put): (r: seq<Byte>)
    requires Fits(|rec|, p)
    ensures |r| == |rec|
    ensures forall i :: 0 <= i < |rec| ==> r[i] == if Inside(i, p) then p.data[i - p.offset] else rec[i]
  {
    rec[..p.offset] + p.data + rec[p.offset + |p.data|..]
  }

  /** A put that finds its own bytes already there. */
  predicate Holds(rec: seq<Byte>, p: Put)
    requires Fits(|rec|, p)
  {
    rec[p.offset..p.offset + |p.data|] == p.data
  }

  lemma Apply1Same(rec: seq<Byte>, p: Put)
    requires Fits(|rec|, p) && Holds(rec, p)
    ensures Apply1(rec, p) == rec
  {
    assert forall i :: Inside(i, p) ==> rec[i] == rec[p.offset..p.offset + |p.data|][i - p.offset];
  }

  lemma EmptyHolds(rec: seq<Byte>, p: Put)
    requires Fits(|rec|, p)
    ensures p.data == [] ==> Holds(rec, p)
  {
  }

  /** The record after the first n puts, in order. */
  function Apply(rec: seq<Byte>, puts: seq<Put>, n: nat): (r: seq<Byte>)
    requires AllFit(|rec|, puts) && n <= |puts|
    ensures |r| == |rec|
  {
    if n == 0 then rec else Apply1(Apply(rec, puts, n - 1), puts[n - 1])
  }

  /** The spans the first n puts changed, in order. */
  function Changed(rec: seq<Byte>, puts: seq<Put>, n: nat): (spans: seq<Span>)
    requires AllFit(|rec|, puts) && n <= |puts|
  {
    if n == 0 then []
    else if Holds(Apply(rec, puts, n - 1), puts[n - 1]) then Changed(rec, puts, n - 1)
    else Changed(rec, puts, n - 1) + [Span(puts[n - 1].offset, |puts[n - 1].data|)]
  }

  lemma ApplyNone(rec: seq<Byte>, puts: seq<Put>)
    requires AllFit(|rec|, puts)
    ensures Apply(rec, puts, 0) == rec && Changed(rec, puts, 0) == []
  {
  }

  /** What the first n puts do depends on them alone. */
  lemma {:induction false} ApplyPrefix(rec: seq<Byte>, a: seq<Put>, b: seq<Put>, n: nat)
    requires AllFit(|rec|, a) && AllFit(|rec|, b) && n <= |a| && n <= |b| && a[..n] == b[..n]
    ensures Apply(rec, a, n) == Apply(rec, b, n) && Changed(rec, a, n) == Changed(rec, b, n)
  {
    hide Apply1, Holds;
    if n > 0 {
      assert a[..n - 1] == a[..n][..n - 1] && b[..n - 1] == b[..n][..n - 1];
      assert a[n - 1] == a[..n][n - 1] && b[n - 1] == b[..n][n - 1];
      ApplyPrefix(rec, a, b, n - 1);
    }
  }

  lemma {:induction false} ApplyOutside(rec: seq<Byte>, puts: seq<Put>, n: nat, i: nat)
    requires AllFit(|rec|, puts) && n <= |puts| && i < |rec|
    requires forall k :: 0 <= k < n ==> !Inside(i, puts[k])
    ensures Apply(rec, puts, n)[i] == rec[i]
  {
    if n > 0 {
      ApplyOutside(rec, puts, n - 1, i);
    }
  }

  /** Puts that keep apart do not disturb one another: each one's bytes are there at the end. */
  lemma {:induction false} ApplyAt(rec: seq<Byte>, puts: seq<Put>, n: nat, k: nat)
    requires AllFit(|rec|, puts) && AllApart(puts) && k < n <= |puts|
    ensures Holds(Apply(rec, puts, n), puts[k])
  {
    var p, last := puts[k], puts[n - 1];
    var after := Apply(rec, puts, n);
    if k < n - 1 {
      ApplyAt(rec, puts, n - 1, k);
      var before := Apply(rec, puts, n - 1);
      assert Apart(p, last);
      forall i | p.offset <= i < p.offset + |p.data|
        ensures after[i] == p.data[i - p.offset]
      {
        assert before[p.offset..p.offset + |p.data|][i - p.offset] == before[i];
      }
    }
  }

  /** A stretch no put touches reads as it did. */
  lemma ApplyKeeps(rec: seq<Byte>, puts: seq<Put>, n: nat, at: nat, len: nat)
    requires AllFit(|rec|, puts) && n <= |puts| && at + len <= |rec|
    requires forall k :: 0 <= k < n ==>
               puts[k].data == [] || puts[k].offset + |puts[k].data| <= at || at + len <= puts[k].offset
    ensures Apply(rec, puts, n)[at..at + len] == rec[at..at + len]
  {
    var after := Apply(rec, puts, n);
    forall i | at <= i < at + len
      ensures after[i] == rec[i]
    {
      ApplyOutside(rec, puts, n, i);
    }
  }

  ghost predicate SpansDisjoint(spans: seq<Span>) {
    forall a, b :: 0 <= a < b < |spans| ==> SpansApart(spans[a], spans[b])
  }

  predicate SpansApart(s: Span, t: Span) { s.offset + s.length <= t.offset || t.offset + t.length <= s.offset }

  ghost predicate SpansFit(size: nat, spans: seq<Span>) {
    forall a :: 0 <= a < |spans| ==> spans[a].length > 0 && spans[a].offset + spans[a].length <= size
  }

  /** The span of some put among the first n. */
  ghost predicate IsPut(s: Span, puts: seq<Put>, n: nat) {
    exists k :: 0 <= k < n <= |puts| && puts[k].data != [] && s == Span(puts[k].offset, |puts[k].data|)
  }

  /** Spans of puts that keep apart are nonempty, inside the record and pairwise disjoint. */
  lemma {:induction false} ChangedDisjoint(rec: seq<Byte>, puts: seq<Put>, n: nat)
    requires AllFit(|rec|, puts) && AllApart(puts) && n <= |puts|
    ensures SpansDisjoint(Changed(rec, puts, n)) && SpansFit(|rec|, Changed(rec, puts, n))
    ensures forall a :: 0 <= a < |Changed(rec, puts, n)| ==> IsPut(Changed(rec, puts, n)[a], puts, n)
  {
    hide Apply, Holds;
    if n > 0 {
      EmptyHolds(Apply(rec, puts, n - 1), puts[n - 1]);
      ChangedDisjoint(rec, puts, n - 1);
      var front, spans := Changed(rec, puts, n - 1), Changed(rec, puts, n);
      forall a | 0 <= a < |front|
        ensures IsPut(front[a], puts, n)
        ensures puts[n - 1].data != [] ==> SpansApart(front[a], Span(puts[n - 1].offset, |puts[n - 1].data|))
      {
        var k :| 0 <= k < n - 1 && puts[k].data != [] && front[a] == Span(puts[k].offset, |puts[k].data|);
        assert Apart(puts[k], puts[n - 1]);
      }
      assert Fits(|rec|, puts[n - 1]);
    }
  }

  ghost predicate Covered(i: int, spans: seq<Span>) {
    exists a :: 0 <= a < |spans| && InSpan(i, spans[a])
  }

  lemma CoveredByBoth(i: int, a: seq<Span>, b: seq<Span>)
    ensures Covered(i, a + b) <==> Covered(i, a) || Covered(i, b)
  {
    if Covered(i, a) {
      var k :| 0 <= k < |a| && InSpan(i, a[k]);
      assert (a + b)[k] == a[k];
    }
    if Covered(i, b) {
      var k :| 0 <= k < |b| && InSpan(i, b[k]);
      assert (a + b)[|a| + k] == b[k];
    }
  }

  /** A byte outside every reported span is the byte that was there. */
  lemma {:induction false} ChangedCovers(rec: seq<Byte>, puts: seq<Put>, n: nat, i: nat)
    requires AllFit(|rec|, puts) && n <= |puts| && i < |rec|
    requires !Covered(i, Changed(rec, puts, n))
    ensures Apply(rec, puts, n)[i] == rec[i]
  {
    hide Covered;
    if n > 0 {
      var before, p := Apply(rec, puts, n - 1), puts[n - 1];
      CoveredByBoth(i, Changed(rec, puts, n - 1), [Span(p.offset, |p.data|)]);
      ChangedCovers(rec, puts, n - 1, i);
      if Holds(before, p) {
        Apply1Same(before, p);
      } else {
        CoveredByOne(i, Span(p.offset, |p.data|));
      }
    }
  }

  lemma CoveredByOne(i: int, s: Span)
    ensures Covered(i, [s]) <==> InSpan(i, s)
  {
    assert InSpan(i, s) ==> InSpan(i, [s][0]);
  }

  /** Puts of what is already there report nothing. */
  lemma {:induction false} ChangedNothing(rec: seq<Byte>, puts: seq<Put>, n: nat)
    requires AllFit(|rec|, puts) && n <= |puts|
    requires forall k :: 0 <= k < n ==> Holds(rec, puts[k])
    ensures Changed(rec, puts, n) == [] && Apply(rec, puts, n) == rec
  {
    hide Apply1, Holds;
    if n > 0 {
      assert Holds(rec, puts[n - 1]);
      ChangedNothing(rec, puts, n - 1);
      Apply1Same(rec, puts[n - 1]);
    }
  }

  /** Writes one section in place and says whether that changed anything. */
  method PutSection(record: array<Byte>, p: Put) returns (changed: bool)
    requires Fits(record.Length, p)
    modifies record
    ensures record[..] == Apply1(old(record[..]), p)
    ensures changed <==> !Holds(old(record[..]), p)
  {
    changed := record[p.offset..p.offset + |p.data|] != p.data;
    assert record[p.offset..p.offset + |p.data|] == record[..][p.offset..p.offset + |p.data|];
    if changed {
      forall i | 0 <= i < |p.data| {
        record[p.offset + i] := p.data[i];
      }
    } else {
      Apply1Same(record[..], p);
    }
  }

  /** Writes the nth put, and appends its span when it changed something. */
  method PutNext(record: array<Byte>, p: Put, spans: seq<Span>, ghost rec: seq<Byte>, ghost puts: seq<Put>, ghost n: nat)
    returns (next: seq<Span>)
    requires record.Length == |rec| && AllFit(|rec|, puts) && n < |puts| && puts[n] == p
    requires record[..] == Apply(rec, puts, n) && spans == Changed(rec, puts, n)
    modifies record
    ensures record[..] == Apply(rec, puts, n + 1) && next == Changed(rec, puts, n + 1)
  {
    var changed := PutSection(record, p);
    next := if changed then spans + [Span(p.offset, |p.data|)] else spans;
  }

  /** Writes puts one after another and returns the spans that changed. */
  method PutAll(record: array<Byte>, puts: seq<Put>) returns (spans: seq<Span>)
    requires AllFit(record.Length, puts)
    modifies record
    ensures record[..] == Apply(old(record[..]), puts, |puts|)
    ensures spans == Changed(old(record[..]), puts, |puts|)
  {
    ghost var rec := record[..];
    spans := [];
    ApplyNone(rec, puts);
    for n := 0 to |puts|
      invariant record[..] == Apply(rec, puts, n) && spans == Changed(rec, puts, n)
    {
      spans := PutNext(record, puts[n], spans, rec, puts, n);
    }
  }

  lemma SkipNext(rec: seq<Byte>, puts: seq<Put>, n: nat)
    requires AllFit(|rec|, puts) && n < |puts| && puts[n].data == []
    ensures Apply(rec, puts, n + 1) == Apply(rec, puts, n) && Changed(rec, puts, n + 1) == Changed(rec, puts, n)
  {
  }
}

/**
 The usages a HID interface is told apart by: the top-level collections of its report descriptor
 (sections 6.2.2.2 and 6.2.2.3 of USB HID 1.11), however much of it is there.
 */
module HidUsages {
  import opened Bytes
  import opened HidDescriptor
  import HidFields

  datatype Usage = Usage(page: U16, usage: U16)

  /** What the walk keeps between items. */
  datatype Walk = Walk(found: seq<Usage>, page: U16, usage: U16, haveUsage: bool, depth: nat)

  const AT_START := Walk([], 0, 0, false, 0)

  const USAGE_PAGE := 0x04
  const USAGE := 0x08
  const COLLECTION := 0xa0
  const END_COLLECTION := 0xc0

  /** One short item: its kind is the prefix without the size bits. Only the first usage names a collection. */
  function Take(w: Walk, prefix: Byte, data: seq<Byte>): Walk {
    var kind, value := prefix / 4 * 4, Unsigned(data);
    if kind == USAGE_PAGE then w.(page := Low16(value))
    else if kind == USAGE then
      if w.depth != 0 || w.haveUsage then w
      else w.(page := if |data| == 4 then Low16(value / 0x1_0000) else w.page, usage := Low16(value), haveUsage := true)
    else if kind == COLLECTION then
      w.(found := if w.depth == 0 then w.found + [Usage(w.page, w.usage)] else w.found, depth := w.depth + 1, haveUsage := false)
    else if kind == END_COLLECTION then w.(depth := if w.depth > 0 then w.depth - 1 else 0, haveUsage := false)
    else w
  }

  /** The walk from byte i on; an item that is cut off ends it. */
  function WalkFrom(d: seq<Byte>, i: nat, w: Walk): seq<Usage>
    decreases |d| - i
  {
    if i >= |d| then w.found
    else if d[i] == LONG_ITEM then
      if i + 1 >= |d| then w.found else WalkFrom(d, i + 3 + d[i + 1], w)
    else if i + 1 + DataLen(d[i]) > |d| then w.found
    else WalkFrom(d, i + 1 + DataLen(d[i]), Take(w, d[i], d[i + 1..i + 1 + DataLen(d[i])]))
  }

  function UsagesOf(d: seq<Byte>): seq<Usage> { WalkFrom(d, 0, AT_START) }

  method TopLevelUsages(descriptor: seq<Byte>) returns (usages: seq<Usage>)
    ensures usages == UsagesOf(descriptor)
  {
    var w := AT_START;
    var i := 0;
    while i < |descriptor|
      invariant 0 <= i && WalkFrom(descriptor, i, w) == UsagesOf(descriptor)
      decreases |descriptor| - i
    {
      var prefix := descriptor[i];
      if prefix == LONG_ITEM {
        if i + 1 >= |descriptor| { break; }
        i := i + 3 + descriptor[i + 1];
        continue;
      }
      var size := DataLen(prefix);
      if i + 1 + size > |descriptor| { break; }
      w := Take(w, prefix, descriptor[i + 1..i + 1 + size]);
      i := i + 1 + size;
    }
    return w.found;
  }

  /** What has been found stays found. */
  lemma {:induction false} WalkGrows(d: seq<Byte>, i: nat, w: Walk)
    ensures w.found <= WalkFrom(d, i, w)
    decreases |d| - i
  {
    hide Unsigned;
    if i >= |d| {
    } else if d[i] == LONG_ITEM {
      if i + 1 < |d| {
        WalkGrows(d, i + 3 + d[i + 1], w);
      }
    } else if i + 1 + DataLen(d[i]) <= |d| {
      WalkGrows(d, i + 1 + DataLen(d[i]), Take(w, d[i], d[i + 1..i + 1 + DataLen(d[i])]));
    }
  }

  lemma {:induction false} CutWalk(d: seq<Byte>, n: nat, i: nat, w: Walk)
    requires n <= |d|
    ensures WalkFrom(d[..n], i, w) <= WalkFrom(d, i, w)
    decreases n - i
  {
    hide Take, DataLen;
    var cut := d[..n];
    assert i < n ==> cut[i] == d[i];
    if i >= n {
      WalkGrows(d, i, w);
    } else if d[i] == LONG_ITEM {
      if i + 1 < n {
        CutWalk(d, n, i + 3 + d[i + 1], w);
      } else {
        WalkGrows(d, i, w);
      }
    } else if i + 1 + DataLen(d[i]) <= n {
      assert cut[i + 1..i + 1 + DataLen(d[i])] == d[i + 1..i + 1 + DataLen(d[i])];
      CutWalk(d, n, i + 1 + DataLen(d[i]), Take(w, d[i], d[i + 1..i + 1 + DataLen(d[i])]));
    } else {
      WalkGrows(d, i, w);
    }
  }

  /** Cutting a descriptor off anywhere loses only usages declared after the cut, and adds or changes none. */
  lemma TruncationSafe(d: seq<Byte>, n: nat)
    requires n <= |d|
    ensures UsagesOf(d[..n]) <= UsagesOf(d)
  {
    CutWalk(d, n, 0, AT_START);
  }

  // ---- What the usages are

  type Token = HidFields.Token

  /** The short items from byte i on, up to one that is cut off. */
  function TokensUpTo(d: seq<Byte>, i: nat): (tokens: seq<Token>)
    decreases |d| - i
  {
    if i >= |d| then []
    else if d[i] == LONG_ITEM then
      if i + 1 >= |d| then [] else TokensUpTo(d, i + 3 + d[i + 1])
    else if i + 1 + DataLen(d[i]) > |d| then []
    else [HidFields.Token(d[i], d[i + 1..i + 1 + DataLen(d[i])])] + TokensUpTo(d, i + 1 + DataLen(d[i]))
  }

  predicate Opens(t: Token) { t.item / 4 == HidFields.COLLECTION }
  predicate Closes(t: Token) { t.item / 4 == HidFields.END_COLLECTION }

  /** How many collections are open after some items. */
  function Depth(tokens: seq<Token>): nat {
    if tokens == [] then 0
    else
      var d, last := Depth(tokens[..|tokens| - 1]), tokens[|tokens| - 1];
      if Opens(last) then d + 1 else if Closes(last) && d > 0 then d - 1 else d
  }

  /** A usage was given since a collection was last opened or closed. */
  predicate UsageGiven(tokens: seq<Token>) {
    && tokens != [] && !Opens(tokens[|tokens| - 1]) && !Closes(tokens[|tokens| - 1])
    && (tokens[|tokens| - 1].item / 4 == HidFields.USAGE || UsageGiven(tokens[..|tokens| - 1]))
  }

  /** A usage after some items names the next collection: the first given for it, outside of any. */
  predicate Naming(before: seq<Token>, t: Token) {
    t.item / 4 == HidFields.USAGE && Depth(before) == 0 && !UsageGiven(before)
  }

  /** The usage that was last given to name a collection. */
  function NameInForce(tokens: seq<Token>): nat {
    if tokens == [] then 0
    else
      var front, last := tokens[..|tokens| - 1], tokens[|tokens| - 1];
      if Naming(front, last) then Unsigned(last.data) % 0x1_0000 else NameInForce(front)
  }

  /** The page last set, by itself or by a naming usage of four bytes. */
  function PageInForce(tokens: seq<Token>): nat {
    if tokens == [] then 0
    else
      var front, last := tokens[..|tokens| - 1], tokens[|tokens| - 1];
      if last.item / 4 == HidFields.USAGE_PAGE then Unsigned(last.data) % 0x1_0000
      else if Naming(front, last) && |last.data| == 4 then Unsigned(last.data) / 0x1_0000 % 0x1_0000
      else PageInForce(front)
  }

  /** Which items open a collection outside of any. */
  function TopLevel(tokens: seq<Token>): (at: seq<nat>)
    ensures forall j :: 0 <= j < |at| ==> at[j] < |tokens|
  {
    if tokens == [] then []
    else
      var front := tokens[..|tokens| - 1];
      TopLevel(front) + if Opens(tokens[|front|]) && Depth(front) == 0 then [|front|] else []
  }

  /** Each top-level collection is told by the page and the name in force where it is opened. */
  ghost predicate Told(found: seq<Usage>, tokens: seq<Token>) {
    && |found| == |TopLevel(tokens)|
    && forall j :: 0 <= j < |found| ==> ToldAt(found[j], tokens, TopLevel(tokens)[j])
  }

  ghost predicate ToldAt(u: Usage, tokens: seq<Token>, at: nat) {
    at < |tokens| && u.page as int == PageInForce(tokens[..at]) && u.usage as int == NameInForce(tokens[..at])
  }

  /** What the walk keeps is what is in force. */
  ghost predicate InForce(w: Walk, tokens: seq<Token>) {
    && w.depth == Depth(tokens) && w.page as int == PageInForce(tokens) && w.usage as int == NameInForce(tokens)
    && (w.depth == 0 ==> (w.haveUsage <==> UsageGiven(tokens)))
  }

  /** One more item. */
  lemma OneMore(tokens: seq<Token>, t: Token)
    ensures Depth(tokens + [t]) == var d := Depth(tokens); if Opens(t) then d + 1 else if Closes(t) && d > 0 then d - 1 else d
    ensures UsageGiven(tokens + [t]) <==> !Opens(t) && !Closes(t) && (t.item / 4 == HidFields.USAGE || UsageGiven(tokens))
    ensures NameInForce(tokens + [t]) == if Naming(tokens, t) then Unsigned(t.data) % 0x1_0000 else NameInForce(tokens)
    ensures PageInForce(tokens + [t]) ==
            if t.item / 4 == HidFields.USAGE_PAGE then Unsigned(t.data) % 0x1_0000
            else if Naming(tokens, t) && |t.data| == 4 then Unsigned(t.data) / 0x1_0000 % 0x1_0000
            else PageInForce(tokens)
    ensures TopLevel(tokens + [t]) == TopLevel(tokens) + if Opens(t) && Depth(tokens) == 0 then [|tokens|] else []
  {
    assert (tokens + [t])[..|tokens|] == tokens;
    hide Naming, Unsigned;
  }

  /** What one item does to the walk. */
  lemma TakeMeans(w: Walk, t: Token)
    ensures var next, names := Take(w, t.item, t.data), t.item / 4 == HidFields.USAGE && w.depth == 0 && !w.haveUsage;
            && next.found == w.found + (if Opens(t) && w.depth == 0 then [Usage(w.page, w.usage)] else [])
            && next.depth == (if Opens(t) then w.depth + 1 else if Closes(t) && w.depth > 0 then w.depth - 1 else w.depth)
            && next.usage == (if names then Low16(Unsigned(t.data)) else w.usage)
            && next.page == (if t.item / 4 == HidFields.USAGE_PAGE then Low16(Unsigned(t.data))
                             else if names && |t.data| == 4 then Low16(Unsigned(t.data) / 0x1_0000) else w.page)
            && next.haveUsage == (!Opens(t) && !Closes(t) && (w.haveUsage || names))
  {
    assert t.item / 4 * 4 == USAGE_PAGE <==> t.item / 4 == HidFields.USAGE_PAGE;
    assert t.item / 4 * 4 == USAGE <==> t.item / 4 == HidFields.USAGE;
    assert t.item / 4 * 4 == COLLECTION <==> Opens(t);
    assert t.item / 4 * 4 == END_COLLECTION <==> Closes(t);
    hide Unsigned, Low16;
  }

  lemma TakeInForce(w: Walk, tokens: seq<Token>, t: Token)
    requires InForce(w, tokens)
    ensures InForce(Take(w, t.item, t.data), tokens + [t])
    ensures TopLevel(tokens + [t]) == TopLevel(tokens) + if Opens(t) && Depth(tokens) == 0 then [|tokens|] else []
    ensures Take(w, t.item, t.data).found
         == w.found + if Opens(t) && Depth(tokens) == 0 then [Usage(w.page, w.usage)] else []
  {
    OneMore(tokens, t);
    TakeMeans(w, t);
    hide Take, Unsigned, Depth, UsageGiven, NameInForce, PageInForce, TopLevel;
  }

  lemma TakeTold(w: Walk, tokens: seq<Token>, t: Token)
    requires InForce(w, tokens) && Told(w.found, tokens)
    ensures InForce(Take(w, t.item, t.data), tokens + [t]) && Told(Take(w, t.item, t.data).found, tokens + [t])
  {
    TakeInForce(w, tokens, t);
    hide Take, TopLevel, PageInForce, NameInForce, Opens;
    var all := tokens + [t];
    forall j | 0 <= j < |TopLevel(all)|
      ensures ToldAt(Take(w, t.item, t.data).found[j], all, TopLevel(all)[j])
    {
      if j < |w.found| {
        assert ToldAt(w.found[j], tokens, TopLevel(tokens)[j]);
        assert all[..TopLevel(tokens)[j]] == tokens[..TopLevel(tokens)[j]];
      } else {
        assert all[..|tokens|] == tokens;
      }
    }
  }

  lemma {:induction false} WalkTold(d: seq<Byte>, i: nat, w: Walk, tokens: seq<Token>)
    requires InForce(w, tokens) && Told(w.found, tokens)
    ensures Told(WalkFrom(d, i, w), tokens + TokensUpTo(d, i))
    decreases |d| - i
  {
    hide Take, Told, InForce;
    if i >= |d| {
      assert tokens + [] == tokens;
    } else if d[i] == LONG_ITEM {
      if i + 1 < |d| {
        WalkTold(d, i + 3 + d[i + 1], w, tokens);
      } else {
        assert tokens + [] == tokens;
      }
    } else {
      var n := DataLen(d[i]);
      if i + 1 + n <= |d| {
        var t := HidFields.Token(d[i], d[i + 1..i + 1 + n]);
        TakeTold(w, tokens, t);
        WalkTold(d, i + 1 + n, Take(w, t.item, t.data), tokens + [t]);
        assert tokens + [t] + TokensUpTo(d, i + 1 + n) == tokens + ([t] + TokensUpTo(d, i + 1 + n));
      } else {
        assert tokens + [] == tokens;
      }
    }
  }

  /**
   The usages found are those of the top-level collections, in order: each the page and the name in
   force where it is opened. A collection that is given no usage has the name of the one before.
   */
  lemma UsagesTold(d: seq<Byte>)
    ensures Told(UsagesOf(d), TokensUpTo(d, 0))
  {
    WalkTold(d, 0, AT_START, []);
    assert [] + TokensUpTo(d, 0) == TokensUpTo(d, 0);
  }
}

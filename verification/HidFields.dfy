/**
 What each Input field of a report descriptor says, read off the descriptor's items (section 6.2.2 of
 USB HID 1.11): a global item holds until the next of its kind, a local one until the next main item.
 */
module HidFields {
  import opened Bytes
  import opened HidDescriptor

  /** A short item: its byte, and the data that follows it. */
  datatype Token = Token(item: Byte, data: seq<Byte>)

  // A short item's byte but for the two bits that say how much data it has.
  const USAGE_PAGE: nat := 0x01
  const LOGICAL_MIN: nat := 0x05
  const LOGICAL_MAX: nat := 0x09
  const REPORT_SIZE: nat := 0x1d
  const REPORT_ID: nat := 0x21
  const REPORT_COUNT: nat := 0x25
  const USAGE: nat := 0x02
  const USAGE_MIN: nat := 0x06
  const USAGE_MAX: nat := 0x0a
  const INPUT: nat := 0x20
  const OUTPUT: nat := 0x24
  const COLLECTION: nat := 0x28
  const FEATURE: nat := 0x2c
  const END_COLLECTION: nat := 0x30

  /** The short items from byte i on, or None where one is cut off. */
  function TokensFrom(desc: seq<Byte>, i: nat): (tokens: Option<seq<Token>>)
    decreases |desc| - i
  {
    if i >= |desc| then Some([])
    else if desc[i] == LONG_ITEM then
      if i + 1 >= |desc| then None else TokensFrom(desc, i + 3 + desc[i + 1])
    else if i + 1 + DataLen(desc[i]) > |desc| then None
    else
      match TokensFrom(desc, i + 1 + DataLen(desc[i]))
      case None => None
      case Some(rest) => Some([Token(desc[i], desc[i + 1..i + 1 + DataLen(desc[i])])] + rest)
  }

  // ---- What is in force after some items

  /** The data of the last item of a kind, if there is any. */
  function Last(tokens: seq<Token>, kind: nat): (data: Option<seq<Byte>>)
  {
    if tokens == [] then None
    else if tokens[|tokens| - 1].item / 4 == kind then Some(tokens[|tokens| - 1].data)
    else Last(tokens[..|tokens| - 1], kind)
  }

  /** The items since the last main item that ends what local items say. */
  function Local(tokens: seq<Token>): (recent: seq<Token>)
  {
    if tokens == [] || Ends(tokens[|tokens| - 1]) then []
    else Local(tokens[..|tokens| - 1]) + [tokens[|tokens| - 1]]
  }

  predicate Ends(t: Token) { t.item / 4 in {INPUT, OUTPUT, FEATURE, COLLECTION, END_COLLECTION} }

  /** The number an item gave, zero without one. */
  function Number(data: Option<seq<Byte>>): nat { if data.Some? then Unsigned(data.value) else 0 }

  function SignedNumber(data: Option<seq<Byte>>): int { if data.Some? then Signed(data.value) else 0 }

  /** The usages listed one by one. */
  function Listed(tokens: seq<Token>): (usages: seq<U16>) {
    if tokens == [] then []
    else Listed(tokens[..|tokens| - 1])
         + if tokens[|tokens| - 1].item / 4 == USAGE then [Low16(Unsigned(tokens[|tokens| - 1].data))] else []
  }

  /** A usage range was given, and has one usage for each of so many slots. */
  predicate OneEach(tokens: seq<Token>, count: nat) {
    && (Last(tokens, USAGE_MIN).Some? || Last(tokens, USAGE_MAX).Some?)
    && (Number(Last(tokens, USAGE_MAX)) - Number(Last(tokens, USAGE_MIN))) % 0x1_0000 + 1 == count
  }

  /**
   The nth field of an Input item with these flags, after these items, says this. A variable item's
   fields take one usage each: the next of its range if that has as many, or else the next of those
   listed, the last of them over and over when they run out, the page when there are none. An array's
   one field spans its range or its one usage.
   */
  predicate Describes(f: Field, before: seq<Token>, flags: nat, n: nat) {
    var local := Local(before);
    var usages, low, high := Listed(local), Number(Last(local, USAGE_MIN)), Number(Last(local, USAGE_MAX));
    && f.reportID as int == Number(Last(before, REPORT_ID)) % 256
    && f.usagePage as int == Number(Last(before, USAGE_PAGE)) % 0x1_0000
    && f.logicalMin == SignedNumber(Last(before, LOGICAL_MIN)) && f.logicalMax == SignedNumber(Last(before, LOGICAL_MAX))
    && f.bitSize == Number(Last(before, REPORT_SIZE))
    && f.isConstant == (flags % 2 == 1) && f.isArray == (flags / 2 % 2 == 0)
    && (f.isArray ==>
          && f.count == Number(Last(before, REPORT_COUNT)) && f.usage == 0
          && (Last(local, USAGE_MIN).None? && Last(local, USAGE_MAX).None? && usages != [] ==> f.usageMin == f.usageMax == usages[0])
          && (Last(local, USAGE_MIN).Some? || Last(local, USAGE_MAX).Some? || usages == [] ==>
                f.usageMin as int == low % 0x1_0000 && f.usageMax as int == high % 0x1_0000))
    && (!f.isArray ==>
          && f.count == 1 && f.usage == f.usageMin == f.usageMax
          && if OneEach(local, Number(Last(before, REPORT_COUNT))) then f.usage as int == (low + n) % 0x1_0000
             else if usages == [] then f.usage == f.usagePage
             else f.usage == usages[Min(n, |usages| - 1)])
  }

  /** A field's item, counted from the first, and which of the item's fields it is. */
  datatype Slot = Slot(item: nat, n: nat)

  /** The fields of Input items, in the order of the items: one for an array, otherwise one for each slot. */
  function Slots(tokens: seq<Token>): (slots: seq<Slot>)
    ensures forall j :: 0 <= j < |slots| ==> slots[j].item < |tokens|
  {
    if tokens == [] then []
    else
      var at := |tokens| - 1;
      var front := tokens[..at];
      if tokens[at].item / 4 != INPUT then Slots(front)
      else if Unsigned(tokens[at].data) / 2 % 2 == 0 then Slots(front) + [Slot(at, 0)]
      else
        var count := Number(Last(front, REPORT_COUNT));
        Slots(front) + seq(count, n requires 0 <= n < count => Slot(at, n))
  }

  /** Fields say what the items say, one by one. */
  ghost predicate AllDescribed(fields: seq<Field>, tokens: seq<Token>) {
    && |fields| == |Slots(tokens)|
    && forall j :: 0 <= j < |fields| ==> DescribedAt(fields[j], tokens, Slots(tokens)[j])
  }

  ghost predicate DescribedAt(f: Field, tokens: seq<Token>, s: Slot) {
    s.item < |tokens| && Describes(f, tokens[..s.item], Unsigned(tokens[s.item].data), s.n)
  }

  // ---- The parser keeps what is in force

  /** The parser's state after some items. */
  ghost predicate Keeps(st: State, tokens: seq<Token>) {
    && KeepsGlobals(st, tokens) && KeepsLocals(st, Local(tokens))
  }

  ghost predicate KeepsGlobals(st: State, tokens: seq<Token>) {
    && st.reportID as int == Number(Last(tokens, REPORT_ID)) % 256
    && st.usagePage as int == Number(Last(tokens, USAGE_PAGE)) % 0x1_0000
    && st.logicalMin == SignedNumber(Last(tokens, LOGICAL_MIN)) && st.logicalMax == SignedNumber(Last(tokens, LOGICAL_MAX))
    && st.reportSize == Number(Last(tokens, REPORT_SIZE)) && st.reportCount == Number(Last(tokens, REPORT_COUNT))
  }

  ghost predicate KeepsLocals(st: State, local: seq<Token>) {
    && st.usages == Listed(local)
    && st.usageMin as int == Number(Last(local, USAGE_MIN)) % 0x1_0000
    && st.usageMax as int == Number(Last(local, USAGE_MAX)) % 0x1_0000
    && (st.haveRange <==> Last(local, USAGE_MIN).Some? || Last(local, USAGE_MAX).Some?)
  }

  lemma LastMore(tokens: seq<Token>, t: Token, kind: nat)
    ensures Last(tokens + [t], kind) == if t.item / 4 == kind then Some(t.data) else Last(tokens, kind)
  {
    assert (tokens + [t])[..|tokens|] == tokens;
  }

  lemma ListedMore(tokens: seq<Token>, t: Token)
    ensures Listed(tokens + [t]) == Listed(tokens) + if t.item / 4 == USAGE then [Low16(Unsigned(t.data))] else []
  {
    assert (tokens + [t])[..|tokens|] == tokens;
  }

  lemma LocalMore(tokens: seq<Token>, t: Token)
    ensures Local(tokens + [t]) == if Ends(t) then [] else Local(tokens) + [t]
  {
    assert (tokens + [t])[..|tokens|] == tokens;
  }

  lemma GlobalsKept(st: State, tokens: seq<Token>, t: Token)
    requires KeepsGlobals(st, tokens)
    ensures KeepsGlobals(Item(st, t.item, t.data), tokens + [t])
  {
    LastMore(tokens, t, REPORT_ID);
    LastMore(tokens, t, USAGE_PAGE);
    LastMore(tokens, t, LOGICAL_MIN);
    LastMore(tokens, t, LOGICAL_MAX);
    LastMore(tokens, t, REPORT_SIZE);
    LastMore(tokens, t, REPORT_COUNT);
    hide Last, Unsigned, Signed, InputFields, StartOf;
    assert t.item / 4 == t.item / 16 * 4 + t.item / 4 % 4;
  }

  /** What one short item does to what local items said. */
  lemma ItemLocals(st: State, t: Token)
    ensures var next, v, kind := Item(st, t.item, t.data), Low16(Unsigned(t.data)), t.item / 4;
            if Ends(t) then next.usages == [] && next.usageMin == 0 && next.usageMax == 0 && !next.haveRange
            else
              && next.usages == (if kind == USAGE then st.usages + [v] else st.usages)
              && next.usageMin == (if kind == USAGE_MIN then v else st.usageMin)
              && next.usageMax == (if kind == USAGE_MAX then v else st.usageMax)
              && (next.haveRange <==> st.haveRange || kind == USAGE_MIN || kind == USAGE_MAX)
  {
    hide Unsigned, Signed, InputFields, StartOf, Low16;
    assert t.item / 4 == t.item / 16 * 4 + t.item / 4 % 4;
  }

  lemma LocalsKept(st: State, tokens: seq<Token>, t: Token)
    requires KeepsLocals(st, Local(tokens))
    ensures KeepsLocals(Item(st, t.item, t.data), Local(tokens + [t]))
  {
    var local := Local(tokens);
    LocalMore(tokens, t);
    ItemLocals(st, t);
    if Ends(t) {
      assert Listed([]) == [] && Last([], USAGE_MIN).None? && Last([], USAGE_MAX).None?;
    } else {
      LastMore(local, t, USAGE_MIN);
      LastMore(local, t, USAGE_MAX);
      ListedMore(local, t);
      hide Local, Last, Listed, Unsigned, Item, Ends;
    }
  }

  /** An Input item's fields are the ones it describes. */
  lemma InputDescribed(st: State, before: seq<Token>, flags: nat, n: nat)
    requires Keeps(st, before) && n < |InputFields(st, flags)|
    ensures Describes(InputFields(st, flags)[n], before, flags, n)
  {
    hide Last, Listed, Local, Unsigned, Signed, StartOf, Wrap;
    var f := InputFields(st, flags)[n];
    if flags / 2 % 2 == 0 {
      assert f == ArrayField(st, flags % 2 == 1);
    } else {
      assert f == VariableField(st, flags % 2 == 1, n);
      RangeMeans(st, Local(before), Number(Last(before, REPORT_COUNT)));
      AddLow(Number(Last(Local(before), USAGE_MIN)), n);
    }
  }

  lemma RangeMeans(st: State, local: seq<Token>, count: nat)
    requires KeepsLocals(st, local) && st.reportCount == count
    ensures RangeFits(st) <==> OneEach(local, count)
  {
    hide Last, Listed;
    SubLow(Number(Last(local, USAGE_MAX)), Number(Last(local, USAGE_MIN)));
  }

  lemma SubLow(a: nat, b: nat)
    ensures (a % 0x1_0000 - b % 0x1_0000) % 0x1_0000 == (a - b) % 0x1_0000
  {
  }

  lemma AddLow(a: nat, n: nat)
    ensures (a % 0x1_0000 + n) % 0x1_0000 == (a + n) % 0x1_0000
  {
  }

  lemma SlotsMore(tokens: seq<Token>, t: Token, st: State)
    requires Keeps(st, tokens)
    ensures t.item / 4 != INPUT ==> Slots(tokens + [t]) == Slots(tokens)
    ensures t.item / 4 == INPUT ==>
              var flags := Unsigned(t.data);
              var count := if flags / 2 % 2 == 0 then 1 else st.reportCount;
              count == |InputFields(st, flags)|
              && Slots(tokens + [t]) == Slots(tokens) + seq(count, n requires 0 <= n < count => Slot(|tokens|, n))
  {
    hide Last, KeepsLocals, Unsigned;
    assert (tokens + [t])[..|tokens|] == tokens;
  }

  lemma StillDescribed(f: Field, tokens: seq<Token>, t: Token, s: Slot)
    requires DescribedAt(f, tokens, s)
    ensures DescribedAt(f, tokens + [t], s)
  {
    hide Describes;
    assert (tokens + [t])[..s.item] == tokens[..s.item];
  }

  lemma ItemDescribed(st: State, tokens: seq<Token>, t: Token)
    requires Keeps(st, tokens) && AllDescribed(st.fields, tokens)
    ensures Keeps(Item(st, t.item, t.data), tokens + [t]) && AllDescribed(Item(st, t.item, t.data).fields, tokens + [t])
  {
    hide Item, Slots, Describes, KeepsGlobals, KeepsLocals, Unsigned, AllDescribed, Input;
    GlobalsKept(st, tokens, t);
    LocalsKept(st, tokens, t);
    ItemGlobals(st, t.item, t.data);
    if t.item / 4 == INPUT {
      MoreDescribed(st, tokens, t);
    } else {
      SlotsMore(tokens, t, st);
      OldDescribed(st.fields, tokens, t);
    }
  }

  lemma OldDescribed(fields: seq<Field>, tokens: seq<Token>, t: Token)
    requires AllDescribed(fields, tokens) && Slots(tokens + [t]) == Slots(tokens)
    ensures AllDescribed(fields, tokens + [t])
  {
    hide Slots, DescribedAt;
    forall j | 0 <= j < |fields|
      ensures DescribedAt(fields[j], tokens + [t], Slots(tokens)[j])
    {
      StillDescribed(fields[j], tokens, t, Slots(tokens)[j]);
    }
  }

  lemma MoreDescribed(st: State, tokens: seq<Token>, t: Token)
    requires Keeps(st, tokens) && AllDescribed(st.fields, tokens) && t.item / 4 == INPUT
    ensures AllDescribed(Input(st, Unsigned(t.data)).fields, tokens + [t])
  {
    hide Slots, Describes, Keeps, Unsigned, InputFields;
    SlotsMore(tokens, t, st);
    var fields, more, slots := st.fields, InputFields(st, Unsigned(t.data)), Slots(tokens + [t]);
    forall j | 0 <= j < |slots|
      ensures DescribedAt((fields + more)[j], tokens + [t], slots[j])
    {
      if j < |fields| {
        StillDescribed(fields[j], tokens, t, slots[j]);
      } else {
        InputDescribed(st, tokens, Unsigned(t.data), j - |fields|);
        assert slots[j] == Slot(|tokens|, j - |fields|) && (tokens + [t])[..|tokens|] == tokens;
      }
    }
  }

  lemma {:induction false} ParseDescribed(desc: seq<Byte>, i: nat, st: State, tokens: seq<Token>)
    requires Keeps(st, tokens) && AllDescribed(st.fields, tokens)
    ensures ParseFrom(desc, i, st).Ok? <==> TokensFrom(desc, i).Some?
    ensures TokensFrom(desc, i).Some? ==> AllDescribed(ParseFrom(desc, i, st).value, tokens + TokensFrom(desc, i).value)
    decreases |desc| - i
  {
    hide Item, AllDescribed, Keeps;
    if i >= |desc| {
      assert tokens + [] == tokens;
    } else if desc[i] == LONG_ITEM {
      if i + 1 < |desc| { ParseDescribed(desc, i + 3 + desc[i + 1], st, tokens); }
    } else {
      var n := DataLen(desc[i]);
      if i + 1 + n <= |desc| {
        var t := Token(desc[i], desc[i + 1..i + 1 + n]);
        ItemDescribed(st, tokens, t);
        ParseDescribed(desc, i + 1 + n, Item(st, t.item, t.data), tokens + [t]);
        var rest := TokensFrom(desc, i + 1 + n);
        if rest.Some? { assert tokens + [t] + rest.value == tokens + ([t] + rest.value); }
      }
    }
  }

  /**
   A descriptor is refused exactly when an item is cut off. Otherwise its fields are those its Input
   items declare, in order, each saying what is in force where its item stands.
   */
  lemma FieldsDescribed(desc: seq<Byte>)
    ensures ParseFrom(desc, 0, START).Ok? <==> TokensFrom(desc, 0).Some?
    ensures TokensFrom(desc, 0).Some? ==> AllDescribed(ParseFrom(desc, 0, START).value, TokensFrom(desc, 0).value)
  {
    ParseDescribed(desc, 0, START, []);
    if TokensFrom(desc, 0).Some? { assert [] + TokensFrom(desc, 0).value == TokensFrom(desc, 0).value; }
  }

  // ---- Numbers

  /** An item's data is a number, low byte first. */
  lemma LittleEndian(a: Byte, b: Byte, c: Byte, d: Byte)
    ensures Unsigned([]) == 0 && Unsigned([a]) == a as int && Unsigned([a, b]) == a as int + 0x100 * b
    ensures Unsigned([a, b, c, d]) == a as int + 0x100 * b + 0x1_0000 * c + 0x100_0000 * d
  {
    assert [a][1..] == [] && [a, b][1..] == [b] && [b][1..] == [];
    assert [d][1..] == [] && Unsigned([d]) == d as int;
    assert [c, d][1..] == [d] && Unsigned([c, d]) == c as int + 0x100 * d;
    assert [b, c, d][1..] == [c, d] && Unsigned([b, c, d]) == b as int + 0x100 * c + 0x1_0000 * d;
    assert [a, b, c, d][1..] == [b, c, d];
  }

  /** Logical limits are in two's complement over as many bits as the item has. */
  lemma TwosComplement(data: seq<Byte>, half: nat)
    requires |data| in {1, 2, 4}
    requires half == if |data| == 1 then 0x80 else if |data| == 2 then 0x8000 else 0x8000_0000
    ensures Unsigned(data) < 2 * half
    ensures 0 - half <= Signed(data) < half && (Signed(data) == Unsigned(data) || Signed(data) == Unsigned(data) - 2 * half)
  {
    var pad: Byte := 0;
    if |data| == 1 {
      assert data == [data[0]];
      LittleEndian(data[0], pad, pad, pad);
    } else if |data| == 2 {
      assert data == [data[0], data[1]];
      LittleEndian(data[0], data[1], pad, pad);
    } else {
      assert data == [data[0], data[1], data[2], data[3]];
      LittleEndian(data[0], data[1], data[2], data[3]);
    }
    hide Unsigned;
  }
}

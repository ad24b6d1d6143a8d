/**
 The HID report-descriptor parser (section 6.2.2 of USB HID 1.11): where each Input field of a report
 is, and that no two of them share a bit.
 */
module HidDescriptor {
  import opened Bytes

  const INT64: int := 0x1_0000_0000_0000_0000
  const INT63: int := 0x8000_0000_0000_0000

  /** What Go's int keeps of a sum. */
  function Wrap(v: int): (w: int)
    ensures -INT63 <= w < INT63
    ensures -INT63 <= v < INT63 ==> w == v
  {
    (v + INT63) % INT64 - INT63
  }

  datatype Field = Field(
    reportID: Byte, usagePage: U16, usage: U16, usageMin: U16, usageMax: U16,
    bitOffset: int, bitSize: nat, count: nat, logicalMin: int, logicalMax: int, isArray: bool, isConstant: bool)
  {
    function Width(): nat { bitSize * count }
  }

  /** Everything the parser keeps between items. */
  datatype State = State(
    usagePage: U16, logicalMin: int, logicalMax: int, reportSize: nat, reportCount: nat, reportID: Byte,
    usages: seq<U16>, usageMin: U16, usageMax: U16, haveRange: bool,
    bitOffsets: map<Byte, int>, fields: seq<Field>)

  const START := State(0, 0, 0, 0, 0, 0, [], 0, 0, false, map[], [])

  function ResetLocal(st: State): State { st.(usages := [], usageMin := 0, usageMax := 0, haveRange := false) }

  // ---- Items

  function Unsigned(data: seq<Byte>): (v: nat)
    decreases |data|
  {
    if data == [] then 0 else data[0] as int + 256 * Unsigned(data[1..])
  }

  /** One and two data bytes are sign-extended; any other length is taken as thirty-two bits. */
  function Signed(data: seq<Byte>): int {
    var v := Unsigned(data);
    if |data| == 1 then (if v >= 0x80 then v - 0x100 else v)
    else if |data| == 2 then (if v >= 0x8000 then v - 0x1_0000 else v)
    else if v >= 0x8000_0000 then v - 0x1_0000_0000 else v
  }

  const LONG_ITEM: Byte := 0xfe

  function DataLen(item: Byte): nat { if item % 4 == 3 then 4 else item % 4 }

  /** Where a report's next field starts: a numbered report's first follows its one-byte id. */
  function StartOf(st: State): int {
    var at := if st.reportID in st.bitOffsets then st.bitOffsets[st.reportID] else 0;
    if st.reportID != 0 && at == 0 then 8 else at
  }

  /** The usage of the nth slot of a variable Input item. */
  function UsageAt(st: State, idx: nat): U16 {
    if RangeFits(st) then Low16(st.usageMin as int + idx)
    else if idx < |st.usages| then st.usages[idx]
    else if st.usages != [] then st.usages[|st.usages| - 1]
    else st.usagePage
  }

  /** A declared usage range with one usage per slot. */
  predicate RangeFits(st: State) {
    st.haveRange && Low16(st.usageMax as int - st.usageMin as int) as int + 1 == st.reportCount
  }

  function ArrayField(st: State, constant: bool): Field {
    var one := !st.haveRange && st.usages != [];
    Field(st.reportID, st.usagePage, 0, if one then st.usages[0] else st.usageMin, if one then st.usages[0] else st.usageMax,
          StartOf(st), st.reportSize, st.reportCount, st.logicalMin, st.logicalMax, true, constant)
  }

  function VariableField(st: State, constant: bool, idx: nat): Field {
    var usage := UsageAt(st, idx);
    Field(st.reportID, st.usagePage, usage, usage, usage, Wrap(StartOf(st) + idx * st.reportSize),
          st.reportSize, 1, st.logicalMin, st.logicalMax, false, constant)
  }

  /** The fields an Input item declares. */
  function InputFields(st: State, flags: nat): (fields: seq<Field>) {
    var constant := flags % 2 == 1;
    if flags / 2 % 2 == 0 then [ArrayField(st, constant)]
    else seq(st.reportCount, idx requires 0 <= idx < st.reportCount => VariableField(st, constant, idx))
  }

  function Input(st: State, flags: nat): State {
    ResetLocal(st.(
      fields := st.fields + InputFields(st, flags),
      bitOffsets := st.bitOffsets[st.reportID := Wrap(StartOf(st) + st.reportSize * st.reportCount)]))
  }

  /** What one short item does: its tag and type are in the item byte. */
  function Item(st: State, item: Byte, data: seq<Byte>): State {
    var tag, kind, v := item / 16, item / 4 % 4, Unsigned(data);
    if kind == 1 then
      if tag == 0 then st.(usagePage := Low16(v))
      else if tag == 1 then st.(logicalMin := Signed(data))
      else if tag == 2 then st.(logicalMax := Signed(data))
      else if tag == 7 then st.(reportSize := v)
      else if tag == 8 then st.(reportID := v % 256)
      else if tag == 9 then st.(reportCount := v)
      else st
    else if kind == 2 then
      if tag == 0 then st.(usages := st.usages + [Low16(v)])
      else if tag == 1 then st.(usageMin := Low16(v), haveRange := true)
      else if tag == 2 then st.(usageMax := Low16(v), haveRange := true)
      else st
    else if kind == 0 then
      if tag == 8 then Input(st, v)
      else if tag == 0xa || tag == 0xc || tag == 9 || tag == 0xb then ResetLocal(st)
      else st
    else st
  }

  /** The fields declared from byte i on, or a refusal where an item is cut off. */
  function ParseFrom(desc: seq<Byte>, i: nat, st: State): Result<seq<Field>>
    decreases |desc| - i
  {
    if i >= |desc| then Ok(st.fields)
    else if desc[i] == LONG_ITEM then
      if i + 1 >= |desc| then Err else ParseFrom(desc, i + 3 + desc[i + 1], st)
    else if i + 1 + DataLen(desc[i]) > |desc| then Err
    else ParseFrom(desc, i + 1 + DataLen(desc[i]), Item(st, desc[i], desc[i + 1..i + 1 + DataLen(desc[i])]))
  }

  /** The parser's one pass over the descriptor. */
  method ParseReportDescriptor(desc: seq<Byte>) returns (r: Result<seq<Field>>)
    ensures r == ParseFrom(desc, 0, START)
  {
    var st := START;
    var i := 0;
    while i < |desc|
      invariant 0 <= i
      invariant ParseFrom(desc, i, st) == ParseFrom(desc, 0, START)
      decreases |desc| - i
    {
      var item := desc[i];
      if item == LONG_ITEM {
        if i + 1 >= |desc| { return Err; }
        i := i + 3 + desc[i + 1];
        continue;
      }
      var n := DataLen(item);
      if i + 1 + n > |desc| { return Err; }
      st := Item(st, item, desc[i + 1..i + 1 + n]);
      i := i + 1 + n;
    }
    return Ok(st.fields);
  }

  // ---- Where the fields are

  /** Where a report's fields begin: after its id byte when it has one. */
  function Base(id: Byte): nat { if id == 0 then 0 else 8 }

  /** How many bits the first n fields take of a report. */
  function BitsOf(fields: seq<Field>, id: Byte, n: nat): (bits: nat)
    requires n <= |fields|
  {
    if n == 0 then 0
    else BitsOf(fields, id, n - 1) + if fields[n - 1].reportID == id then fields[n - 1].Width() else 0
  }

  /** Where field k belongs: right after the earlier fields of its report. */
  function Place(fields: seq<Field>, k: nat): (at: nat)
    requires k < |fields|
  {
    Base(fields[k].reportID) + BitsOf(fields, fields[k].reportID, k)
  }

  /** Every field is where it belongs. */
  ghost predicate WellPlaced(fields: seq<Field>) {
    forall k :: 0 <= k < |fields| ==> fields[k].bitOffset == Place(fields, k)
  }

  /** Every field belongs somewhere a Go int can say. */
  ghost predicate PlacesFit(fields: seq<Field>) {
    forall k :: 0 <= k < |fields| ==> Place(fields, k) < INT63
  }

  ghost predicate OffsetsAreInts(fields: seq<Field>) {
    forall k :: 0 <= k < |fields| ==> fields[k].bitOffset < INT63
  }

  ghost predicate EndsAreInts(ends: map<Byte, int>) {
    forall id :: id in ends ==> -INT63 <= ends[id] < INT63
  }

  /** What the parser keeps true while no field has been misplaced by an overflow. */
  ghost predicate Inv(st: State) {
    && OffsetsAreInts(st.fields)
    && EndsAreInts(st.bitOffsets)
    && (PlacesFit(st.fields) ==> WellPlaced(st.fields) && OffsetsRight(st))
  }

  /** The offset kept for each report is the end of its fields so far, where an int can say it. */
  ghost predicate OffsetsRight(st: State) {
    forall id: Byte :: EndKnown(st, id) ==> StartOf(st.(reportID := id)) == Base(id) + BitsOf(st.fields, id, |st.fields|)
  }

  ghost predicate EndKnown(st: State, id: Byte) {
    Base(id) + BitsOf(st.fields, id, |st.fields|) < INT63
  }

  lemma {:induction false} BitsOfPrefix(a: seq<Field>, b: seq<Field>, id: Byte, n: nat)
    requires n <= |a|
    ensures BitsOf(a + b, id, n) == BitsOf(a, id, n)
  {
    if n > 0 {
      BitsOfPrefix(a, b, id, n - 1);
    }
  }

  lemma {:induction false} BitsOfMonotone(fields: seq<Field>, id: Byte, m: nat, n: nat)
    requires m <= n <= |fields|
    ensures BitsOf(fields, id, m) <= BitsOf(fields, id, n)
  {
    if m < n {
      BitsOfMonotone(fields, id, m, n - 1);
    }
  }

  /** What each field of an Input item takes of its report. */
  function SlotBits(st: State, flags: nat): nat {
    if flags / 2 % 2 == 0 then st.reportSize * st.reportCount else st.reportSize
  }

  lemma InputFieldAt(st: State, flags: nat, n: nat)
    requires Inv(st) && n < |InputFields(st, flags)|
    ensures InputFields(st, flags)[n].reportID == st.reportID
    ensures InputFields(st, flags)[n].Width() == SlotBits(st, flags)
    ensures InputFields(st, flags)[n].bitOffset == Wrap(StartOf(st) + n * SlotBits(st, flags))
  {
    var field := InputFields(st, flags)[n];
    if flags / 2 % 2 == 0 {
      assert field == ArrayField(st, flags % 2 == 1) && n == 0;
    } else {
      assert field == VariableField(st, flags % 2 == 1, n);
      assert field.Width() == st.reportSize * 1;
    }
  }

  lemma InputTakes(st: State, flags: nat)
    ensures |InputFields(st, flags)| * SlotBits(st, flags) == st.reportSize * st.reportCount
  {
  }

  /** The first n fields of an Input item add their widths to their own report and nothing to others. */
  lemma {:induction false} BitsOfInput(fields: seq<Field>, st: State, flags: nat, id: Byte, n: nat)
    requires Inv(st) && n <= |InputFields(st, flags)|
    ensures BitsOf(fields + InputFields(st, flags), id, |fields| + n)
         == BitsOf(fields, id, |fields|) + if id == st.reportID then n * SlotBits(st, flags) else 0
  {
    hide InputFields, Inv, SlotBits, Field.Width;
    var more := InputFields(st, flags);
    if n == 0 {
      BitsOfPrefix(fields, more, id, |fields|);
    } else {
      BitsOfInput(fields, st, flags, id, n - 1);
      InputFieldAt(st, flags, n - 1);
      assert (fields + more)[|fields| + n - 1] == more[n - 1];
      assert n * SlotBits(st, flags) == (n - 1) * SlotBits(st, flags) + SlotBits(st, flags);
    }
  }

  lemma PlacesFitPrefix(a: seq<Field>, b: seq<Field>)
    requires PlacesFit(a + b)
    ensures PlacesFit(a)
  {
    forall k | 0 <= k < |a|
      ensures Place(a, k) < INT63
    {
      BitsOfPrefix(a, b, a[k].reportID, k);
      assert (a + b)[k] == a[k];
      assert Place(a + b, k) == Place(a, k);
    }
  }

  lemma InputOffsets(st: State, flags: nat)
    requires Inv(st)
    ensures OffsetsAreInts(Input(st, flags).fields) && EndsAreInts(Input(st, flags).bitOffsets)
  {
    forall n: nat | n < |InputFields(st, flags)|
      ensures InputFields(st, flags)[n].bitOffset < INT63
    {
      InputFieldAt(st, flags, n);
    }
    hide InputFields, PlacesFit, WellPlaced, OffsetsRight, StartOf;
  }

  /** An Input item's fields are where they belong, if the places fit. */
  lemma InputPlaced(st: State, flags: nat)
    requires Inv(st) && PlacesFit(st.fields + InputFields(st, flags))
    ensures WellPlaced(st.fields + InputFields(st, flags))
  {
    var more := InputFields(st, flags);
    PlacesFitPrefix(st.fields, more);
    hide InputFields, Place, OffsetsRight, StartOf, EndsAreInts, OffsetsAreInts, PlacesFit;
    forall k | 0 <= k < |st.fields + more|
      ensures (st.fields + more)[k].bitOffset == Place(st.fields + more, k)
    {
      if k < |st.fields| {
        OldFieldPlaced(st.fields, more, k);
      } else {
        NewFieldPlaced(st, flags, k - |st.fields|);
      }
    }
  }

  lemma OldFieldPlaced(fields: seq<Field>, more: seq<Field>, k: nat)
    requires WellPlaced(fields) && k < |fields|
    ensures (fields + more)[k].bitOffset == Place(fields + more, k)
  {
    BitsOfPrefix(fields, more, fields[k].reportID, k);
    assert fields[k].bitOffset == Place(fields, k);
  }

  /** The nth field of an Input item is where it belongs, if that place fits. */
  lemma NewFieldPlaced(st: State, flags: nat, n: nat)
    requires Inv(st) && PlacesFit(st.fields) && n < |InputFields(st, flags)|
    requires Place(st.fields + InputFields(st, flags), |st.fields| + n) < INT63
    ensures InputFields(st, flags)[n].bitOffset == Place(st.fields + InputFields(st, flags), |st.fields| + n)
  {
    hide InputFields, SlotBits, BitsOf, StartOf, Wrap;
    var id := st.reportID;
    InputFieldAt(st, flags, n);
    BitsOfInput(st.fields, st, flags, id, n);
    assert (st.fields + InputFields(st, flags))[|st.fields| + n] == InputFields(st, flags)[n];
    assert n * SlotBits(st, flags) >= 0;
    assert EndKnown(st, id);
    assert st.(reportID := id) == st;
  }

  /** After an Input item the offset kept for every report is still the end of its fields. */
  lemma InputEnds(st: State, flags: nat)
    requires Inv(st) && PlacesFit(st.fields)
    ensures OffsetsRight(Input(st, flags))
  {
    var next := Input(st, flags);
    forall id: Byte | EndKnown(next, id)
      ensures StartOf(next.(reportID := id)) == Base(id) + BitsOf(next.fields, id, |next.fields|)
    {
      InputEnd(st, flags, id);
    }
  }

  lemma InputEnd(st: State, flags: nat, id: Byte)
    requires Inv(st) && PlacesFit(st.fields) && EndKnown(Input(st, flags), id)
    ensures StartOf(Input(st, flags).(reportID := id))
         == Base(id) + BitsOf(Input(st, flags).fields, id, |Input(st, flags).fields|)
  {
    hide InputFields, SlotBits, BitsOf;
    BitsOfInput(st.fields, st, flags, id, |InputFields(st, flags)|);
    InputTakes(st, flags);
    assert st.reportSize * st.reportCount >= 0;
    assert EndKnown(st, id);
    assert st.(reportID := st.reportID) == st;
  }

  lemma InputKeeps(st: State, flags: nat)
    requires Inv(st)
    ensures Inv(Input(st, flags))
  {
    hide InputFields, WellPlaced, OffsetsRight, PlacesFit;
    InputOffsets(st, flags);
    if PlacesFit(st.fields + InputFields(st, flags)) {
      PlacesFitPrefix(st.fields, InputFields(st, flags));
      InputPlaced(st, flags);
      InputEnds(st, flags);
    }
  }

  lemma ItemKeeps(st: State, item: Byte, data: seq<Byte>)
    requires Inv(st)
    ensures Inv(Item(st, item, data))
  {
    hide Input, WellPlaced, PlacesFit, Unsigned;
    var next := Item(st, item, data);
    if item / 4 % 4 == 0 && item / 16 == 8 {
      InputKeeps(st, Unsigned(data));
    } else {
      assert next.fields == st.fields && next.bitOffsets == st.bitOffsets;
      assert forall id: Byte :: StartOf(next.(reportID := id)) == StartOf(st.(reportID := id));
      assert forall id: Byte :: EndKnown(next, id) <==> EndKnown(st, id);
    }
  }

  // ---- What a descriptor declares

  /** An Input item and what is in force where it stands: report, slot size, count of slots. */
  datatype Declared = Declared(id: Byte, size: nat, count: nat, variable: bool)
  {
    predicate HasField() { variable ==> count > 0 }
    /** Where the last of its fields begins, from where the item begins. */
    function LastField(): int { if variable then (count - 1) * size else 0 }
  }

  /** The Input items from byte i on, found without placing any field. */
  function InputsFrom(desc: seq<Byte>, i: nat, size: nat, count: nat, id: Byte): (items: seq<Declared>)
    decreases |desc| - i
  {
    if i >= |desc| then []
    else if desc[i] == LONG_ITEM then
      if i + 1 >= |desc| then [] else InputsFrom(desc, i + 3 + desc[i + 1], size, count, id)
    else if i + 1 + DataLen(desc[i]) > |desc| then []
    else
      var next := i + 1 + DataLen(desc[i]);
      var v := Unsigned(desc[i + 1..next]);
      if desc[i] / 4 == 0x1d then InputsFrom(desc, next, v, count, id)
      else if desc[i] / 4 == 0x25 then InputsFrom(desc, next, size, v, id)
      else if desc[i] / 4 == 0x21 then InputsFrom(desc, next, size, count, v % 256)
      else if desc[i] / 4 == 0x20 then [Declared(id, size, count, v / 2 % 2 == 1)] + InputsFrom(desc, next, size, count, id)
      else InputsFrom(desc, next, size, count, id)
  }

  function InputsOf(desc: seq<Byte>): seq<Declared> { InputsFrom(desc, 0, 0, 0, 0) }

  /** How many bits the first n Input items declare for a report, however many that is. */
  function BitsDeclared(items: seq<Declared>, id: Byte, n: nat): (bits: nat)
    requires n <= |items|
  {
    if n == 0 then 0
    else BitsDeclared(items, id, n - 1) + if items[n - 1].id == id then items[n - 1].size * items[n - 1].count else 0
  }

  predicate RoomAt(items: seq<Declared>, k: nat)
    requires k < |items|
  {
    items[k].HasField() ==> Base(items[k].id) + BitsDeclared(items, items[k].id, k) + items[k].LastField() < INT63
  }

  /** Every field an Input item declares begins where a Go int can say. */
  ghost predicate RoomFor(items: seq<Declared>) {
    forall k :: 0 <= k < |items| ==> RoomAt(items, k)
  }

  lemma {:induction false} BitsDeclaredPrefix(a: seq<Declared>, b: seq<Declared>, id: Byte, n: nat)
    requires n <= |a|
    ensures BitsDeclared(a + b, id, n) == BitsDeclared(a, id, n)
  {
    if n > 0 {
      BitsDeclaredPrefix(a, b, id, n - 1);
    }
  }

  lemma RoomAtMore(items: seq<Declared>, item: Declared, k: nat)
    requires k <= |items|
    ensures RoomAt(items + [item], k) <==>
            if k < |items| then RoomAt(items, k)
            else item.HasField() ==> Base(item.id) + BitsDeclared(items, item.id, |items|) + item.LastField() < INT63
  {
    hide BitsDeclared, Declared.HasField, Declared.LastField;
    var d := (items + [item])[k];
    BitsDeclaredPrefix(items, [item], d.id, k);
    assert d == if k < |items| then items[k] else item;
  }

  lemma RoomForMore(items: seq<Declared>, item: Declared)
    ensures RoomFor(items + [item]) <==>
            RoomFor(items) && (item.HasField() ==> Base(item.id) + BitsDeclared(items, item.id, |items|) + item.LastField() < INT63)
  {
    forall k | 0 <= k <= |items|
      ensures RoomAt(items + [item], k) <==>
              if k < |items| then RoomAt(items, k)
              else item.HasField() ==> Base(item.id) + BitsDeclared(items, item.id, |items|) + item.LastField() < INT63
    {
      RoomAtMore(items, item, k);
    }
    hide RoomAt, BitsDeclared, Base, Declared.HasField, Declared.LastField;
    assert |items + [item]| == |items| + 1;
    assert RoomFor(items + [item]) ==> RoomAt(items + [item], |items|);
  }

  /** Fields are those some Input items declare: they take the same bits, and fit exactly when there is room. */
  ghost predicate Matches(fields: seq<Field>, items: seq<Declared>) {
    && (forall id: Byte :: BitsOf(fields, id, |fields|) == BitsDeclared(items, id, |items|))
    && (PlacesFit(fields) <==> RoomFor(items))
  }

  function DeclaredBy(st: State, flags: nat): (d: Declared) {
    Declared(st.reportID, st.reportSize, st.reportCount, flags / 2 % 2 == 1)
  }

  lemma InputBits(st: State, flags: nat, id: Byte)
    requires Inv(st)
    ensures BitsOf(st.fields + InputFields(st, flags), id, |st.fields + InputFields(st, flags)|)
         == BitsOf(st.fields, id, |st.fields|) + if id == st.reportID then st.reportSize * st.reportCount else 0
  {
    hide InputFields, Inv, SlotBits;
    BitsOfInput(st.fields, st, flags, id, |InputFields(st, flags)|);
    InputTakes(st, flags);
  }

  /** Where each field of an Input item belongs; k counts from the first field of all. */
  lemma NewFieldPlace(st: State, flags: nat, k: nat)
    requires Inv(st) && |st.fields| <= k < |st.fields + InputFields(st, flags)|
    ensures Place(st.fields + InputFields(st, flags), k)
         == Base(st.reportID) + BitsOf(st.fields, st.reportID, |st.fields|) + (k - |st.fields|) * SlotBits(st, flags)
  {
    hide InputFields, SlotBits, BitsOf, Inv;
    InputFieldAt(st, flags, k - |st.fields|);
    BitsOfInput(st.fields, st, flags, st.reportID, k - |st.fields|);
    assert (st.fields + InputFields(st, flags))[k] == InputFields(st, flags)[k - |st.fields|];
  }

  /** The places of more fields all fit exactly when those of the fields before and those of the new ones do. */
  lemma PlacesFitMore(fields: seq<Field>, more: seq<Field>)
    ensures PlacesFit(fields + more) <==>
            PlacesFit(fields) && forall k :: |fields| <= k < |fields + more| ==> Place(fields + more, k) < INT63
  {
    hide Place;
    if PlacesFit(fields + more) {
      PlacesFitPrefix(fields, more);
    }
    forall k | 0 <= k < |fields|
      ensures Place(fields + more, k) == Place(fields, k)
    {
      PlaceKept(fields, more, k);
    }
  }

  lemma PlaceKept(fields: seq<Field>, more: seq<Field>, k: nat)
    requires k < |fields|
    ensures Place(fields + more, k) == Place(fields, k)
  {
    BitsOfPrefix(fields, more, fields[k].reportID, k);
  }

  /** The places of an Input item's fields all fit exactly when its last one does. */
  lemma LastFieldDecides(st: State, flags: nat)
    requires Inv(st)
    ensures PlacesFit(st.fields + InputFields(st, flags)) <==>
            PlacesFit(st.fields) &&
            (DeclaredBy(st, flags).HasField() ==>
               Base(st.reportID) + BitsOf(st.fields, st.reportID, |st.fields|) + DeclaredBy(st, flags).LastField() < INT63)
  {
    var all := st.fields + InputFields(st, flags);
    LastFieldAt(st, flags);
    PlacesFitMore(st.fields, InputFields(st, flags));
    hide InputFields, SlotBits, BitsOf, Inv, DeclaredBy, Declared.HasField, Declared.LastField, Place, PlacesFit;
    if |all| > |st.fields| {
      NewFieldPlace(st, flags, |all| - 1);
      forall k | |st.fields| <= k < |all|
        ensures Place(all, k) <= Place(all, |all| - 1)
      {
        NewFieldPlace(st, flags, k);
        NotMore(k - |st.fields|, |all| - 1 - |st.fields|, SlotBits(st, flags));
      }
    }
  }

  lemma LastFieldAt(st: State, flags: nat)
    ensures DeclaredBy(st, flags).HasField() <==> |InputFields(st, flags)| > 0
    ensures DeclaredBy(st, flags).HasField() ==> DeclaredBy(st, flags).LastField() == (|InputFields(st, flags)| - 1) * SlotBits(st, flags)
  {
  }

  lemma NotMore(a: nat, b: nat, step: nat)
    requires a <= b
    ensures a * step <= b * step
  {
  }

  lemma InputMatches(st: State, flags: nat, items: seq<Declared>)
    requires Inv(st) && Matches(st.fields, items)
    ensures Matches(Input(st, flags).fields, items + [DeclaredBy(st, flags)])
  {
    var item := DeclaredBy(st, flags);
    assert item.id == st.reportID && item.size == st.reportSize && item.count == st.reportCount;
    LastFieldDecides(st, flags);
    RoomForMore(items, item);
    hide InputFields, Inv, RoomFor, PlacesFit, DeclaredBy, BitsOf, Declared.HasField, Declared.LastField;
    forall id: Byte
      ensures BitsOf(Input(st, flags).fields, id, |Input(st, flags).fields|) == BitsDeclared(items + [item], id, |items| + 1)
    {
      InputBits(st, flags, id);
      BitsDeclaredPrefix(items, [item], id, |items|);
    }
  }

  /** What one short item does to what the list of Input items goes by. */
  lemma ItemGlobals(st: State, item: Byte, data: seq<Byte>)
    ensures var next, v := Item(st, item, data), Unsigned(data);
            && (item / 4 == 0x20 ==> next == Input(st, v))
            && (item / 4 != 0x20 ==> next.fields == st.fields)
            && next.reportSize == (if item / 4 == 0x1d then v else st.reportSize)
            && next.reportCount == (if item / 4 == 0x25 then v else st.reportCount)
            && next.reportID as int == (if item / 4 == 0x21 then v % 256 else st.reportID)
  {
    hide InputFields, Unsigned, Signed, Low16, StartOf, Wrap;
    assert item / 4 == item / 16 * 4 + item / 4 % 4;
  }

  lemma InputsNext(desc: seq<Byte>, i: nat, st: State)
    requires i < |desc| && desc[i] != LONG_ITEM && i + 1 + DataLen(desc[i]) <= |desc|
    ensures var data, next := desc[i + 1..i + 1 + DataLen(desc[i])], Item(st, desc[i], desc[i + 1..i + 1 + DataLen(desc[i])]);
            InputsFrom(desc, i, st.reportSize, st.reportCount, st.reportID)
            == (if desc[i] / 4 == 0x20 then [DeclaredBy(st, Unsigned(data))] else [])
               + InputsFrom(desc, i + 1 + DataLen(desc[i]), next.reportSize, next.reportCount, next.reportID)
  {
    hide Item, Unsigned, Input;
    ItemGlobals(st, desc[i], desc[i + 1..i + 1 + DataLen(desc[i])]);
  }

  /** The fields a parse gives are well placed if their places fit, and are those the descriptor declares. */
  lemma {:induction false} ParseKeeps(desc: seq<Byte>, i: nat, st: State, items: seq<Declared>)
    requires Inv(st) && ParseFrom(desc, i, st).Ok? && Matches(st.fields, items)
    ensures OffsetsAreInts(ParseFrom(desc, i, st).value)
    ensures PlacesFit(ParseFrom(desc, i, st).value) ==> WellPlaced(ParseFrom(desc, i, st).value)
    ensures Matches(ParseFrom(desc, i, st).value, items + InputsFrom(desc, i, st.reportSize, st.reportCount, st.reportID))
    decreases |desc| - i
  {
    hide Item, WellPlaced, PlacesFit, Matches, Inv, Input, RoomFor, Unsigned;
    if i >= |desc| {
      assert items + [] == items;
      FieldsAreInts(st);
    } else if desc[i] == LONG_ITEM {
      ParseKeeps(desc, i + 3 + desc[i + 1], st, items);
    } else {
      var n := DataLen(desc[i]);
      var data := desc[i + 1..i + 1 + n];
      var next := Item(st, desc[i], data);
      ItemKeeps(st, desc[i], data);
      InputsNext(desc, i, st);
      ItemGlobals(st, desc[i], data);
      var more := if desc[i] / 4 == 0x20 then [DeclaredBy(st, Unsigned(data))] else [];
      var rest := InputsFrom(desc, i + 1 + n, next.reportSize, next.reportCount, next.reportID);
      hide InputsFrom, DeclaredBy;
      if desc[i] / 4 == 0x20 {
        InputMatches(st, Unsigned(data), items);
      } else {
        assert items + more == items;
      }
      ParseKeeps(desc, i + 1 + n, next, items + more);
      assert items + more + rest == items + (more + rest);
    }
  }

  lemma FieldsAreInts(st: State)
    requires Inv(st)
    ensures OffsetsAreInts(st.fields) && (PlacesFit(st.fields) ==> WellPlaced(st.fields))
  {
  }

  /**
   For every descriptor that parses: the Input fields of each report follow one another without a
   gap from where its fields begin, exactly when the bits its Input items declare before any field are
   no more than a Go int counts.
   */
  lemma FieldsFollowOneAnother(desc: seq<Byte>)
    requires ParseFrom(desc, 0, START).Ok?
    ensures WellPlaced(ParseFrom(desc, 0, START).value) <==> RoomFor(InputsOf(desc))
  {
    assert Matches([], []);
    ParseKeeps(desc, 0, START, []);
    assert [] + InputsOf(desc) == InputsOf(desc);
  }

  /** Two array items of 0xffffffff slots of 0xffffffff bits each: the second's place is past a Go int. */
  const OVERFLOWING: seq<Byte> := [0x77, 255, 255, 255, 255, 0x97, 255, 255, 255, 255, 0x80, 0x80]

  lemma OverflowMisplaces()
    ensures ParseFrom(OVERFLOWING, 0, START).Ok? && !WellPlaced(ParseFrom(OVERFLOWING, 0, START).value)
    ensures !RoomFor(InputsOf(OVERFLOWING))
  {
    hide ParseFrom, WellPlaced, Unsigned;
    var sized := START.(reportSize := 0xffff_ffff);
    var counted := sized.(reportCount := 0xffff_ffff);
    assert ParseFrom(OVERFLOWING, 0, START) == ParseFrom(OVERFLOWING, 5, sized) by {
      assert OVERFLOWING[1..5] == ONES;
      Takes32Bits(START);
      ParseItem(OVERFLOWING, 0, START);
    }
    assert ParseFrom(OVERFLOWING, 5, sized) == ParseFrom(OVERFLOWING, 10, counted) by {
      assert OVERFLOWING[6..10] == ONES;
      Takes32Bits(sized);
      ParseItem(OVERFLOWING, 5, sized);
    }
    assert ParseFrom(OVERFLOWING, 10, counted) == Ok(Input(Input(counted, 0), 0).fields) by {
      hide Input;
      assert OVERFLOWING[11..11] == [] && OVERFLOWING[12..12] == [];
      IsInput(counted);
      IsInput(Input(counted, 0));
      ParseItem(OVERFLOWING, 10, counted);
      ParseItem(OVERFLOWING, 11, Input(counted, 0));
      ParseEnd(OVERFLOWING, Input(Input(counted, 0), 0));
    }
    TwiceMisplaced(counted);
    FieldsFollowOneAnother(OVERFLOWING);
  }

  const ONES: seq<Byte> := [255, 255, 255, 255]

  lemma Takes32Bits(st: State)
    ensures Item(st, 0x77, ONES) == st.(reportSize := 0xffff_ffff)
    ensures Item(st, 0x97, ONES) == st.(reportCount := 0xffff_ffff)
  {
    assert ONES[1..] == [255, 255, 255] && ONES[1..][1..] == [255, 255] && ONES[1..][1..][1..] == [255];
  }

  lemma IsInput(st: State)
    ensures Item(st, 0x80, []) == Input(st, 0)
  {
  }

  lemma ParseItem(desc: seq<Byte>, i: nat, st: State)
    requires i < |desc| && desc[i] != LONG_ITEM && i + 1 + DataLen(desc[i]) <= |desc|
    ensures ParseFrom(desc, i, st)
         == ParseFrom(desc, i + 1 + DataLen(desc[i]), Item(st, desc[i], desc[i + 1..i + 1 + DataLen(desc[i])]))
  {
  }

  lemma ParseEnd(desc: seq<Byte>, st: State)
    ensures ParseFrom(desc, |desc|, st) == Ok(st.fields)
  {
  }

  lemma TwiceMisplaced(st: State)
    requires st == START.(reportSize := 0xffff_ffff, reportCount := 0xffff_ffff)
    ensures !WellPlaced(Input(Input(st, 0), 0).fields)
  {
    hide ParseFrom;
    var once := Input(st, 0);
    var twice := Input(once, 0);
    assert once.fields == [ArrayField(st, false)];
    assert StartOf(once) == Wrap(0xffff_ffff * 0xffff_ffff) < 0;
    assert twice.fields == [ArrayField(st, false), ArrayField(once, false)];
    assert twice.fields[1].bitOffset != Place(twice.fields, 1);
  }

  /** Fields of one report that are where they belong share no bit. */
  lemma FieldsShareNoBit(fields: seq<Field>, j: nat, k: nat)
    requires WellPlaced(fields) && j < k < |fields| && fields[j].reportID == fields[k].reportID
    ensures fields[j].bitOffset + fields[j].Width() <= fields[k].bitOffset
  {
    BitsOfMonotone(fields, fields[j].reportID, j + 1, k);
  }
}

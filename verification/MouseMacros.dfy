/**
 A Retro R8 mouse's macros on the wire: a header, the name in blocks of ten bytes, the records two to a
 report, and a sixteen-bit sum in the last one. A records report names no button: it is about the
 macro whose header came last.
 */
module MouseMacros {
  import opened Bytes

  const FRAME: nat := 60
  const FIRST_BUTTON: nat := 3
  const LAST_BUTTON: nat := 6
  const SLOTS: nat := 4
  const MAX_RECORDS: nat := 80
  const RECORD: nat := 5
  const PER_FRAME: nat := 2
  const NAME_LEN: nat := 30
  const NAME_READ: nat := 20
  const NAME_BLOCK: nat := 10

  const HEADER: Byte := 1
  const RECORDS: Byte := 2
  const LAST_PART: Byte := 3
  const NAME: Byte := 4

  datatype MacroRecord = MacroRecord(state: Byte, code: U16, timer: U16)

  datatype Macro = Macro(cycles: U16, interval: U16, name: seq<Byte>, records: seq<MacroRecord>)

  /** What the mouse keeps: a macro a button, the one the last header was about, and the records coming in. */
  datatype Store = Store(macros: seq<Macro>, at: nat, incoming: seq<Byte>)
  {
    predicate Ok() {
      |macros| == SLOTS && at < SLOTS && forall i :: 0 <= i < SLOTS ==> |macros[i].name| == NAME_LEN
    }
  }

  predicate ButtonOk(button: nat) { FIRST_BUTTON <= button <= LAST_BUTTON }

  function SlotOf(button: nat): (slot: nat)
    requires ButtonOk(button)
    ensures slot < SLOTS
  {
    button - FIRST_BUTTON
  }

  /** A report's data, the rest of it zero. */
  function Frame(data: seq<Byte>): (p: seq<Byte>)
    requires |data| <= FRAME
    ensures |p| == FRAME && p[..|data|] == data
  {
    data + Fill(FRAME - |data|, 0)
  }

  // ---- Records as bytes

  function RecordBytes(r: MacroRecord): (b: seq<Byte>)
    ensures |b| == RECORD
  {
    [r.state] + Le16(r.code) + Le16(r.timer)
  }

  function RecordOf(b: seq<Byte>): MacroRecord
    requires |b| >= RECORD
  {
    MacroRecord(b[0], Word16(b[1..]), Word16(b[3..]))
  }

  function Raw(rs: seq<MacroRecord>, n: nat): (b: seq<Byte>)
    requires n <= |rs|
    ensures |b| == RECORD * n
  {
    if n == 0 then [] else Raw(rs, n - 1) + RecordBytes(rs[n - 1])
  }

  function RecordsIn(b: seq<Byte>, n: nat): (rs: seq<MacroRecord>)
    requires RECORD * n <= |b|
    ensures |rs| == n
  {
    if n == 0 then [] else RecordsIn(b, n - 1) + [RecordOf(b[RECORD * (n - 1)..RECORD * n])]
  }

  lemma RecordRoundTrip(r: MacroRecord)
    ensures RecordOf(RecordBytes(r)) == r
  {
    var b := RecordBytes(r);
    assert b[1..3] == Le16(r.code) && b[3..5] == Le16(r.timer);
    assert Word16(b[1..]) == Word16(Le16(r.code)) && Word16(b[3..]) == Word16(Le16(r.timer));
  }

  lemma {:induction false} RawPrefix(rs: seq<MacroRecord>, n: nat, m: nat)
    requires n <= m <= |rs|
    ensures Raw(rs, m)[..RECORD * n] == Raw(rs, n)
    decreases m
  {
    if n < m {
      RawPrefix(rs, n, m - 1);
      assert Raw(rs, m)[..RECORD * n] == Raw(rs, m - 1)[..RECORD * n];
    }
  }

  /** Record k of a run of them, in its bytes. */
  lemma RawAt(rs: seq<MacroRecord>, m: nat, k: nat)
    requires k < m <= |rs|
    ensures Raw(rs, m)[RECORD * k..RECORD * (k + 1)] == RecordBytes(rs[k])
  {
    RawPrefix(rs, k + 1, m);
    assert Raw(rs, m)[RECORD * k..RECORD * (k + 1)] == Raw(rs, m)[..RECORD * (k + 1)][RECORD * k..];
  }

  lemma {:induction false} RecordsRoundTrip(rs: seq<MacroRecord>, n: nat)
    requires n <= |rs|
    ensures RecordsIn(Raw(rs, |rs|), n) == rs[..n]
  {
    if n > 0 {
      RecordsRoundTrip(rs, n - 1);
      RawAt(rs, |rs|, n - 1);
      RecordRoundTrip(rs[n - 1]);
      assert rs[..n] == rs[..n - 1] + [rs[n - 1]];
    }
  }

  /** The sum of some bytes, wrapping at sixteen bits. */
  function Sum(b: seq<Byte>, n: nat): U16
    requires n <= |b|
  {
    if n == 0 then 0 else (Sum(b, n - 1) + b[n - 1]) % 0x1_0000
  }

  // ---- What the mouse does with a request

  /** Records coming in: kept aside until the last part, which must bring their sum. */
  function Gather(st: Store, now: seq<Byte>, last: bool, sum: U16): (r: (Store, bool))
    requires st.Ok()
    ensures r.0.Ok()
  {
    if !last then (st.(incoming := now), true)
    else if Sum(now, |now|) != sum then (st.(incoming := []), false)
    else (Store(st.macros[st.at := st.macros[st.at].(records := RecordsIn(now, |now| / RECORD))], st.at, []), true)
  }

  /** A write: what it leaves stored, and whether it is acknowledged. */
  function Step(st: Store, p: seq<Byte>): (r: (Store, bool))
    requires st.Ok() && |p| == FRAME
    ensures r.0.Ok()
  {
    if p[0] == HEADER then
      if !ButtonOk(p[2]) || p[1] > MAX_RECORDS || p[5] != SlotOf(p[2]) + 1 then (st, false)
      else
        var slot := SlotOf(p[2]);
        var m := st.macros[slot].(cycles := Word16(p[3..]), interval := Word16(p[9..]), records := []);
        (Store(st.macros[slot := m], slot, []), true)
    else if p[0] == NAME then
      if !ButtonOk(p[1]) || p[2] % 8 != 0 || p[2] / 8 >= 3 then (st, false)
      else
        var slot, from := SlotOf(p[1]), NAME_BLOCK * (p[2] / 8);
        var name := st.macros[slot].name;
        var now := name[..from] + p[3..3 + NAME_BLOCK] + name[from + NAME_BLOCK..];
        (st.(macros := st.macros[slot := st.macros[slot].(name := now)]), true)
    else if p[0] == RECORDS || p[0] == LAST_PART then
      if p[4] < 1 || p[4] > PER_FRAME || RECORD * p[3] != |st.incoming| then (st, false)
      else Gather(st, st.incoming + p[5..5 + RECORD * p[4]], p[0] == LAST_PART, Word16(p[1..]))
    else (st, false)
  }

  /** A read: the macro the next records request is about, and the reply's data. */
  function Answer(st: Store, p: seq<Byte>): (r: (nat, Option<seq<Byte>>))
    requires st.Ok() && |p| == FRAME
    ensures r.0 < SLOTS && (r.1.Some? ==> |r.1.value| <= FRAME)
  {
    if p[0] == HEADER then
      if !ButtonOk(p[2]) then (st.at, None)
      else
        var slot := SlotOf(p[2]);
        var m := st.macros[slot];
        (slot, Some([HEADER, |m.records| % 256, p[2]] + Le16(m.cycles) + [slot + 1, 0, 0, 0x20] + Le16(m.interval)))
    else if p[0] == NAME then
      if !ButtonOk(p[1]) || p[2] % 8 != 0 || p[2] / 8 >= 3 then (st.at, None)
      else
        var from := NAME_BLOCK * (p[2] / 8);
        (st.at, Some(p[..3] + st.macros[SlotOf(p[1])].name[from..from + NAME_BLOCK]))
    else if p[0] == RECORDS then
      var rs := st.macros[st.at].records;
      if p[4] > PER_FRAME || p[3] as int + p[4] as int > |rs| then (st.at, None)
      else (st.at, Some(p[..5] + Raw(rs[p[3]..p[3] as int + p[4] as int], p[4])))
    else (st.at, None)
  }

  /** Which macro a write is about, if any. */
  function About(st: Store, p: seq<Byte>): Option<nat>
    requires |p| == FRAME
  {
    if p[0] == HEADER then if ButtonOk(p[2]) then Some(SlotOf(p[2])) else None
    else if p[0] == NAME then if ButtonOk(p[1]) then Some(SlotOf(p[1])) else None
    else Some(st.at)
  }

  // ---- What the session sends

  /** A macro the session sends: one to eighty records and a name that fits. */
  predicate Sendable(m: Macro) { 1 <= |m.records| <= MAX_RECORDS && |m.name| <= NAME_LEN }

  function FullName(m: Macro): (name: seq<Byte>)
    requires |m.name| <= NAME_LEN
    ensures |name| == NAME_LEN
  {
    m.name + Fill(NAME_LEN - |m.name|, 0)
  }

  function HeaderData(button: Byte, m: Macro): (d: seq<Byte>)
    requires ButtonOk(button) && Sendable(m)
    ensures |d| == 11
  {
    [HEADER, |m.records|, button] + Le16(m.cycles) + [SlotOf(button) + 1, 0, 0, 0x20] + Le16(m.interval)
  }

  function NameData(button: Byte, name: seq<Byte>, block: nat): (d: seq<Byte>)
    requires |name| == NAME_LEN && block < 3
    ensures |d| == 3 + NAME_BLOCK
  {
    [NAME, button, block * 8] + name[block * NAME_BLOCK..(block + 1) * NAME_BLOCK]
  }

  /** How many records the report that starts with record at carries. */
  function Carries(rs: seq<MacroRecord>, at: nat): (n: nat)
    requires at < |rs|
    ensures 1 <= n <= PER_FRAME && at + n <= |rs|
  {
    Min(PER_FRAME, |rs| - at)
  }

  function RecordsData(rs: seq<MacroRecord>, at: nat): (d: seq<Byte>)
    requires at < |rs| <= MAX_RECORDS
    ensures |d| == 5 + RECORD * Carries(rs, at)
  {
    var n, raw := Carries(rs, at), Raw(rs, |rs|);
    var lead := if at + n == |rs| then [LAST_PART] + Le16(Sum(raw, |raw|)) else [RECORDS, 0, 0];
    lead + [at, n] + raw[RECORD * at..RECORD * (at + n)]
  }

  /** What the mouse keeps of a macro: its name filled out with zeros. */
  function Kept(m: Macro): Macro
    requires Sendable(m)
  {
    m.(name := FullName(m))
  }

  /** What reading a stored macro gives: two of its three name blocks, and no more than eighty records. */
  function ReadsAs(m: Macro): Result<Macro>
    requires |m.name| == NAME_LEN
  {
    var count := |m.records| % 256;
    if count > MAX_RECORDS then Err else Ok(m.(name := m.name[..NAME_READ], records := m.records[..count]))
  }

  /** A macro that was stored reads back as it was sent, with the first twenty bytes of its name. */
  lemma StoredReads(m: Macro)
    requires Sendable(m)
    ensures ReadsAs(Kept(m)) == Ok(m.(name := FullName(m)[..NAME_READ]))
    ensures |m.name| == NAME_READ ==> ReadsAs(Kept(m)) == Ok(m)
  {
    assert m.records[..|m.records|] == m.records;
    assert |m.name| == NAME_READ ==> FullName(m)[..NAME_READ] == m.name;
  }

  // ---- Each report is taken

  lemma Word16After(p: seq<Byte>, at: nat, v: U16)
    requires at + 2 <= |p| && p[at] == Le16(v)[0] && p[at + 1] == Le16(v)[1]
    ensures Word16(p[at..]) == v
  {
    assert p[at..][0] == p[at] && p[at..][1] == p[at + 1];
  }

  lemma HeaderTaken(st: Store, button: Byte, m: Macro)
    requires st.Ok() && ButtonOk(button) && Sendable(m)
    ensures var slot := SlotOf(button);
            Step(st, Frame(HeaderData(button, m))) ==
            (Store(st.macros[slot := Macro(m.cycles, m.interval, st.macros[slot].name, [])], slot, []), true)
  {
    var p := Frame(HeaderData(button, m));
    assert forall i :: 0 <= i < 11 ==> p[i] == HeaderData(button, m)[i];
    assert p[3] == Le16(m.cycles)[0] && p[4] == Le16(m.cycles)[1];
    assert p[9] == Le16(m.interval)[0] && p[10] == Le16(m.interval)[1];
    Word16After(p, 3, m.cycles);
    Word16After(p, 9, m.interval);
  }

  lemma NameTaken(st: Store, button: Byte, name: seq<Byte>, block: nat)
    requires st.Ok() && ButtonOk(button) && |name| == NAME_LEN && block < 3
    ensures var slot, from := SlotOf(button), NAME_BLOCK * block;
            var was := st.macros[slot].name;
            var now := was[..from] + name[from..from + NAME_BLOCK] + was[from + NAME_BLOCK..];
            Step(st, Frame(NameData(button, name, block))) ==
            (st.(macros := st.macros[slot := st.macros[slot].(name := now)]), true)
  {
    var d := NameData(button, name, block);
    var p := Frame(d);
    assert p[0] == NAME && p[1] == button && p[2] == block * 8;
    assert p[3..3 + NAME_BLOCK] == p[..|d|][3..] == d[3..] == name[block * NAME_BLOCK..(block + 1) * NAME_BLOCK];
  }

  lemma RecordsHead(rs: seq<MacroRecord>, at: nat)
    requires at < |rs| <= MAX_RECORDS
    ensures var p := Frame(RecordsData(rs, at));
            && p[3] == at && p[4] == Carries(rs, at)
            && p[0] == (if at + Carries(rs, at) == |rs| then LAST_PART else RECORDS)
            && (p[0] == LAST_PART ==> Word16(p[1..]) == Sum(Raw(rs, |rs|), RECORD * |rs|))
  {
    hide Sum, Raw;
    var d := RecordsData(rs, at);
    FrameStart(d);
    hide Frame, Le16, Word16;
    var p, raw := Frame(d), Raw(rs, |rs|);
    if at + Carries(rs, at) == |rs| {
      assert d[1] == Le16(Sum(raw, |raw|))[0] && d[2] == Le16(Sum(raw, |raw|))[1];
      Word16After(p, 1, Sum(raw, |raw|));
    }
  }

  lemma FrameStart(d: seq<Byte>)
    requires 5 <= |d| <= FRAME
    ensures Frame(d)[..5] == d[..5]
    ensures Frame(d)[0] == d[0] && Frame(d)[1] == d[1] && Frame(d)[2] == d[2] && Frame(d)[3] == d[3] && Frame(d)[4] == d[4]
  {
  }

  lemma RecordsBody(rs: seq<MacroRecord>, at: nat)
    requires at < |rs| <= MAX_RECORDS
    ensures var n := Carries(rs, at);
            Frame(RecordsData(rs, at))[5..5 + RECORD * n] == Raw(rs, |rs|)[RECORD * at..RECORD * (at + n)]
  {
    hide Sum, Raw;
    var d, n := RecordsData(rs, at), Carries(rs, at);
    var p := Frame(d);
    assert |d| == 5 + RECORD * n;
    assert p[5..5 + RECORD * n] == p[..|d|][5..];
    assert d[5..] == Raw(rs, |rs|)[RECORD * at..RECORD * (at + n)];
  }

  lemma GatherMore(st: Store, now: seq<Byte>, sum: U16)
    requires st.Ok()
    ensures Gather(st, now, false, sum) == (st.(incoming := now), true)
  {
  }

  lemma GatherAll(st: Store, rs: seq<MacroRecord>)
    requires st.Ok()
    ensures Gather(st, Raw(rs, |rs|), true, Sum(Raw(rs, |rs|), RECORD * |rs|)) ==
            (Store(st.macros[st.at := st.macros[st.at].(records := rs)], st.at, []), true)
  {
    hide Sum, Raw, RecordsIn;
    RecordsRoundTrip(rs, |rs|);
    var raw := Raw(rs, |rs|);
    assert |raw| == RECORD * |rs| && |raw| / RECORD == |rs|;
    assert rs[..|rs|] == rs;
    assert RecordsIn(raw, |raw| / RECORD) == rs;
  }

  /** A records report adds its records to those that came before it. */
  lemma RecordsAdded(st: Store, p: seq<Byte>, raw: seq<Byte>, at: nat, n: nat)
    requires st.Ok() && |p| == FRAME && (p[0] == RECORDS || p[0] == LAST_PART)
    requires p[3] == at && p[4] == n && 1 <= n <= PER_FRAME
    requires RECORD * (at + n) <= |raw| && st.incoming == raw[..RECORD * at]
    requires p[5..5 + RECORD * n] == raw[RECORD * at..RECORD * (at + n)]
    ensures Step(st, p) == Gather(st, raw[..RECORD * (at + n)], p[0] == LAST_PART, Word16(p[1..]))
  {
    hide Gather, Word16;
    assert raw[..RECORD * at] + raw[RECORD * at..RECORD * (at + n)] == raw[..RECORD * (at + n)];
  }

  lemma RecordsTaken(st: Store, rs: seq<MacroRecord>, at: nat)
    requires st.Ok() && at < |rs| <= MAX_RECORDS && st.incoming == Raw(rs, |rs|)[..RECORD * at]
    ensures at + Carries(rs, at) < |rs| ==>
              Step(st, Frame(RecordsData(rs, at))) ==
              (st.(incoming := Raw(rs, |rs|)[..RECORD * (at + Carries(rs, at))]), true)
    ensures at + Carries(rs, at) == |rs| ==>
              Step(st, Frame(RecordsData(rs, at))) ==
              (Store(st.macros[st.at := st.macros[st.at].(records := rs)], st.at, []), true)
  {
    hide RecordsData, Frame, Raw, Sum, Step, Word16, RecordsIn, Carries, Gather;
    var p, raw, n := Frame(RecordsData(rs, at)), Raw(rs, |rs|), Carries(rs, at);
    RecordsHead(rs, at);
    RecordsBody(rs, at);
    RecordsAdded(st, p, raw, at, n);
    if at + n == |rs| {
      assert raw[..RECORD * (at + n)] == raw;
      GatherAll(st, rs);
    } else {
      GatherMore(st, raw[..RECORD * (at + n)], Word16(p[1..]));
    }
  }

  // ---- Each reply says what is stored

  lemma HeaderAnswer(st: Store, button: Byte)
    requires st.Ok() && ButtonOk(button)
    ensures var m := st.macros[SlotOf(button)];
            var r := Answer(st, Frame([HEADER, 0, button]));
            && r.0 == SlotOf(button) && r.1.Some? && |r.1.value| == 11 && r.1.value[1] == |m.records| % 256
            && Word16(r.1.value[3..]) == m.cycles && Word16(r.1.value[9..]) == m.interval
  {
    var m := st.macros[SlotOf(button)];
    var d := Answer(st, Frame([HEADER, 0, button])).1.value;
    assert d[3] == Le16(m.cycles)[0] && d[4] == Le16(m.cycles)[1];
    assert d[9] == Le16(m.interval)[0] && d[10] == Le16(m.interval)[1];
    Word16After(d, 3, m.cycles);
    Word16After(d, 9, m.interval);
  }

  lemma NameAnswer(st: Store, button: Byte, block: nat)
    requires st.Ok() && ButtonOk(button) && block < 2
    ensures var r := Answer(st, Frame([NAME, button, block * 8]));
            && r.0 == st.at && r.1.Some? && |r.1.value| == 3 + NAME_BLOCK
            && r.1.value[3..] == st.macros[SlotOf(button)].name[NAME_BLOCK * block..NAME_BLOCK * (block + 1)]
  {
    var p := Frame([NAME, button, block * 8]);
    assert p[0] == NAME && p[1] == button && p[2] == block * 8;
  }

  /** The records a reply carries, taken out of its bytes. */
  lemma RecordsAnswer(st: Store, at: nat, n: nat)
    requires st.Ok() && at + n <= |st.macros[st.at].records| && at < 256 && n <= PER_FRAME
    ensures var r := Answer(st, Frame([RECORDS, 0, 0, at, n]));
            && r.0 == st.at && r.1.Some? && |r.1.value| == 5 + RECORD * n
            && RecordsIn(r.1.value[5..], n) == st.macros[st.at].records[at..at + n]
  {
    var p := Frame([RECORDS, 0, 0, at, n]);
    assert p[0] == RECORDS && p[3] == at && p[4] == n;
    var rs := st.macros[st.at].records[at..at + n];
    assert Answer(st, p) == (st.at, Some(p[..5] + Raw(rs, n)));
    assert (p[..5] + Raw(rs, n))[5..] == Raw(rs, n);
    hide Answer, Frame, Raw, RecordsIn;
    RecordsRoundTrip(rs, n);
    assert rs[..n] == rs;
  }

  // ---- Known requests

  /** A macro of three records for button four: a key down and up and a mouse button, twice, half a second apart. */
  const GO := Macro(2, 500, [0, 0x47, 0, 0x6f], [MacroRecord(10, 4, 10), MacroRecord(2, 4, 300), MacroRecord(15, 1, 0)])

  /** Its header, and the blocks of its name. */
  lemma KnownHeader()
    ensures HeaderData(4, GO) == [1, 3, 4, 2, 0, 2, 0, 0, 0x20, 0xf4, 1]
    ensures NameData(4, FullName(GO), 0) == [4, 4, 0, 0, 0x47, 0, 0x6f, 0, 0, 0, 0, 0, 0]
    ensures NameData(4, FullName(GO), 1) == [4, 4, 8] + Fill(10, 0) && NameData(4, FullName(GO), 2) == [4, 4, 16] + Fill(10, 0)
  {
    assert Le16(2) == [2, 0] && Le16(500) == [0xf4, 1];
    hide Le16;
  }

  /** Its records two to a report, the last report marked three and with the sum of all fifteen bytes. */
  lemma KnownRecords()
    ensures RecordsData(GO.records, 0) == [2, 0, 0, 0, 2, 10, 4, 0, 10, 0, 2, 4, 0, 0x2c, 1]
    ensures RecordsData(GO.records, 2) == [3, 0x5b, 0, 2, 1, 15, 1, 0, 0, 0]
  {
    GoRaw();
    GoSum();
    hide Raw, Sum;
    assert Le16(0x5b) == [0x5b, 0];
  }

  const GO_RAW: seq<Byte> := [10, 4, 0, 10, 0, 2, 4, 0, 0x2c, 1, 15, 1, 0, 0, 0]

  lemma GoRaw()
    ensures Raw(GO.records, 3) == GO_RAW
  {
    var rs := GO.records;
    assert Le16(4) == [4, 0] && Le16(10) == [10, 0] && Le16(300) == [0x2c, 1] && Le16(1) == [1, 0] && Le16(0) == [0, 0];
    hide Le16;
    assert Raw(rs, 0) == [] && Raw(rs, 1) == [10, 4, 0, 10, 0];
    assert Raw(rs, 2) == [10, 4, 0, 10, 0, 2, 4, 0, 0x2c, 1];
  }

  lemma GoSum()
    ensures Sum(GO_RAW, 15) == 91
  {
    assert Sum(GO_RAW, 3) == 14;
    assert Sum(GO_RAW, 6) == 26;
    assert Sum(GO_RAW, 9) == 74;
    assert Sum(GO_RAW, 12) == 91;
  }
}

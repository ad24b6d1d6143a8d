/**
 Ultimate 2 requests and replies: the 64-byte report, the header every request carries, and the two
 wrappers it comes in.
 */
module U2Frames {
  import opened Bytes
  import opened U2Crc

  const REPORT: nat := 64
  const DATA_AT: nat := 18
  const HEADER_LEN: nat := 16
  const MOST_DATA: nat := 45
  const FILLER: Byte := 0xcc
  const CMD_WRITE: U16 := 0x0001
  const CMD_MACRO_WRITE: U16 := 0x0103

  /** Direct: the header follows the report id. Counted: a count of what follows comes between them. */
  datatype Framing = Direct | Counted | CountedNoCrc

  /** A request as the session asks for it: a bare one carries nothing, a carrying one length bytes. */
  datatype Request = Request(cmd: U16, carrying: bool, arg: U16, data: seq<Byte>, length: U16, total: U32, offset: U32)
  {
    /** A bare request gives no data; a carrying one no more than it says and a report holds. */
    predicate Valid() {
      if carrying then |data| <= length && length <= MOST_DATA else data == []
    }

    /** What a carrying request carries: the data, and filler for the rest of the length. */
    function Body(): (body: seq<Byte>)
      requires Valid()
      ensures |body| == if carrying then length as int else 0
    {
      if carrying then data + Fill(length - |data|, FILLER) else []
    }
  }

  /** The check a request carries: none on a bare one, nor through the adapter that is sent none. */
  function CheckOf(f: Framing, r: Request): U16
    requires r.Valid()
  {
    if !r.carrying || f == CountedNoCrc then 0 else Crc(r.Body())
  }

  function Header(f: Framing, r: Request): (h: seq<Byte>)
    requires r.Valid()
    ensures |h| == HEADER_LEN
  {
    Le16(r.cmd) + Le16(r.arg) + Le16(r.length) + Le16(CheckOf(f, r)) + Le32(r.total) + Le32(r.offset)
  }

  /** The report that asks for a request. */
  function Frame(f: Framing, r: Request): (frame: seq<Byte>)
    requires r.Valid()
    ensures |frame| == REPORT
  {
    var n := |r.Body()|;
    if f == Direct then [0x81, 0x04] + Header(f, r) + r.Body() + Fill(REPORT - DATA_AT - n, 0)
    else [0x81, 1 + HEADER_LEN + n, 0x04] + Header(f, r) + r.Body() + Fill(REPORT - DATA_AT - 1 - n, 0)
  }

  // ---- The device's side

  /** What a controller takes a direct report to say. */
  datatype Asked = Asked(cmd: U16, arg: U16, length: U16, crc: U16, total: U32, offset: U32, data: seq<Byte>)

  function Parse(frame: seq<Byte>): (a: Option<Asked>)
  {
    if |frame| != REPORT || frame[0] != 0x81 || frame[1] != 0x04 then None
    else
      var length := Word16(frame[6..]);
      Some(Asked(Word16(frame[2..]), Word16(frame[4..]), length, Word16(frame[8..]), Word32(frame[10..]), Word32(frame[14..]),
                 if DATA_AT + length <= REPORT then frame[DATA_AT..DATA_AT + length] else []))
  }

  /** The direct form of a counted report, unless its count does not cover what it says it carries. */
  function Unwrap(frame: seq<Byte>): (direct: Option<seq<Byte>>)
    ensures direct.Some? ==> |direct.value| == REPORT
  {
    if |frame| != REPORT || frame[0] != 0x81 || frame[2] != 0x04 || frame[1] < 1 + HEADER_LEN || frame[1] > REPORT - 2 then None
    else
      var direct := [0x81] + frame[2..2 + frame[1]] + Fill(REPORT - 1 - frame[1], 0);
      var cmd := Word16(direct[2..]);
      if (cmd == CMD_WRITE || cmd == CMD_MACRO_WRITE) && frame[1] as int != 1 + HEADER_LEN + Word16(direct[6..]) then None
      else Some(direct)
  }

  function Receive(f: Framing, frame: seq<Byte>): Option<Asked> {
    if f == Direct then Parse(frame)
    else match Unwrap(frame)
         case None => None
         case Some(direct) => Parse(direct)
  }

  /** A direct report is taken by its marks. */
  lemma DirectTaken(frame: seq<Byte>)
    ensures Receive(Direct, frame).Some? <==> |frame| == 64 && frame[0] == 0x81 && frame[1] == 0x04
  {
  }

  /** A counted write is taken only where its count is its header's and its data's. */
  lemma MiscountedRefused(f: Framing, frame: seq<Byte>)
    requires f != Direct && |frame| == REPORT && Receive(f, frame).Some?
    ensures frame[0] == 0x81 && frame[2] == 0x04 && 17 <= frame[1] <= 62
    ensures Word16(frame[3..]) in {0x0001, 0x0103} ==> frame[1] as int == 17 + Word16(frame[7..])
  {
    var direct := [0x81] + frame[2..2 + frame[1]] + Fill(REPORT - 1 - frame[1], 0);
    assert forall i :: 2 <= i < 2 + frame[1] as int ==> direct[i - 1] == frame[i];
    assert Word16(direct[2..]) == Word16(frame[3..]) && Word16(direct[6..]) == Word16(frame[7..]);
  }

  /** The fields of a request's header, and its body if it has one. */
  predicate Carries(f: Framing, a: Asked, r: Request)
    requires r.Valid()
  {
    && a.cmd == r.cmd && a.arg == r.arg && a.length == r.length && a.crc == CheckOf(f, r) && a.total == r.total && a.offset == r.offset
    && (r.carrying ==> a.data == r.Body())
  }

  /**
   What a request must be taken to say: everything it was built from. A carrying one's bytes are its
   data and filler up to the length, and its check is theirs, except through the adapter.
   */
  ghost predicate Says(f: Framing, a: Asked, r: Request) {
    && a.cmd == r.cmd && a.arg == r.arg && a.length == r.length && a.total == r.total && a.offset == r.offset
    && (r.carrying ==> |a.data| == r.length && r.data <= a.data && forall i :: |r.data| <= i < r.length ==> a.data[i] == 0xcc)
    && a.crc == if r.carrying && f != CountedNoCrc then Crc(a.data) else 0
  }

  lemma CarriesSays(f: Framing, a: Asked, r: Request)
    requires r.Valid() && Carries(f, a, r)
    ensures Says(f, a, r)
  {
  }

  lemma WordsIn(s: seq<Byte>, at: nat, two: seq<Byte>)
    requires |two| == 2 && at + 2 <= |s| && s[at..at + 2] == two
    ensures Word16(s[at..]) == Word16(two)
  {
    assert s[at..][0] == s[at..at + 2][0] && s[at..][1] == s[at..at + 2][1];
  }

  lemma LongsIn(s: seq<Byte>, at: nat, four: seq<Byte>)
    requires |four| == 4 && at + 4 <= |s| && s[at..at + 4] == four
    ensures Word32(s[at..]) == Word32(four)
  {
    assert forall k :: 0 <= k < 4 ==> s[at..][k] == s[at..at + 4][k];
  }

  lemma HeaderParts(f: Framing, r: Request)
    requires r.Valid()
    ensures Header(f, r)[0..2] == Le16(r.cmd) && Header(f, r)[2..4] == Le16(r.arg) && Header(f, r)[4..6] == Le16(r.length)
    ensures Header(f, r)[6..8] == Le16(CheckOf(f, r)) && Header(f, r)[8..12] == Le32(r.total) && Header(f, r)[12..16] == Le32(r.offset)
  {
    hide Le16, Le32, CheckOf;
  }

  lemma SliceAfter(front: seq<Byte>, s: seq<Byte>, rest: seq<Byte>, a: nat, b: nat)
    requires a <= b <= |s|
    ensures (front + s + rest)[|front| + a..|front| + b] == s[a..b]
  {
  }

  /** A direct report says what it was built from, whatever follows its body. */
  lemma DirectSays(f: Framing, r: Request, rest: seq<Byte>)
    requires r.Valid() && |r.Body()| + |rest| == REPORT - DATA_AT
    ensures var a := Parse([0x81, 0x04] + Header(f, r) + r.Body() + rest); a.Some? && Carries(f, a.value, r)
  {
    hide Word16, Word32, Le16, Le32, CheckOf, Request.Body, Request.Valid, Header;
    var frame := [0x81, 0x04] + Header(f, r) + r.Body() + rest;
    var start: seq<Byte> := [0x81, 0x04];
    assert frame == start + Header(f, r) + (r.Body() + rest);
    HeaderParts(f, r);
    SliceAfter(start, Header(f, r), r.Body() + rest, 0, 2);
    SliceAfter(start, Header(f, r), r.Body() + rest, 2, 4);
    SliceAfter(start, Header(f, r), r.Body() + rest, 4, 6);
    SliceAfter(start, Header(f, r), r.Body() + rest, 6, 8);
    SliceAfter(start, Header(f, r), r.Body() + rest, 8, 12);
    SliceAfter(start, Header(f, r), r.Body() + rest, 12, 16);
    WordsIn(frame, 2, Le16(r.cmd));
    WordsIn(frame, 4, Le16(r.arg));
    WordsIn(frame, 6, Le16(r.length));
    WordsIn(frame, 8, Le16(CheckOf(f, r)));
    LongsIn(frame, 10, Le32(r.total));
    LongsIn(frame, 14, Le32(r.offset));
    Word16OfLe16(r.cmd);
    Word16OfLe16(r.arg);
    Word16OfLe16(r.length);
    Word16OfLe16(CheckOf(f, r));
    Word32OfLe32(r.total);
    Word32OfLe32(r.offset);
    if r.carrying {
      assert frame[DATA_AT..DATA_AT + r.length] == r.Body();
    }
  }

  function DirectFrame(f: Framing, r: Request): (frame: seq<Byte>)
    requires r.Valid()
    ensures |frame| == REPORT
  {
    [0x81, 0x04] + Header(f, r) + r.Body() + Fill(REPORT - DATA_AT - |r.Body()|, 0)
  }

  /** What a counted wrapper's frame counts, with the padding of a direct one, is the direct frame. */
  lemma CountedIsDirect(f: Framing, r: Request, n: nat)
    requires r.Valid() && f != Direct && n == |r.Body()|
    ensures DATA_AT + 1 + n <= REPORT
    ensures [0x81] + Frame(f, r)[2..2 + (1 + HEADER_LEN + n)] + Fill(REPORT - 1 - (1 + HEADER_LEN + n), 0) == DirectFrame(f, r)
    ensures Frame(f, r)[0] == 0x81 && Frame(f, r)[1] as int == 1 + HEADER_LEN + n && Frame(f, r)[2] == 0x04
  {
    hide Header, CheckOf, Request.Body;
    CountedJoin(Header(f, r), r.Body(), n);
  }

  lemma CountedJoin(h: seq<Byte>, b: seq<Byte>, n: nat)
    requires |h| == HEADER_LEN && |b| == n && DATA_AT + 1 + n <= REPORT
    ensures var frame := [0x81, 1 + HEADER_LEN + n, 0x04] + h + b + Fill(REPORT - DATA_AT - 1 - n, 0);
            [0x81] + frame[2..2 + (1 + HEADER_LEN + n)] + Fill(REPORT - 1 - (1 + HEADER_LEN + n), 0)
            == [0x81, 0x04] + h + b + Fill(REPORT - DATA_AT - n, 0)
  {
    var head: seq<Byte>, counted: seq<Byte>, pad := [0x81, 1 + HEADER_LEN + n], [0x04] + h + b, Fill(REPORT - DATA_AT - 1 - n, 0);
    assert [0x81, 1 + HEADER_LEN + n, 0x04] + h + b + pad == head + counted + pad;
    CountedPart(head, counted, pad);
  }

  lemma CountedUnwraps(f: Framing, r: Request)
    requires r.Valid() && f != Direct && (r.cmd == CMD_WRITE || r.cmd == CMD_MACRO_WRITE ==> r.carrying)
    requires Parse(DirectFrame(f, r)).Some? && Carries(f, Parse(DirectFrame(f, r)).value, r)
    ensures Unwrap(Frame(f, r)) == Some(DirectFrame(f, r))
  {
    CountCovers(f, r, DirectFrame(f, r));
    CountedIsDirect(f, r, |r.Body()|);
    hide Word16, Word32, Header, CheckOf, Request.Body, Carries, Parse, Frame, DirectFrame;
  }

  /** A counted report is its two first bytes, what it counts, and padding. */
  lemma CountedPart(head: seq<Byte>, counted: seq<Byte>, pad: seq<Byte>)
    requires |head| == 2
    ensures (head + counted + pad)[2..2 + |counted|] == counted
  {
  }

  /** In every wrapper, the controller takes a request to say exactly what the session asked. */
  lemma RequestUnderstood(f: Framing, r: Request)
    requires r.Valid() && (r.cmd == CMD_WRITE || r.cmd == CMD_MACRO_WRITE ==> r.carrying)
    ensures Receive(f, Frame(f, r)).Some? && Says(f, Receive(f, Frame(f, r)).value, r)
  {
    hide Parse, Unwrap, Header, Carries, Says, Request.Body;
    DirectSays(f, r, Fill(REPORT - DATA_AT - |r.Body()|, 0));
    if f != Direct {
      hide Frame;
      CountedUnwraps(f, r);
    }
    CarriesSays(f, Receive(f, Frame(f, r)).value, r);
  }

  lemma CountCovers(f: Framing, r: Request, direct: seq<Byte>)
    requires r.Valid() && (r.cmd == CMD_WRITE || r.cmd == CMD_MACRO_WRITE ==> r.carrying) && |direct| == REPORT
    requires Parse(direct).Some? && Carries(f, Parse(direct).value, r)
    ensures Word16(direct[2..]) == r.cmd && Word16(direct[6..]) == r.length
    ensures r.carrying ==> |r.Body()| == r.length
  {
  }

  // ---- Building one in place

  /** A sequence with some of it replaced. */
  function Put(s: seq<Byte>, at: nat, bytes: seq<Byte>): (r: seq<Byte>)
    requires at + |bytes| <= |s|
    ensures |r| == |s|
  {
    s[..at] + bytes + s[at + |bytes|..]
  }

  /** A part apart from what was put is what it was. */
  lemma PutKeeps(s: seq<Byte>, at: nat, bytes: seq<Byte>, i: nat, j: nat)
    requires at + |bytes| <= |s| && i <= j <= |s| && (j <= at || at + |bytes| <= i)
    ensures Put(s, at, bytes)[i..j] == s[i..j]
  {
  }

  method PutAt(frame: array<Byte>, at: nat, bytes: seq<Byte>)
    requires at + |bytes| <= frame.Length
    modifies frame
    ensures frame[..] == Put(old(frame[..]), at, bytes)
  {
    forall i | 0 <= i < |bytes| {
      frame[at + i] := bytes[i];
    }
  }

  /** Two neighbours put one after the other are put at once. */
  lemma PutBoth(s: seq<Byte>, at: nat, a: seq<Byte>, b: seq<Byte>)
    requires at + |a| + |b| <= |s|
    ensures Put(Put(s, at, a), at + |a|, b) == Put(s, at, a + b)
  {
  }

  /** Putting what is there changes nothing. */
  lemma PutSame(s: seq<Byte>, at: nat, b: seq<Byte>)
    requires at + |b| <= |s| && s[at..at + |b|] == b
    ensures Put(s, at, b) == s
  {
    assert s == s[..at] + s[at..at + |b|] + s[at + |b|..];
  }

  /** Fills in the header from a position on, over zeros. */
  method PutHeader(frame: array<Byte>, at: nat, f: Framing, r: Request)
    requires r.Valid() && at + HEADER_LEN <= frame.Length && frame[at..at + HEADER_LEN] == Fill(HEADER_LEN, 0)
    modifies frame
    ensures frame[..] == Put(old(frame[..]), at, Header(f, r))
  {
    hide Le16, Le32, Crc, Request.Body, Put;
    ghost var s, c := frame[..], Le16(r.cmd) + Le16(r.arg) + Le16(r.length);
    PutAt(frame, at, Le16(r.cmd));
    PutAt(frame, at + 2, Le16(r.arg));
    PutBoth(s, at, Le16(r.cmd), Le16(r.arg));
    PutAt(frame, at + 4, Le16(r.length));
    PutBoth(s, at, Le16(r.cmd) + Le16(r.arg), Le16(r.length));
    assert frame[..] == Put(s, at, c);
    if r.carrying && f != CountedNoCrc {
      var crc := ComputeCrc(r.Body());
      PutAt(frame, at + 6, Le16(crc));
    } else {
      PutKeeps(s, at, c, at + 6, at + 8);
      ZeroCheck(s, at, at + 6);
      PutSame(Put(s, at, c), at + 6, Le16(0));
    }
    PutBoth(s, at, c, Le16(CheckOf(f, r)));
    PutAt(frame, at + 8, Le32(r.total));
    PutBoth(s, at, c + Le16(CheckOf(f, r)), Le32(r.total));
    PutAt(frame, at + 12, Le32(r.offset));
    PutBoth(s, at, c + Le16(CheckOf(f, r)) + Le32(r.total), Le32(r.offset));
  }

  /** Fills in a request from its row template: the report id, the 04 marker and the command. */
  method BuildRequest(f: Framing, r: Request) returns (frame: array<Byte>)
    requires r.Valid()
    ensures fresh(frame) && frame[..] == Frame(f, r)
  {
    hide Header, Request.Body, Put;
    var body := r.Body();
    var start := if f == Direct then [0x81, 0x04] else [0x81, 1 + HEADER_LEN + |body|, 0x04];
    frame := new Byte[REPORT](_ => 0);
    ghost var zeros := Fill(REPORT, 0);
    assert frame[..] == zeros;
    PutAt(frame, 0, start);
    PutKeeps(zeros, 0, start, |start|, |start| + HEADER_LEN);
    ZeroPart(|start|);
    PutHeader(frame, |start|, f, r);
    PutBoth(zeros, 0, start, Header(f, r));
    PutAt(frame, |start| + HEADER_LEN, body);
    PutBoth(zeros, 0, start + Header(f, r), body);
    OverZeros(start + Header(f, r) + body);
  }

  lemma ZeroPart(at: nat)
    requires at + HEADER_LEN <= REPORT
    ensures Fill(REPORT, 0)[at..at + HEADER_LEN] == Fill(HEADER_LEN, 0)
  {
  }

  lemma OverZeros(bytes: seq<Byte>)
    requires |bytes| <= REPORT
    ensures Put(Fill(REPORT, 0), 0, bytes) == bytes + Fill(REPORT - |bytes|, 0)
  {
  }

  lemma ZeroCheck(s: seq<Byte>, from: nat, at: nat)
    requires from <= at && at + 2 <= from + HEADER_LEN <= |s| && s[from..from + HEADER_LEN] == Fill(HEADER_LEN, 0)
    ensures s[at..at + 2] == Le16(0)
  {
    assert s[at] == s[from..from + HEADER_LEN][at - from] && s[at + 1] == s[from..from + HEADER_LEN][at + 1 - from];
  }

  // Counted requests as the vendor's library builds them.

  /** A commit. */
  lemma CommitFrame()
    ensures Frame(Counted, Request(0x0006, false, 0x0123, [], 0, 0, 0)) == [0x81, 0x11, 0x04, 0x06, 0, 0x23, 0x01] + Fill(57, 0)
  {
    assert Le16(0x0006) == [6, 0] && Le16(0x0123) == [0x23, 0x01];
  }

  const SELECT := Request(0x0014, true, 3, [], 0, 0, 0)
  const WRITE := Request(CMD_WRITE, true, 0, [1, 2, 3, 4], 4, 0x914, 0x98)

  /** A platform chosen: it carries nothing, and the check of nothing. */
  lemma SelectFrame()
    ensures Frame(Counted, SELECT) == [0x81, 0x11, 0x04, 0x14, 0, 3, 0, 0, 0, 0xff, 0xff] + Fill(53, 0)
  {
    assert SELECT.Body() == [];
    SelectHeader();
    hide Header, Request.Body;
  }

  lemma SelectHeader()
    ensures Header(Counted, SELECT) == [0x14, 0, 3, 0, 0, 0, 0xff, 0xff, 0, 0, 0, 0, 0, 0, 0, 0]
  {
    hide CheckOf, Le16, Le32;
    KnownChecks();
    SelectWords();
  }

  lemma KnownChecks()
    ensures CheckOf(Counted, SELECT) == 0xffff && CheckOf(Counted, WRITE) == 0x2ba1
  {
    hide Crc;
    SmallValues();
    assert SELECT.Body() == [] && WRITE.Body() == [1, 2, 3, 4];
  }

  /** Four bytes written. */
  lemma WriteFrame()
    ensures Frame(Counted, WRITE)
         == [0x81, 0x15, 0x04, 0x01, 0, 0, 0, 4, 0, 0xa1, 0x2b, 0x14, 0x09, 0, 0, 0x98, 0, 0, 0, 1, 2, 3, 4] + Fill(41, 0)
  {
    assert WRITE.Body() == [1, 2, 3, 4];
    WriteHeader();
    hide Header, Request.Body;
  }

  lemma WriteHeader()
    ensures Header(Counted, WRITE) == [1, 0, 0, 0, 4, 0, 0xa1, 0x2b, 0x14, 0x09, 0, 0, 0x98, 0, 0, 0]
  {
    hide CheckOf, Le16, Le32;
    KnownChecks();
    WriteWords();
  }

  lemma SelectWords()
    ensures Le16(0x0014) == [0x14, 0] && Le16(3) == [3, 0] && Le16(0) == [0, 0] && Le16(0xffff) == [0xff, 0xff] && Le32(0) == [0, 0, 0, 0]
  {
  }

  lemma WriteWords()
    ensures Le16(CMD_WRITE) == [1, 0] && Le16(0) == [0, 0] && Le16(4) == [4, 0] && Le16(0x2ba1) == [0xa1, 0x2b]
    ensures Le32(0x914) == [0x14, 0x09, 0, 0] && Le32(0x98) == [0x98, 0, 0, 0]
  {
  }

  // ---- Replies

  function Reply(cmd: U16, length: U16, data: seq<Byte>): (frame: seq<Byte>)
    requires |data| <= REPORT - DATA_AT
    ensures |frame| == REPORT
  {
    [0x02, 0x04, 4, 0] + Le16(cmd) + Le16(length) + Fill(10, 0) + data + Fill(REPORT - DATA_AT - |data|, 0)
  }

  /** Whether a response answers a command; and if so, its declared length and its data. */
  function ReplyFor(response: seq<Byte>, cmd: U16): (r: Option<(U16, seq<Byte>)>) {
    if |response| < DATA_AT || response[0] != 0x02 || response[1] != 0x04 then None
    else if Word16(response[2..]) != 4 || Word16(response[4..]) != cmd then None
    else
      var length := Word16(response[6..]);
      Some((length, response[DATA_AT..][..Min(length, |response| - DATA_AT)]))
  }

  /** A response answers a command exactly when it has the marks of a reply and that command's number; its data is no longer than it says. */
  lemma ReplyTaken(response: seq<Byte>, cmd: U16)
    ensures ReplyFor(response, cmd).Some? <==>
            |response| >= 18 && response[..4] == [0x02, 0x04, 4, 0] && response[4] == cmd % 256 && response[5] == cmd / 256
    ensures ReplyFor(response, cmd).Some? ==>
              var (length, data) := ReplyFor(response, cmd).value;
              && length == response[6] as int + 0x100 * response[7] as int && data <= response[18..]
              && |data| == if length < |response| - 18 then length else |response| - 18
  {
    if |response| >= 18 {
      assert response[..4][0] == response[0] && response[..4][1] == response[1] && response[..4][2] == response[2] && response[..4][3] == response[3];
    }
  }

  /** A reply is taken as the answer to its own command and to no other, with the bytes it carries. */
  lemma ReplyUnderstood(cmd: U16, asked: U16, data: seq<Byte>)
    requires |data| <= REPORT - DATA_AT
    ensures ReplyFor(Reply(cmd, |data|, data), asked) == if asked == cmd then Some((|data|, data)) else None
  {
    hide Word16, Le16;
    var frame := Reply(cmd, |data|, data);
    WordsIn(frame, 2, [4, 0]);
    WordsIn(frame, 4, Le16(cmd));
    WordsIn(frame, 6, Le16(|data|));
    Word16OfLe16(cmd);
    Word16OfLe16(|data|);
    MarkerWord();
    assert frame[DATA_AT..][..|data|] == data;
  }

  lemma MarkerWord()
    ensures Word16([4, 0]) == 4
  {
  }
}

/**
 A JP108 keyboard's macro storage and the session's chunked transfers: a value goes up in reports of
 25 and then 24 bytes, and comes down in reports of 26.
 */
module JpDevice {
  import opened Bytes
  import opened JpMacros

  const FIRST_CHUNK: nat := 25
  const CHUNK: nat := 24
  const REPLY: nat := 26
  const VALUE_MAX: nat := 604
  const SLOTS: nat := 8
  const NAME_MAX: nat := 28

  /** One report of a value on its way down: its data field and whether another follows. */
  datatype Reply = Reply(data: seq<Byte>, more: bool)

  /** A chunk in a report's data field, the rest of it zero. */
  function Padded(chunk: seq<Byte>): (data: seq<Byte>)
    requires |chunk| <= REPLY
    ensures |data| == REPLY && data[..|chunk|] == chunk
  {
    chunk + Fill(REPLY - |chunk|, 0)
  }

  /** What the keyboard keeps of an assembled value: no more than its step count says. */
  function Trim(v: seq<Byte>): (r: seq<Byte>) {
    if |v| >= HEADER then v[..Min(|v|, HEADER + 3 * v[3] as int)] else v
  }

  function Replies(v: seq<Byte>, offset: nat): (replies: seq<Reply>)
    requires offset <= |v|
    ensures replies != []
    decreases |v| - offset
  {
    var end := Min(|v|, offset + REPLY);
    [Reply(Padded(v[offset..end]), end < |v|)] + if end < |v| then Replies(v, end) else []
  }

  class Keyboard {
    /** The keyboard acknowledges writes without keeping them. */
    const ignoreWrites: bool
    var names: map<Byte, seq<Byte>>
    var values: map<Byte, seq<Byte>>
    var staging: seq<Byte>
    var pending: seq<Reply>

    constructor (ignoreWrites: bool, names: map<Byte, seq<Byte>>, values: map<Byte, seq<Byte>>)
      ensures this.ignoreWrites == ignoreWrites && this.names == names && this.values == values
      ensures staging == [] && pending == []
    {
      this.ignoreWrites, this.names, this.values, this.staging, this.pending := ignoreWrites, names, values, [], [];
    }

    /** One report of a value: a chunk out of place is dropped, and only the last is acknowledged. */
    method ReceiveValue(key: Byte, more: bool, offset: nat, declared: nat, data: seq<Byte>) returns (acked: bool)
      requires |data| == REPLY
      modifies this
      ensures names == old(names) && pending == old(pending)
      ensures var before := if offset == 0 then [] else old(staging);
              if offset != |before| then
                !acked && staging == before && values == old(values)
              else if more then
                !acked && staging == before + data[..Min(declared, REPLY)] && values == old(values)
              else
                acked && staging == [] &&
                values == if ignoreWrites then old(values) else old(values)[key := Trim(before + data[..Min(declared, REPLY)])]
    {
      if offset == 0 { staging := []; }
      if offset != |staging| { return false; }
      staging := staging + data[..Min(declared, REPLY)];
      if more { return false; }
      var value := Trim(staging);
      staging := [];
      if !ignoreWrites {
        values := values[key := value];
      }
      return true;
    }

    method ReceiveName(key: Byte, name: seq<Byte>) returns (acked: bool)
      modifies this
      ensures acked && values == old(values) && staging == old(staging) && pending == old(pending)
      ensures names == if ignoreWrites then old(names) else old(names)[key := name]
    {
      if !ignoreWrites {
        names := names[key := name];
      }
      return true;
    }

    method Clear(key: Byte)
      modifies this
      ensures names == old(names) - {key} && values == old(values) - {key} && staging == old(staging) && pending == old(pending)
    {
      names, values := names - {key}, values - {key};
    }

    /** Queues a value's replies; a key with no macro answers with an empty one. */
    method AskValue(key: Byte)
      modifies this
      ensures names == old(names) && values == old(values) && staging == old(staging)
      ensures pending == old(pending) + Replies(if key in values then values[key] else [], 0)
    {
      pending := pending + Replies(if key in values then values[key] else [], 0);
    }

    method Next() returns (reply: Option<Reply>)
      modifies this
      ensures names == old(names) && values == old(values) && staging == old(staging)
      ensures if old(pending) == [] then reply.None? && pending == []
              else reply == Some(old(pending)[0]) && pending == old(pending)[1..]
    {
      if pending == [] { return None; }
      reply := Some(pending[0]);
      pending := pending[1..];
    }
  }

  /** A value the writer takes: a header and 1 to 200 steps, as many as it declares. */
  predicate ValueOk(v: seq<Byte>) {
    HEADER + 3 <= |v| <= VALUE_MAX && (|v| - HEADER) % 3 == 0 && v[3] as int * 3 == |v| - HEADER
  }

  /** Every valid macro encodes to a value the writer takes. */
  lemma EncodedIsTaken(m: Macro)
    requires Valid(m)
    ensures ValueOk(Value(m))
  {
    HeaderReads(m);
  }

  lemma TrimKeeps(v: seq<Byte>, rest: seq<Byte>)
    requires ValueOk(v)
    ensures Trim(v + rest) == v
  {
  }

  /** Sends a value, and says whether the keyboard acknowledged it. */
  method WriteValue(k: Keyboard, key: Byte, value: seq<Byte>) returns (ok: bool)
    requires ValueOk(value)
    modifies k
    ensures ok && k.staging == [] && k.names == old(k.names) && k.pending == old(k.pending)
    ensures k.values == if k.ignoreWrites then old(k.values) else old(k.values)[key := value]
  {
    hide Padded, Trim, ValueOk;
    if |value| <= FIRST_CHUNK {
      SingleReport(value);
      ok := k.ReceiveValue(key, false, 0, REPLY, Padded(value));
      return;
    }
    ok := k.ReceiveValue(key, true, 0, FIRST_CHUNK, Padded(value[..FIRST_CHUNK]));
    var offset := FIRST_CHUNK;
    while true
      invariant FIRST_CHUNK <= offset < |value| && k.staging == value[..offset]
      invariant k.values == old(k.values) && k.names == old(k.names) && k.pending == old(k.pending)
      decreases |value| - offset
    {
      var end := Min(|value|, offset + CHUNK);
      var last := end == |value|;
      JoinSlices(value, 0, offset, end);
      assert value[..offset] + value[offset..end] == value[..end];
      ok := k.ReceiveValue(key, !last, offset, end - offset, Padded(value[offset..end]));
      if last {
        WholeValue(value);
        return;
      }
      offset := end;
    }
  }

  lemma SingleReport(v: seq<Byte>)
    requires ValueOk(v) && |v| <= REPLY
    ensures Trim([] + Padded(v)[..Min(REPLY, REPLY)]) == v
  {
    TrimKeeps(v, Fill(REPLY - |v|, 0));
    assert [] + Padded(v)[..REPLY] == v + Fill(REPLY - |v|, 0);
  }

  lemma WholeValue(v: seq<Byte>)
    requires ValueOk(v)
    ensures Trim(v[..|v|]) == v
  {
    TrimKeeps(v, []);
    assert v[..|v|] == v == v + [];
  }

  /** Stores a macro on a key: its name, then its value. A macro the key already plays is cleared first. */
  method WriteMacro(k: Keyboard, key: Byte, name: seq<Byte>, value: seq<Byte>) returns (ok: bool)
    modifies k
    ensures ok <==> ValueOk(value) && 0 < |name| <= NAME_MAX && (key in old(k.values) || |old(k.values)| < SLOTS)
    ensures !ok ==> k.values == old(k.values) && k.names == old(k.names)
    ensures ok && !k.ignoreWrites ==> k.values == old(k.values)[key := value] && k.names == old(k.names)[key := name]
    ensures ok && k.ignoreWrites && key in old(k.values) ==> k.values == old(k.values) - {key} && k.names == old(k.names) - {key}
    ensures k.pending == old(k.pending)
  {
    if !ValueOk(value) || |name| == 0 || |name| > NAME_MAX { return false; }
    hide ValueOk;
    var plays := key in k.values;
    if !plays && |k.values| >= SLOTS { return false; }
    if plays {
      k.Clear(key);
    }
    ok := k.ReceiveName(key, name);
    ok := WriteValue(k, key, value);
  }

  // ---- Reading one back

  /** What the session gathers of a value: its bytes, and the zeros that fill the last report. */
  function Gathered(v: seq<Byte>, offset: nat): (out: seq<Byte>)
    requires offset <= |v|
    decreases |v| - offset
  {
    var end := Min(|v|, offset + REPLY);
    Padded(v[offset..end]) + if end < |v| then Gathered(v, end) else []
  }

  lemma {:induction false} GatheredIs(v: seq<Byte>, offset: nat)
    requires offset <= |v|
    ensures v[offset..] <= Gathered(v, offset) && REPLY <= |Gathered(v, offset)|
    decreases |v| - offset
  {
    var end := Min(|v|, offset + REPLY);
    if end < |v| {
      GatheredIs(v, end);
      assert v[offset..] == v[offset..end] + v[end..];
    }
  }

  lemma NothingGathered()
    ensures Gathered([], 0) == Fill(REPLY, 0) && Fill(REPLY, 0)[..HEADER] == [0, 0, 0, 0]
  {
    assert Gathered([], 0) == Padded([][0..0]) + [] == Fill(REPLY, 0);
  }

  lemma NextReply(v: seq<Byte>, offset: nat)
    requires offset <= |v|
    ensures var end := Min(|v|, offset + REPLY);
            && Replies(v, offset)[0] == Reply(Padded(v[offset..end]), end < |v|)
            && Replies(v, offset)[1..] == (if end < |v| then Replies(v, end) else [])
            && Gathered(v, offset) == Padded(v[offset..end]) + if end < |v| then Gathered(v, end) else []
  {
    hide Padded;
  }

  /** Gathers the reports of a reply, giving up on one that does not end. */
  method Gather(k: Keyboard, ghost v: seq<Byte>) returns (r: Result<seq<Byte>>)
    requires k.pending == Replies(v, 0) && |v| <= VALUE_MAX
    modifies k
    ensures k.names == old(k.names) && k.values == old(k.values) && k.pending == []
    ensures r == Ok(Gathered(v, 0))
  {
    hide Padded, Replies, Gathered;
    var out: seq<Byte> := [];
    ghost var offset := 0;
    while true
      invariant offset <= |v| && k.names == old(k.names) && k.values == old(k.values)
      invariant k.pending == Replies(v, offset) && out + Gathered(v, offset) == Gathered(v, 0)
      invariant |out| == offset && (offset == 0 || offset < |v|)
      decreases |v| - offset
    {
      NextReply(v, offset);
      var reply := k.Next();
      if reply.None? { return Err; }
      assert reply.value.data + [] == reply.value.data;
      out := out + reply.value.data;
      if !reply.value.more {
        return Ok(out);
      }
      if |out| >= VALUE_MAX + REPLY { return Err; }
      offset := Min(|v|, offset + REPLY);
    }
  }

  /** What a gathered value is cut to: its header and the steps it declares. */
  function Cut(out: seq<Byte>): Result<seq<Byte>> {
    if |out| < HEADER || |out| < HEADER + 3 * out[3] as int then Err else Ok(out[..HEADER + 3 * out[3] as int])
  }

  lemma CutGathered(v: seq<Byte>)
    ensures ValueOk(v) ==> Cut(Gathered(v, 0)) == Ok(v)
    ensures v == [] ==> Cut(Gathered(v, 0)) == Ok([0, 0, 0, 0])
  {
    GatheredIs(v, 0);
    assert v[0..] == v;
    NothingGathered();
    hide Gathered;
    if ValueOk(v) {
      assert Gathered(v, 0)[3] == v[3] && Gathered(v, 0)[..|v|] == v;
    }
  }

  /** Reads the stored value of the macro on a key; a key that plays none reads as an empty macro. */
  method ReadValue(k: Keyboard, key: Byte) returns (r: Result<seq<Byte>>)
    requires k.pending == [] && (key in k.values ==> |k.values[key]| <= VALUE_MAX)
    modifies k
    ensures k.names == old(k.names) && k.values == old(k.values) && k.pending == []
    ensures key in k.values && ValueOk(k.values[key]) ==> r == Ok(k.values[key])
    ensures key !in k.values ==> r == Ok([0, 0, 0, 0])
  {
    hide ValueOk, Gathered, Replies;
    ghost var v := if key in k.values then k.values[key] else [];
    k.AskValue(key);
    r := Gather(k, v);
    CutGathered(v);
    if r.Ok? {
      r := Cut(r.value);
    }
  }

  /** Reads the macro a key plays. */
  method ReadMacro(k: Keyboard, key: Byte) returns (r: Result<Macro>)
    requires k.pending == [] && (key in k.values ==> |k.values[key]| <= VALUE_MAX)
    modifies k
    ensures k.names == old(k.names) && k.values == old(k.values)
    ensures forall m: Macro :: key in k.values && Valid(m) && k.values[key] == Value(m) ==> r == Ok(Normal(m))
  {
    var value := ReadValue(k, key);
    r := if value.Ok? then DecodeValue(value.value) else Err;
    forall m: Macro | key in k.values && Valid(m) && k.values[key] == Value(m)
      ensures r == Ok(Normal(m))
    {
      EncodedIsTaken(m);
      ValueRoundTrip(m);
    }
  }
}

/**
 A record keyboard that answers reads truthfully and, unless it is sound, may mistreat any write; and the
 session's chunked transfers over it.
 */
module KbDevice {
  import opened Bytes
  import opened KbTargets
  import opened KbCodec
  import opened KbMacros

  datatype Area = RecordArea | MacroArea | LightsArea

  const MAX_CHUNK: nat := 53

  /** Two stores that differ at most inside [at, at + len). */
  ghost predicate SameOutside(a: seq<Byte>, b: seq<Byte>, at: int, len: int) {
    |a| == |b| && forall i :: 0 <= i < |a| && !(at <= i < at + len) ==> a[i] == b[i]
  }

  class Keyboard {
    const layout: Layout
    /** It answers every request and stores what it is sent. */
    const sound: bool
    var record: seq<Byte>
    var macros: seq<Byte>
    var lights: seq<Byte>
    /** How many writes and preparations were not acknowledged whole. */
    var refused: nat

    ghost predicate Valid()
      reads this
    {
      KnownLayout(layout) && |record| == RECORD_SIZE && StorageOk(layout, macros) && |lights| == layout.LightsSize()
    }

    function Store(area: Area): seq<Byte>
      reads this
    {
      match area
      case RecordArea => record
      case MacroArea => macros
      case LightsArea => lights
    }

    constructor (layout: Layout, sound: bool, record: seq<Byte>, macros: seq<Byte>, lights: seq<Byte>)
      requires KnownLayout(layout) && |record| == RECORD_SIZE && StorageOk(layout, macros) && |lights| == layout.LightsSize()
      ensures Valid() && this.layout == layout && this.sound == sound
      ensures this.record == record && this.macros == macros && this.lights == lights && refused == 0
    {
      this.layout, this.sound, this.record, this.macros, this.lights, refused := layout, sound, record, macros, lights, 0;
    }

    /** One read request: no usable answer, or some bytes, none of them made up. */
    method Read(area: Area, offset: nat, want: nat) returns (reply: Option<seq<Byte>>)
      requires Valid()
      ensures reply.Some? ==>
                reply.value == [] ||
                (offset + |reply.value| <= |Store(area)| && reply.value == Store(area)[offset..offset + |reply.value|])
      ensures sound && want > 0 && offset < |Store(area)| ==> reply.Some? && reply.value != []
    {
      var n: nat := *;
      if sound && offset < |Store(area)| { n := Min(want, |Store(area)| - offset); }
      if n > 0 && offset + n <= |Store(area)| { return Some(Store(area)[offset..offset + n]); }
      if * { return Some([]); }
      return None;
    }

    /**
     One write request: whatever is answered, the bytes it names may hold anything afterwards and no
     other byte changes. This covers a write dropped, stored in part, refused or garbled, with or
     without an acknowledgement.
     */
    method Write(area: Area, offset: nat, chunk: seq<Byte>) returns (accepted: Option<int>)
      requires Valid()
      modifies this
      ensures Valid()
      ensures area != RecordArea ==> record == old(record)
      ensures area != MacroArea ==> macros == old(macros)
      ensures area != LightsArea ==> lights == old(lights)
      ensures SameOutside(old(Store(area)), Store(area), offset, |chunk|)
      ensures sound && offset + |chunk| <= |old(Store(area))| ==>
                accepted == Some(|chunk|) && Store(area)[offset..offset + |chunk|] == chunk
      ensures refused == old(refused) + if accepted == Some(|chunk|) then 0 else 1
    {
      if sound && offset + |chunk| <= |Store(area)| {
        Replace(area, offset, chunk);
        return Some(|chunk|);
      }
      accepted := Scribble(area, offset, |chunk|);
      if accepted != Some(|chunk|) { refused := refused + 1; }
    }

    /** Preparing a macro slot or the colour block: what that does to it is not known. */
    method Prepare(area: Area, offset: nat) returns (accepted: Option<int>)
      requires Valid()
      modifies this
      ensures Valid()
      ensures area != RecordArea ==> record == old(record)
      ensures area != MacroArea ==> macros == old(macros)
      ensures area != LightsArea ==> lights == old(lights)
      ensures area == MacroArea ==>
                SameOutside(old(macros), macros, offset / layout.macroSlotSize * layout.macroSlotSize, layout.macroSlotSize)
      ensures sound ==> accepted.Some?
      ensures refused == old(refused) + if accepted.Some? then 0 else 1
    {
      if area == MacroArea {
        accepted := Scribble(area, offset / layout.macroSlotSize * layout.macroSlotSize, layout.macroSlotSize);
      } else {
        accepted := Scribble(area, 0, |Store(area)|);
      }
      if sound && accepted.None? { accepted := Some(0); }
      if accepted.None? { refused := refused + 1; }
    }

    method Replace(area: Area, offset: nat, data: seq<Byte>)
      requires Valid() && offset + |data| <= |Store(area)|
      modifies this
      ensures Valid()
      ensures area != RecordArea ==> record == old(record)
      ensures area != MacroArea ==> macros == old(macros)
      ensures area != LightsArea ==> lights == old(lights)
      ensures Store(area) == old(Store(area)[..offset] + data + Store(area)[offset + |data|..]) && refused == old(refused)
    {
      var now := Store(area)[..offset] + data + Store(area)[offset + |data|..];
      match area
      case RecordArea => record := now;
      case MacroArea => macros := now;
      case LightsArea => lights := now;
    }

    method Scribble(area: Area, offset: int, len: nat) returns (answer: Option<int>)
      requires Valid()
      modifies this
      ensures Valid()
      ensures area != RecordArea ==> record == old(record)
      ensures area != MacroArea ==> macros == old(macros)
      ensures area != LightsArea ==> lights == old(lights)
      ensures SameOutside(old(Store(area)), Store(area), offset, len) && refused == old(refused)
    {
      var junk: seq<Byte> := *;
      if 0 <= offset && |junk| <= len && offset + |junk| <= |Store(area)| {
        Replace(area, offset, junk);
      }
      var accepted: int := *;
      if * { return Some(accepted); }
      return None;
    }
  }

  // ---- The session's transfers, a report's worth at a time

  /** Reads length bytes at offset. What it returns is what is stored there. */
  method ReadChunks(k: Keyboard, area: Area, offset: nat, length: nat) returns (r: Option<seq<Byte>>)
    requires k.Valid()
    ensures r.Some? && length > 0 ==>
              offset + length <= |k.Store(area)| && r.value == k.Store(area)[offset..offset + length]
    ensures k.sound && offset + length <= |k.Store(area)| ==> r.Some?
  {
    var out: seq<Byte> := [];
    while |out| < length
      invariant |out| <= length
      invariant |out| > 0 ==> offset + |out| <= |k.Store(area)| && out == k.Store(area)[offset..offset + |out|]
      decreases length - |out|
    {
      var reply := k.Read(area, offset + |out|, Min(MAX_CHUNK, length - |out|));
      if reply.None? || reply.value == [] { return None; }
      var n := Min(|reply.value|, length - |out|);
      NextChunk(k.Store(area), offset, |out|, reply.value, n);
      out := out + reply.value[..n];
    }
    return Some(out);
  }

  lemma NextChunk(store: seq<Byte>, offset: nat, read: nat, reply: seq<Byte>, n: nat)
    requires n <= |reply| && offset + read + |reply| <= |store| && reply == store[offset + read..offset + read + |reply|]
    ensures store[offset..offset + read] + reply[..n] == store[offset..offset + read + n]
  {
  }

  /** Writes data at offset, stopping at the first chunk that is not acknowledged whole. */
  method WriteChunks(k: Keyboard, area: Area, offset: nat, data: seq<Byte>) returns (ok: bool)
    requires k.Valid()
    modifies k
    ensures k.Valid()
    ensures area != RecordArea ==> k.record == old(k.record)
    ensures area != MacroArea ==> k.macros == old(k.macros)
    ensures area != LightsArea ==> k.lights == old(k.lights)
    ensures SameOutside(old(k.Store(area)), k.Store(area), offset, |data|)
    ensures k.sound && offset + |data| <= |old(k.Store(area))| ==> ok && k.Store(area)[offset..offset + |data|] == data
    ensures k.refused == old(k.refused) + if ok then 0 else 1
  {
    var sent := 0;
    while sent < |data|
      invariant 0 <= sent <= |data|
      invariant k.Valid() && k.refused == old(k.refused)
      invariant area != RecordArea ==> k.record == old(k.record)
      invariant area != MacroArea ==> k.macros == old(k.macros)
      invariant area != LightsArea ==> k.lights == old(k.lights)
      invariant SameOutside(old(k.Store(area)), k.Store(area), offset, |data|)
      invariant k.sound && offset + |data| <= |k.Store(area)| ==> k.Store(area)[offset..offset + sent] == data[..sent]
    {
      var chunk := data[sent..Min(|data|, sent + MAX_CHUNK)];
      ghost var was := k.Store(area);
      var accepted := k.Write(area, offset + sent, chunk);
      if k.sound && offset + |data| <= |was| {
        Extended(was, k.Store(area), offset, data, sent, chunk);
      }
      if accepted != Some(|chunk|) { return false; }
      sent := sent + |chunk|;
    }
    return true;
  }

  lemma Extended(was: seq<Byte>, now: seq<Byte>, offset: nat, data: seq<Byte>, sent: nat, chunk: seq<Byte>)
    requires sent + |chunk| <= |data| && chunk == data[sent..sent + |chunk|] && offset + |data| <= |was| == |now|
    requires SameOutside(was, now, offset + sent, |chunk|) && was[offset..offset + sent] == data[..sent]
    requires now[offset + sent..offset + sent + |chunk|] == chunk
    ensures now[offset..offset + sent + |chunk|] == data[..sent + |chunk|]
  {
    assert now[offset..offset + sent] == was[offset..offset + sent];
    assert now[offset..offset + sent + |chunk|] == now[offset..offset + sent] + now[offset + sent..offset + sent + |chunk|];
  }
}

/**
 A controller that keeps its record and its macros behind a staging copy until a commit, and the
 session's chunked transfers over it.
 */
module PadDevice {
  import opened Bytes
  import opened Flash
  import opened Patch
  import opened PadLayouts
  import opened PadMacros

  /**
   How writes may go wrong. Drops: any byte of a write may fail to land, whatever is answered.
   Garbles: any byte of a write may end up as anything.
   */
  datatype Fault = NoFault | Drops | Garbles

  /** What a commit left in the controller. */
  datatype Snapshot = Snapshot(record: seq<Byte>, macros: seq<seq<Byte>>)

  const MAX_CHUNK: nat := 45
  const MACRO_CHUNK: nat := 32

  predicate Areas(macros: seq<seq<Byte>>) {
    |macros| == PAD_SLOTS && forall s :: 0 <= s < PAD_SLOTS ==> |macros[s]| == AREA
  }

  predicate PendingOk(pending: map<nat, seq<Byte>>) {
    forall s :: s in pending ==> s < PAD_SLOTS && |pending[s]| == AREA
  }

  /** The macro areas once what is pending is stored. */
  function Promoted(macros: seq<seq<Byte>>, pending: map<nat, seq<Byte>>): (r: seq<seq<Byte>>)
    requires Areas(macros) && PendingOk(pending)
    ensures Areas(r)
  {
    seq(PAD_SLOTS, s requires 0 <= s < PAD_SLOTS => if s in pending then pending[s] else macros[s])
  }

  /** Two stores that differ at most inside [at, at + len). */
  ghost predicate SameOutside(a: seq<Byte>, b: seq<Byte>, at: int, len: int) {
    |a| == |b| && forall i :: 0 <= i < |a| && !(at <= i < at + len) ==> a[i] == b[i]
  }

  /** Every byte is what it was or what it was to become. */
  ghost predicate EachOldOrNew(was: seq<Byte>, now: seq<Byte>, wanted: seq<Byte>) {
    |was| == |now| == |wanted| && forall i :: 0 <= i < |now| ==> now[i] == was[i] || now[i] == wanted[i]
  }

  /** Flash with data written over it, bits only cleared. */
  ghost predicate Overwritten(was: seq<Byte>, now: seq<Byte>, at: nat, data: seq<Byte>) {
    && |was| == |now| && at + |data| <= |was|
    && forall i :: 0 <= i < |was| ==> now[i] == if at <= i < at + |data| then Write1(was[i], data[i - at]) else was[i]
  }

  /** What a write under some fault may leave of the bytes it is about. */
  ghost predicate MayLand(fault: Fault, was: seq<Byte>, wanted: seq<Byte>, now: seq<Byte>) {
    && |was| == |wanted| == |now|
    && match fault
       case NoFault => now == wanted
       case Drops => EachOldOrNew(was, now, wanted)
       case Garbles => true
  }

  /** No answer, or some bytes of a store and none made up. */
  ghost predicate Tells(store: seq<Byte>, offset: nat, reply: Option<seq<Byte>>) {
    && (reply.Some? && reply.value != [] ==> offset + |reply.value| <= |store|)
    && (reply.Some? && reply.value != [] ==> reply.value == store[offset..offset + |reply.value|])
  }

  class Controller {
    const fault: Fault
    var stored: seq<Byte>
    var staged: Option<seq<Byte>>
    var macros: seq<seq<Byte>>
    var pending: map<nat, seq<Byte>>
    var light: Byte
    /** Whether a configuration session is marked as started, which one model wants before anything is written. */
    var syncing: bool
    /** How many requests that change something were not acknowledged. */
    var failures: nat
    ghost var log: seq<Snapshot>

    ghost predicate Valid()
      reads this
    {
      Areas(macros) && PendingOk(pending) && (staged.Some? ==> |staged.value| == |stored|)
    }

    /** Nothing is staged and no macro write is pending. */
    ghost predicate Clean()
      reads this
    {
      staged.None? && pending == map[]
    }

    /** What the record becomes with the next commit. */
    function Staging(): (r: seq<Byte>)
      reads this
    {
      if staged.Some? then staged.value else stored
    }

    constructor (fault: Fault, stored: seq<Byte>, macros: seq<seq<Byte>>, light: Byte)
      requires Areas(macros)
      ensures Valid() && this.fault == fault && this.stored == stored && this.macros == macros && this.light == light
      ensures staged.None? && pending == map[] && log == [] && failures == 0 && !syncing
    {
      failures, syncing := 0, false;
      this.fault, this.stored, this.macros, this.light := fault, stored, macros, light;
      staged, pending, log := None, map[], [];
    }

    /** One read of the stored record. */
    method Read(offset: nat, want: nat) returns (reply: Option<seq<Byte>>)
      ensures Tells(stored, offset, reply)
      ensures fault.NoFault? && want > 0 && offset < |stored| ==> reply.Some? && reply.value != []
    {
      reply := ReadFrom(stored, offset, want, MAX_CHUNK);
    }

    method MacroRead(slot: nat, offset: nat, want: nat) returns (reply: Option<seq<Byte>>)
      requires Valid() && slot < PAD_SLOTS
      ensures Tells(macros[slot], offset, reply)
      ensures fault.NoFault? && want > 0 && offset < AREA ==> reply.Some? && reply.value != []
    {
      reply := ReadFrom(macros[slot], offset, want, MACRO_CHUNK);
    }

    method ReadFrom(store: seq<Byte>, offset: nat, want: nat, most: nat) returns (reply: Option<seq<Byte>>)
      requires most > 0
      ensures Tells(store, offset, reply)
      ensures fault.NoFault? && want > 0 && offset < |store| ==> reply.Some? && reply.value != []
    {
      var n: nat := *;
      if n > 0 && offset + n <= |store| && !fault.NoFault? { return Some(store[offset..offset + n]); }
      var lost: bool := *;
      if !fault.NoFault? && lost { return None; }
      if offset >= |store| || want == 0 { return Some([]); }
      n := Min(|store|, offset + Min(want, most)) - offset;
      return Some(store[offset..offset + n]);
    }

    /** What a store holds after a write that may have gone wrong. */
    method Land(was: seq<Byte>, wanted: seq<Byte>) returns (now: seq<Byte>)
      requires |was| == |wanted|
      ensures MayLand(fault, was, wanted, now)
    {
      now := *;
      if fault.NoFault? || |now| != |was| { return wanted; }
      if fault.Drops? {
        var lands: seq<bool> := *;
        now := if |lands| == |was| then seq(|was|, i requires 0 <= i < |was| => if lands[i] then wanted[i] else was[i]) else was;
      }
    }

    /** One write to the staging copy of the record. */
    method Write(offset: nat, chunk: seq<Byte>) returns (accepted: Option<nat>)
      requires Valid() && 1 <= |chunk| <= MAX_CHUNK && offset + |chunk| <= |stored|
      modifies this
      ensures Valid() && stored == old(stored) && macros == old(macros) && pending == old(pending) && light == old(light)
      ensures failures == old(failures) + if accepted == Some(|chunk|) then 0 else 1
      ensures log == old(log) && SameOutside(old(Staging()), Staging(), offset, |chunk|)
      ensures fault.NoFault? ==> accepted == Some(|chunk|) && Staging() == Replace(old(Staging()), offset, chunk)
      ensures fault.Drops? ==> EachOldOrNew(old(Staging()), Staging(), Replace(old(Staging()), offset, chunk))
    {
      var was := Staging();
      var landed := Land(was[offset..offset + |chunk|], chunk);
      staged := Some(Replace(was, offset, landed));
      accepted := Answer(|chunk|);
    }

    method Answer(n: nat) returns (accepted: Option<nat>)
      modifies this`failures
      ensures failures == old(failures) + if accepted == Some(n) then 0 else 1
      ensures fault.NoFault? ==> accepted == Some(n)
    {
      accepted := Some(n);
      if !fault.NoFault? {
        accepted := *;
      }
      if accepted != Some(n) { failures := failures + 1; }
    }

    /** Stores what is staged, unless the request or the work is lost; what is answered was done. */
    method Commit() returns (acked: bool)
      requires Valid()
      modifies this
      ensures failures == old(failures) + if acked then 0 else 1
      ensures Valid() && light == old(light)
      ensures acked ==> Committed(old(Staging()), old(Promoted(macros, pending)), old(log))
      ensures !acked ==> Committed(old(Staging()), old(Promoted(macros, pending)), old(log)) ||
                         (stored == old(stored) && staged == old(staged) && macros == old(macros) && pending == old(pending) && log == old(log))
      ensures fault.NoFault? ==> acked
    {
      acked := true;
      if !fault.NoFault? {
        var lost: bool := *;
        acked := *;
        if !acked { failures := failures + 1; }
        if !acked && lost { return; }
      }
      stored, staged := Staging(), None;
      macros, pending := Promoted(macros, pending), map[];
      log := log + [Snapshot(stored, macros)];
    }

    ghost predicate Committed(record: seq<Byte>, areas: seq<seq<Byte>>, before: seq<Snapshot>)
      reads this
    {
      && stored == record && staged.None? && macros == areas && pending == map[]
      && log == before + [Snapshot(record, areas)]
    }

    /** Erases part of a slot's stored macros: what a commit has pending is not erased. */
    method Erase(slot: nat, offset: nat, len: nat) returns (acked: bool)
      requires Valid() && slot < PAD_SLOTS && offset + len <= AREA
      modifies this
      ensures Valid() && stored == old(stored) && staged == old(staged) && pending == old(pending) && light == old(light)
      ensures failures == old(failures) + if acked then 0 else 1
      ensures log == old(log) && forall s :: 0 <= s < PAD_SLOTS && s != slot ==> macros[s] == old(macros[s])
      ensures SameOutside(old(macros[slot]), macros[slot], offset, len)
      ensures fault.NoFault? ==> acked && macros[slot] == Replace(old(macros[slot]), offset, Fill(len, ERASED))
    {
      var landed := Land(macros[slot][offset..offset + len], Fill(len, ERASED));
      macros := macros[slot := Replace(macros[slot], offset, landed)];
      var answer := Answer(0);
      acked := answer == Some(0);
    }

    function MacroStaging(slot: nat): (r: seq<Byte>)
      requires Valid() && slot < PAD_SLOTS
      reads this
      ensures |r| == AREA
    {
      if slot in pending then pending[slot] else macros[slot]
    }

    /** One write to a slot's macros, over a copy taken with the first write since the last commit. */
    method MacroWrite(slot: nat, offset: nat, chunk: seq<Byte>) returns (accepted: Option<nat>)
      requires Valid() && slot < PAD_SLOTS && 1 <= |chunk| <= MACRO_CHUNK && offset + |chunk| <= AREA
      modifies this
      ensures Valid() && stored == old(stored) && staged == old(staged) && macros == old(macros) && light == old(light)
      ensures failures == old(failures) + if accepted == Some(|chunk|) then 0 else 1
      ensures log == old(log) && pending.Keys == old(pending).Keys + {slot}
      ensures forall s :: s in old(pending) && s != slot ==> pending[s] == old(pending)[s]
      ensures SameOutside(old(MacroStaging(slot)), MacroStaging(slot), offset, |chunk|)
      ensures fault.NoFault? ==> accepted == Some(|chunk|)
      ensures fault.NoFault? ==> Overwritten(old(MacroStaging(slot)), MacroStaging(slot), offset, chunk)
    {
      var was := MacroStaging(slot);
      var landed := Land(was[offset..offset + |chunk|], WriteOver(was[offset..offset + |chunk|], chunk));
      pending := pending[slot := Replace(was, offset, landed)];
      accepted := Answer(|chunk|);
    }

    method SetLight(effect: Byte) returns (acked: bool)
      requires Valid()
      modifies this
      ensures Valid() && stored == old(stored) && staged == old(staged) && macros == old(macros) && pending == old(pending)
      ensures failures == old(failures) + if acked then 0 else 1
      ensures log == old(log) && (fault.NoFault? ==> acked && light == effect)
    {
      var landed := Land([light], [effect]);
      light := landed[0];
      var answer := Answer(0);
      acked := answer == Some(0);
    }

    /** Marks a configuration session as started. */
    method StartSync() returns (acked: bool)
      modifies this`failures, this`syncing
      ensures acked ==> syncing
      ensures failures == old(failures) + if acked then 0 else 1
      ensures fault.NoFault? ==> acked
    {
      var answer := Answer(0);
      acked := answer == Some(0);
      var lands: bool := *;
      syncing := syncing || acked || lands;
    }

    method GetLight() returns (reply: Option<Byte>)
      ensures reply.Some? ==> reply.value == light
      ensures fault.NoFault? ==> reply.Some?
    {
      var lost: bool := *;
      if !fault.NoFault? && lost { return None; }
      return Some(light);
    }
  }

  // ---- Chunked transfers

  /** Reads the first size bytes of the record, however they are chunked. */
  method ReadRecord(c: Controller, size: nat) returns (r: Result<seq<Byte>>)
    requires 1 <= size
    ensures r.Ok? ==> size <= |c.stored| && r.value == c.stored[..size]
    ensures c.fault.NoFault? && size <= |c.stored| ==> r.Ok?
  {
    var record: seq<Byte> := [];
    while |record| < size
      invariant |record| <= size && |record| <= |c.stored| && record == c.stored[..|record|]
      decreases size - |record|
    {
      var reply := c.Read(|record|, Min(MAX_CHUNK, size - |record|));
      if reply.None? || reply.value == [] { return Err; }
      var n := Min(|reply.value|, size - |record|);
      var data := reply.value[..n];
      SliceOfSlice(c.stored, |record|, |reply.value|, 0, n);
      JoinSlices(c.stored, 0, |record|, |record| + n);
      record := record + data;
    }
    return Ok(record);
  }

  /** Stages a stretch of a record; nothing takes effect until a commit. */
  method WriteRange(c: Controller, record: seq<Byte>, offset: nat, len: nat) returns (ok: bool)
    requires c.Valid() && |record| == |c.stored| && len >= 1 && offset + len <= |record|
    modifies c
    ensures c.failures <= old(c.failures) + 1 && (ok ==> c.failures == old(c.failures))
    ensures c.Valid() && c.stored == old(c.stored) && c.macros == old(c.macros) && c.pending == old(c.pending)
    ensures c.light == old(c.light) && c.log == old(c.log) && SameOutside(old(c.Staging()), c.Staging(), offset, len)
    ensures c.fault.NoFault? ==> ok && forall i :: offset <= i < offset + len ==> c.Staging()[i] == record[i]
    ensures !c.fault.Garbles? ==> EachOldOrNew(old(c.Staging()), c.Staging(), record)
  {
    ghost var was := c.Staging();
    assert |was| == |record|;
    hide Controller.Valid;
    var at, end := offset, offset + len;
    while at < end
      invariant offset <= at <= end && c.Valid() && c.failures == old(c.failures)
      invariant c.stored == old(c.stored) && c.macros == old(c.macros) && c.pending == old(c.pending)
      invariant c.light == old(c.light) && c.log == old(c.log) && SameOutside(was, c.Staging(), offset, len)
      invariant c.fault.NoFault? ==> forall i :: offset <= i < at ==> c.Staging()[i] == record[i]
      invariant !c.fault.Garbles? ==> EachOldOrNew(was, c.Staging(), record)
    {
      var chunk := record[at..Min(end, at + MAX_CHUNK)];
      var accepted := c.Write(at, chunk);
      if accepted != Some(|chunk|) { return false; }
      at := at + |chunk|;
    }
    return true;
  }

  method ReadMacroData(c: Controller, slot: nat, offset: nat, len: nat) returns (r: Result<seq<Byte>>)
    requires c.Valid() && slot < PAD_SLOTS && len >= 1 && offset + len <= AREA
    ensures r.Ok? ==> r.value == c.macros[slot][offset..offset + len]
    ensures c.fault.NoFault? ==> r.Ok?
  {
    var out: seq<Byte> := [];
    while |out| < len
      invariant |out| <= len && out == c.macros[slot][offset..offset + |out|]
      decreases len - |out|
    {
      var reply := c.MacroRead(slot, offset + |out|, Min(MACRO_CHUNK, len - |out|));
      if reply.None? || reply.value == [] { return Err; }
      var n := Min(|reply.value|, len - |out|);
      var data := reply.value[..n];
      SliceOfSlice(c.macros[slot], offset + |out|, |reply.value|, 0, n);
      JoinSlices(c.macros[slot], offset, offset + |out|, offset + |out| + n);
      out := out + data;
    }
    return Ok(out);
  }

  /** Writes a slot's macro storage; nothing takes effect until a commit. */
  method WriteMacroData(c: Controller, slot: nat, offset: nat, data: seq<Byte>) returns (ok: bool)
    requires c.Valid() && slot < PAD_SLOTS && data != [] && offset + |data| <= AREA
    modifies c
    ensures c.failures <= old(c.failures) + 1 && (ok ==> c.failures == old(c.failures))
    ensures c.Valid() && c.stored == old(c.stored) && c.staged == old(c.staged) && c.macros == old(c.macros)
    ensures c.light == old(c.light) && c.log == old(c.log) && c.pending.Keys == old(c.pending).Keys + {slot}
    ensures forall s :: s in old(c.pending) && s != slot ==> c.pending[s] == old(c.pending)[s]
    ensures SameOutside(old(c.MacroStaging(slot)), c.MacroStaging(slot), offset, |data|)
    ensures c.fault.NoFault? ==> ok && Overwritten(old(c.MacroStaging(slot)), c.MacroStaging(slot), offset, data)
  {
    hide Overwritten, SameOutside, Controller.Valid, Controller.MacroStaging;
    ghost var was := c.MacroStaging(slot);
    NothingOverwritten(was, offset, |data|);
    assert data[..0] == [];
    var sent := 0;
    while sent < |data|
      invariant 0 <= sent <= |data| && c.Valid() && c.failures == old(c.failures)
      invariant c.stored == old(c.stored) && c.staged == old(c.staged) && c.macros == old(c.macros)
      invariant c.light == old(c.light) && c.log == old(c.log)
      invariant c.pending.Keys == if sent == 0 then old(c.pending).Keys else old(c.pending).Keys + {slot}
      invariant forall s :: s in old(c.pending) && s != slot ==> s in c.pending && c.pending[s] == old(c.pending)[s]
      invariant SameOutside(was, c.MacroStaging(slot), offset, |data|)
      invariant c.fault.NoFault? ==> Overwritten(was, c.MacroStaging(slot), offset, data[..sent])
    {
      var chunk := data[sent..Min(|data|, sent + MACRO_CHUNK)];
      ghost var before := c.MacroStaging(slot);
      var accepted := c.MacroWrite(slot, offset + sent, chunk);
      SameOutsideMore(was, before, c.MacroStaging(slot), offset, |data|, offset + sent, |chunk|);
      if accepted != Some(|chunk|) { return false; }
      if c.fault.NoFault? {
        OverwrittenMore(was, before, c.MacroStaging(slot), offset, data[..sent], chunk);
        assert data[..sent] + chunk == data[..sent + |chunk|];
      }
      sent := sent + |chunk|;
    }
    assert data[..|data|] == data;
    return true;
  }

  lemma NothingOverwritten(was: seq<Byte>, at: nat, len: nat)
    requires at + len <= |was|
    ensures Overwritten(was, was, at, []) && SameOutside(was, was, at, len)
  {
  }

  lemma SameOutsideMore(a: seq<Byte>, b: seq<Byte>, c: seq<Byte>, at: nat, len: nat, from: nat, n: nat)
    requires SameOutside(a, b, at, len) && SameOutside(b, c, from, n) && at <= from && from + n <= at + len
    ensures SameOutside(a, c, at, len)
  {
  }

  lemma OverwrittenMore(was: seq<Byte>, mid: seq<Byte>, now: seq<Byte>, at: nat, done: seq<Byte>, more: seq<Byte>)
    requires Overwritten(was, mid, at, done) && Overwritten(mid, now, at + |done|, more)
    ensures Overwritten(was, now, at, done + more)
  {
  }
}

/**
 Applying changes to a JP108 keyboard's profile: what renaming may erase is written again, each write
 is read back, and what was touched is put back when one fails.
 */
module JpApply {
  import opened Bytes
  import opened JpMacros
  import opened JpTargets

  /** Two maps that agree on every key but one. */
  ghost predicate SameBut<T>(a: map<Byte, T>, b: map<Byte, T>, id: Byte) {
    forall j: Byte :: j != id ==> (j in a <==> j in b) && (j in a ==> a[j] == b[j])
  }

  /** A map with some of another's entries. */
  ghost predicate PartOf<T>(a: map<Byte, T>, b: map<Byte, T>) {
    forall j: Byte :: j in a ==> j in b && a[j] == b[j]
  }

  function MappingAt(mappings: map<Byte, Mapping>, id: Byte): Mapping { if id in mappings then mappings[id] else NO_MAPPING }

  /** A keyboard that answers reads truthfully and, unless it is sound, may mistreat any write. */
  class Board {
    /** It answers every request and stores what it is sent; renaming may still erase. */
    const sound: bool
    /** Whether it has a named profile: mappings and macros live in one. */
    var named: bool
    var mappings: map<Byte, Mapping>
    var values: map<Byte, seq<Byte>>
    var features: Byte
    var volume: Byte
    /** How many requests were not answered, or not acknowledged. */
    var failures: nat

    constructor (sound: bool, named: bool, mappings: map<Byte, Mapping>, values: map<Byte, seq<Byte>>, features: Byte, volume: Byte)
      ensures this.sound == sound && this.named == named && this.mappings == mappings && this.values == values
      ensures this.features == features && this.volume == volume && failures == 0
    {
      failures := 0;
      this.sound, this.named, this.mappings, this.values, this.features, this.volume := sound, named, mappings, values, features, volume;
    }

    /** Whether a request was answered at all. */
    method Answered() returns (answered: bool)
      modifies this`failures
      ensures sound ==> answered
      ensures failures == old(failures) + if answered then 0 else 1
    {
      answered := *;
      answered := answered || sound;
      if !answered { failures := failures + 1; }
    }

    /** Names the profile: that may erase any of what is stored, and leaves a name when it is acknowledged. */
    method Rename() returns (acked: bool)
      modifies this`named, this`mappings, this`values, this`failures
      ensures PartOf(mappings, old(mappings)) && PartOf(values, old(values)) && (acked ==> named)
      ensures sound ==> acked
      ensures failures == old(failures) + if acked then 0 else 1
    {
      var lostKeys: set<Byte>, lostMacros: set<Byte> := *, *;
      mappings, values := mappings - lostKeys, values - lostMacros;
      acked := Answered();
      var stays: bool := *;
      named := acked || stays;
    }

    /** Assigns a key: whatever is answered, that key's mapping may be anything afterwards. */
    method PutKey(id: Byte, m: Mapping) returns (acked: bool)
      modifies this`mappings, this`failures
      ensures failures == old(failures) + if acked then 0 else 1
      ensures SameBut(mappings, old(mappings), id)
      ensures sound ==> acked && MappingAt(mappings, id) == m
    {
      var landed: Mapping, gone: bool := *, *;
      mappings := if sound then mappings[id := m] else if gone then mappings - {id} else mappings[id := landed];
      acked := Answered();
    }

    /** Stores or removes a key's macro: whatever is answered, that key's macro may be anything afterwards. */
    method PutMacro(id: Byte, value: Option<seq<Byte>>) returns (acked: bool)
      modifies this`values, this`failures
      ensures failures == old(failures) + if acked then 0 else 1
      ensures SameBut(values, old(values), id)
      ensures sound ==> acked && (if value.Some? then id in values && values[id] == value.value else id !in values)
    {
      var landed: seq<Byte>, gone: bool := *, *;
      if sound {
        landed, gone := if value.Some? then value.value else [], value.None?;
      }
      values := if gone then values - {id} else values[id := landed];
      acked := Answered();
    }

    method PutFeatures(flags: Byte) returns (acked: bool)
      modifies this`features, this`failures
      ensures failures == old(failures) + if acked then 0 else 1
      ensures sound ==> acked && features == flags
    {
      features := *;
      if sound { features := flags; }
      acked := Answered();
    }

    method PutVolume(level: Byte) returns (acked: bool)
      modifies this`volume, this`failures
      ensures failures == old(failures) + if acked then 0 else 1
      ensures sound ==> acked && volume == level
    {
      volume := *;
      if sound { volume := level; }
      acked := Answered();
    }
  }

  /** What differs between keyboards: what each key does unmapped, and the numbering of F13 to F24. */
  datatype Layout = Layout(plain: map<Byte, Target>, shift: nat)
  {
    predicate Valid() {
      ShiftOk(shift) && forall id :: id in plain ==> TargetFits(plain[id]) && !TakenForFKey(shift, plain[id])
    }
    function PlainOf(id: Byte): Target { if id in plain then plain[id] else NoTarget }
  }

  /** What was read of a keyboard: every key with a mapping, every macro, the locks and the volume. */
  datatype Profile = Profile(named: bool, mappings: map<Byte, Target>, macros: map<Byte, Macro>, locks: Byte, volume: Byte)

  /** A set of edits; a macro of None is one to remove, and a setting of None is left alone. */
  datatype Changes = Changes(mappings: map<Byte, Target>, macros: map<Byte, Option<Macro>>, locks: Option<Byte>, volume: Option<Byte>, rename: bool)

  predicate ChangesFit(ch: Changes) {
    && (forall id :: id in ch.mappings ==> TargetFits(ch.mappings[id]))
    && (ch.locks.Some? ==> ch.locks.value < 8)
  }

  // ---- What the keyboard does

  /** What a key does. */
  function KeyEffect(l: Layout, mappings: map<Byte, Mapping>, id: Byte): Result<Target>
    requires l.Valid()
  {
    EffectOf(l.shift, l.PlainOf(id), MappingAt(mappings, id))
  }

  /** A key with no mapping does what is printed on it, if anything. */
  lemma PrintedEffect(l: Layout, mappings: map<Byte, Mapping>, id: Byte)
    requires l.Valid() && (id !in mappings || mappings[id] == NO_MAPPING)
    ensures id in l.plain ==> KeyEffect(l, mappings, id) == Ok(l.plain[id])
    ensures id !in l.plain ==> KeyEffect(l, mappings, id) == Ok(NoTarget)
  {
  }

  /** What macro a key plays: none, one, or something this program cannot read. */
  function MacroEffect(values: map<Byte, seq<Byte>>, id: Byte): Option<Result<Macro>> {
    if id in values then Some(DecodeValue(values[id])) else None
  }

  /** A stored mapping the keyboard lists. */
  predicate Listed(m: Mapping) { m != NO_MAPPING && m != Mapping(KEYBOARD_TYPE, 0, 0, 0, 0) }

  /** Everything stored is something this program can read. */
  ghost predicate Readable(l: Layout, mappings: map<Byte, Mapping>, values: map<Byte, seq<Byte>>)
    requires l.Valid()
  {
    && (forall id: Byte :: Listed(MappingAt(mappings, id)) ==> FromWire(l.shift, MappingAt(mappings, id)).Ok?)
    && (forall id: Byte :: id in values ==> DecodeValue(values[id]).Ok?)
  }

  /** A key's mapping means the same once it is read and written back. */
  ghost predicate KeySurvives(l: Layout, mappings: map<Byte, Mapping>, id: Byte)
    requires l.Valid()
  {
    Survives(l.shift, l.PlainOf(id), MappingAt(mappings, id))
  }

  /** What reading the keyboard gives. */
  ghost predicate ReadFrom(l: Layout, p: Profile, named: bool, mappings: map<Byte, Mapping>, values: map<Byte, seq<Byte>>, features: Byte, volume: Byte)
    requires l.Valid()
  {
    && p.named == named
    && (forall id: Byte :: id in p.mappings <==> Listed(MappingAt(mappings, id)))
    && (forall id :: id in p.mappings ==> FromWire(l.shift, MappingAt(mappings, id)) == Ok(p.mappings[id]))
    && (forall id: Byte :: id in p.macros <==> id in values)
    && (forall id :: id in p.macros ==> DecodeValue(values[id]) == Ok(p.macros[id]))
    && p.locks == features % 8 && p.volume == volume
  }

  /** Reads the whole profile, refusing what it cannot represent: it becomes the backup. */
  method ReadProfile(k: Board, l: Layout) returns (r: Result<Profile>)
    requires l.Valid()
    modifies k`failures
    ensures k.failures <= old(k.failures) + 1 && (r.Ok? ==> k.failures == old(k.failures))
    ensures r.Ok? ==> ReadFrom(l, r.value, k.named, k.mappings, k.values, k.features, k.volume)
    ensures k.sound ==> (r.Ok? <==> Readable(l, k.mappings, k.values))
  {
    var answered := k.Answered();
    if !answered { return Err; }
    var mappings: map<Byte, Target> := map[];
    for i := 0 to 256
      invariant forall id: Byte :: id in mappings <==> id < i && Listed(MappingAt(k.mappings, id))
      invariant forall id :: id in mappings ==> FromWire(l.shift, MappingAt(k.mappings, id)) == Ok(mappings[id])
    {
      var id: Byte := i;
      var m := MappingAt(k.mappings, id);
      if !Listed(m) { continue; }
      var target := FromWire(l.shift, m);
      if target.Err? { return Err; }
      mappings := mappings[id := target.value];
    }
    var macros: map<Byte, Macro> := map[];
    for i := 0 to 256
      invariant forall id: Byte :: id in macros <==> id < i && id in k.values
      invariant forall id :: id in macros ==> DecodeValue(k.values[id]) == Ok(macros[id])
    {
      var id: Byte := i;
      if id !in k.values { continue; }
      var m := DecodeValue(k.values[id]);
      if m.Err? { return Err; }
      macros := macros[id := m.value];
    }
    return Ok(Profile(k.named, mappings, macros, k.features % 8, k.volume));
  }

  // ---- Writing changes

  /** Nothing an edit leaves out is stored under a name that is about to be given. */
  ghost predicate NothingElse(ch: Changes, mappings: map<Byte, Mapping>, values: map<Byte, seq<Byte>>) {
    && (forall id: Byte :: id !in ch.mappings ==> Unassigned(MappingAt(mappings, id)))
    && (forall id: Byte :: id !in ch.macros ==> id !in values)
  }

  /** What is left alone by an edit does what it did. */
  ghost predicate RestSame(l: Layout, ch: Changes, m0: map<Byte, Mapping>, v0: map<Byte, seq<Byte>>, mappings: map<Byte, Mapping>, values: map<Byte, seq<Byte>>)
    requires l.Valid()
  {
    && (forall id: Byte :: id !in ch.mappings ==> KeyEffect(l, mappings, id) == KeyEffect(l, m0, id))
    && (forall id: Byte :: id !in ch.macros ==> MacroEffect(values, id) == MacroEffect(v0, id))
  }

  /** Kept true from the first write on: what the edit is not about is as it was, and a rename can only erase what it is about. */
  ghost predicate Inv(k: Board, l: Layout, ch: Changes, m0: map<Byte, Mapping>, v0: map<Byte, seq<Byte>>)
    requires l.Valid()
    reads k`named, k`mappings, k`values
  {
    && RestSame(l, ch, m0, v0, k.mappings, k.values)
    && ((k.named && !ch.rename) || NothingElse(ch, k.mappings, k.values))
  }

  lemma PartKeepsRest(l: Layout, ch: Changes, m0: map<Byte, Mapping>, v0: map<Byte, seq<Byte>>,
    mappings: map<Byte, Mapping>, values: map<Byte, seq<Byte>>, mappings': map<Byte, Mapping>, values': map<Byte, seq<Byte>>)
    requires l.Valid() && RestSame(l, ch, m0, v0, mappings, values) && NothingElse(ch, mappings, values)
    requires PartOf(mappings', mappings) && PartOf(values', values)
    ensures RestSame(l, ch, m0, v0, mappings', values') && NothingElse(ch, mappings', values')
  {
    forall id: Byte | id !in ch.mappings
      ensures Unassigned(MappingAt(mappings', id)) && KeyEffect(l, mappings', id) == KeyEffect(l, mappings, id)
    {
      assert Unassigned(MappingAt(mappings, id));
    }
  }

  /** Gives the keyboard a profile to hold mappings in if it has none. */
  method EnsureProfile(k: Board, l: Layout, ch: Changes, ghost m0: map<Byte, Mapping>, ghost v0: map<Byte, seq<Byte>>) returns (ok: bool)
    requires l.Valid() && Inv(k, l, ch, m0, v0)
    modifies k
    ensures k.failures <= old(k.failures) + 1 && (ok ==> k.failures == old(k.failures))
    ensures Inv(k, l, ch, m0, v0) && k.features == old(k.features) && k.volume == old(k.volume) && (ok ==> k.named)
    ensures old(k.named) ==> k.named && k.mappings == old(k.mappings) && k.values == old(k.values)
    ensures PartOf(k.values, old(k.values)) && (old(HasHome(k)) ==> HasHome(k))
    ensures k.sound ==> ok
  {
    ok := k.Answered();
    if !ok || k.named { return; }
    ghost var mappings, values := k.mappings, k.values;
    ok := k.Rename();
    PartKeepsRest(l, ch, m0, v0, mappings, values, k.mappings, k.values);
  }

  lemma OwnKeyKeepsRest(k: Board, l: Layout, ch: Changes, m0: map<Byte, Mapping>, v0: map<Byte, seq<Byte>>, was: map<Byte, Mapping>, id: Byte)
    requires l.Valid() && id in ch.mappings && SameBut(k.mappings, was, id)
    requires RestSame(l, ch, m0, v0, was, k.values) && ((k.named && !ch.rename) || NothingElse(ch, was, k.values))
    ensures Inv(k, l, ch, m0, v0)
  {
    forall j: Byte | j !in ch.mappings
      ensures MappingAt(k.mappings, j) == MappingAt(was, j)
    {
    }
  }

  lemma OwnMacroKeepsRest(k: Board, l: Layout, ch: Changes, m0: map<Byte, Mapping>, v0: map<Byte, seq<Byte>>, was: map<Byte, seq<Byte>>, id: Byte)
    requires l.Valid() && id in ch.macros && SameBut(k.values, was, id)
    requires RestSame(l, ch, m0, v0, k.mappings, was) && ((k.named && !ch.rename) || NothingElse(ch, k.mappings, was))
    ensures Inv(k, l, ch, m0, v0)
  {
    forall j: Byte | j !in ch.macros
      ensures MacroEffect(k.values, j) == MacroEffect(was, j)
    {
    }
  }

  /** Assigns one key and reads it back. */
  method WriteKey(k: Board, l: Layout, ch: Changes, id: Byte, ghost m0: map<Byte, Mapping>, ghost v0: map<Byte, seq<Byte>>) returns (ok: bool)
    requires l.Valid() && Inv(k, l, ch, m0, v0) && id in ch.mappings
    modifies k
    ensures k.failures <= old(k.failures) + 1 && (ok ==> k.failures == old(k.failures))
    ensures Inv(k, l, ch, m0, v0) && k.features == old(k.features) && k.volume == old(k.volume)
    ensures ok ==> k.named && Matches(MappingAt(k.mappings, id), ToWire(l.shift, ch.mappings[id]))
    ensures old(k.named) ==> k.named && SameBut(k.mappings, old(k.mappings), id)
    ensures old(HasHome(k)) ==> HasHome(k) && k.values == old(k.values)
    ensures k.sound ==> ok
  {
    ok := EnsureProfile(k, l, ch, m0, v0);
    if !ok { return; }
    ghost var was := k.mappings;
    var want := ToWire(l.shift, ch.mappings[id]);
    ok := k.PutKey(id, want);
    OwnKeyKeepsRest(k, l, ch, m0, v0, was, id);
    if !ok { return; }
    var answered := k.Answered();
    ok := answered && Matches(MappingAt(k.mappings, id), want);
  }

  /** The first n keys that were to be assigned are. */
  ghost predicate KeysWritten(k: Board, l: Layout, ch: Changes, n: int)
    requires l.Valid()
    reads k
  {
    forall id :: id in ch.mappings && id < n ==> k.named && Matches(MappingAt(k.mappings, id), ToWire(l.shift, ch.mappings[id]))
  }

  method WriteKeys(k: Board, l: Layout, ch: Changes, ghost m0: map<Byte, Mapping>, ghost v0: map<Byte, seq<Byte>>) returns (ok: bool)
    requires l.Valid() && Inv(k, l, ch, m0, v0)
    modifies k
    ensures k.failures <= old(k.failures) + 1 && (ok ==> k.failures == old(k.failures))
    ensures Inv(k, l, ch, m0, v0) && k.features == old(k.features) && k.volume == old(k.volume)
    ensures ok ==> KeysWritten(k, l, ch, 256)
    ensures old(HasHome(k)) ==> HasHome(k) && k.values == old(k.values)
    ensures k.sound ==> ok
  {
    hide Inv, Matches, ToWire;
    for i := 0 to 256
      invariant Inv(k, l, ch, m0, v0) && k.features == old(k.features) && k.volume == old(k.volume) && k.failures == old(k.failures)
      invariant old(HasHome(k)) ==> HasHome(k) && k.values == old(k.values)
      invariant KeysWritten(k, l, ch, i)
    {
      var id: Byte := i;
      if id !in ch.mappings { continue; }
      ok := WriteKey(k, l, ch, id, m0, v0);
      if !ok { return; }
    }
    return true;
  }

  /** What a key's macro was to become: nothing, or the value of a macro. */
  ghost predicate MacroWritten(values: map<Byte, seq<Byte>>, id: Byte, want: Option<Macro>) {
    match want
    case None => id !in values
    case Some(m) => Valid(m) && id in values && values[id] == Value(m)
  }

  const SLOTS: nat := 8

  /** Macros live in a named profile. */
  predicate HasHome(k: Board)
    reads k
  {
    k.named || k.values == map[]
  }

  /** Whether a sound keyboard that holds macros on these keys takes one more change of a macro. */
  ghost predicate Taken(held: set<Byte>, id: Byte, want: Option<Macro>) {
    want.Some? ==> Valid(want.value) && (id in held || |held| < SLOTS)
  }

  /** The keys that hold macros after a change that was taken. */
  function HeldNext(held: set<Byte>, id: Byte, want: Option<Macro>): set<Byte> {
    if want.Some? then held + {id} else held - {id}
  }

  /** The keys that hold macros after the first n keys' changes. */
  function HeldAfter(held: set<Byte>, macros: map<Byte, Option<Macro>>, n: nat): set<Byte>
    requires n <= 256
  {
    if n == 0 then held
    else
      var id: Byte, before := n - 1, HeldAfter(held, macros, n - 1);
      if id in macros then HeldNext(before, id, macros[id]) else before
  }

  /** Every change of a macro among the first n keys' finds the slot it needs. */
  ghost predicate RoomForAll(held: set<Byte>, macros: map<Byte, Option<Macro>>, n: nat)
    requires n <= 256
  {
    forall id: Byte :: id in macros && id < n ==> Taken(HeldAfter(held, macros, id), id, macros[id])
  }

  /** The first change that finds no slot is key n's. */
  ghost predicate StopsAt(held: set<Byte>, macros: map<Byte, Option<Macro>>, n: Byte) {
    n in macros && RoomForAll(held, macros, n) && !Taken(HeldAfter(held, macros, n), n, macros[n])
  }

  /** The keys left holding macros where a change found no slot. */
  ghost predicate StopsWith(held: set<Byte>, macros: map<Byte, Option<Macro>>, left: set<Byte>) {
    exists n: Byte :: StopsAt(held, macros, n) && left == HeldAfter(held, macros, n)
  }

  lemma StopsOnce(held: set<Byte>, macros: map<Byte, Option<Macro>>, m: Byte, n: Byte)
    requires StopsAt(held, macros, m) && StopsAt(held, macros, n)
    ensures m == n
  {
    hide Taken, HeldAfter;
  }

  /** Stores or removes one macro and reads it back. */
  method WriteKeyMacro(k: Board, l: Layout, ch: Changes, id: Byte, ghost m0: map<Byte, Mapping>, ghost v0: map<Byte, seq<Byte>>) returns (ok: bool)
    requires l.Valid() && Inv(k, l, ch, m0, v0) && id in ch.macros
    modifies k
    ensures k.failures <= old(k.failures) + 1 && (ok ==> k.failures == old(k.failures))
    ensures Inv(k, l, ch, m0, v0) && k.features == old(k.features) && k.volume == old(k.volume)
    ensures ok ==> MacroWritten(k.values, id, ch.macros[id]) && (ch.macros[id].Some? ==> k.named)
    ensures old(k.named) ==> k.named && k.mappings == old(k.mappings)
    ensures old(k.named) || ch.macros[id].None? ==> SameBut(k.values, old(k.values), id)
    ensures forall j: Byte :: j != id && j !in old(k.values) ==> j !in k.values
    ensures ch.macros[id].None? ==> k.mappings == old(k.mappings) && k.named == old(k.named)
    ensures k.sound && old(HasHome(k)) ==>
              && HasHome(k)
              && (ok <==> Taken(old(k.values).Keys, id, ch.macros[id]))
              && k.values.Keys == (if ok then HeldNext(old(k.values).Keys, id, ch.macros[id]) else old(k.values).Keys)
  {
    hide Inv, Valid, Value;
    if ch.macros[id].None? {
      ok := RemoveKeyMacro(k, l, ch, id, m0, v0);
    } else {
      ok := StoreKeyMacro(k, l, ch, id, m0, v0);
    }
  }

  method RemoveKeyMacro(k: Board, l: Layout, ch: Changes, id: Byte, ghost m0: map<Byte, Mapping>, ghost v0: map<Byte, seq<Byte>>) returns (ok: bool)
    requires l.Valid() && Inv(k, l, ch, m0, v0) && id in ch.macros
    modifies k`values, k`failures
    ensures k.failures <= old(k.failures) + 1 && (ok ==> k.failures == old(k.failures))
    ensures Inv(k, l, ch, m0, v0) && SameBut(k.values, old(k.values), id)
    ensures ok ==> id !in k.values
    ensures k.sound ==> ok && k.values.Keys == old(k.values).Keys - {id}
  {
    hide Valid, Value, MappingAt, DecodeValue;
    ghost var was := k.values;
    ok := k.PutMacro(id, None);
    OwnMacroKeepsRest(k, l, ch, m0, v0, was, id);
    if !ok { return; }
    var answered := k.Answered();
    return answered && id !in k.values;
  }

  /** Stores one macro, over the one the key already plays or in a free slot. */
  method StoreKeyMacro(k: Board, l: Layout, ch: Changes, id: Byte, ghost m0: map<Byte, Mapping>, ghost v0: map<Byte, seq<Byte>>) returns (ok: bool)
    requires l.Valid() && Inv(k, l, ch, m0, v0) && id in ch.macros && ch.macros[id].Some?
    modifies k
    ensures k.failures <= old(k.failures) + 1 && (ok ==> k.failures == old(k.failures))
    ensures Inv(k, l, ch, m0, v0) && k.features == old(k.features) && k.volume == old(k.volume)
    ensures ok ==> MacroWritten(k.values, id, ch.macros[id]) && k.named
    ensures old(k.named) ==> k.named && k.mappings == old(k.mappings) && SameBut(k.values, old(k.values), id)
    ensures forall j: Byte :: j != id && j !in old(k.values) ==> j !in k.values
    ensures k.sound && old(HasHome(k)) ==>
              && HasHome(k) && (ok <==> Taken(old(k.values).Keys, id, ch.macros[id]))
              && k.values.Keys == if ok then old(k.values).Keys + {id} else old(k.values).Keys
  {
    hide Valid, Value, MappingAt, DecodeValue, Inv, Taken;
    RoomIs(k.values, id, ch.macros[id].value);
    var value := EncodeValue(ch.macros[id].value);
    if value.Err? { return false; }
    var answered := k.Answered();
    if !answered || (id !in k.values && |k.values| >= SLOTS) { return false; }
    if id in k.values {
      ok := RemoveKeyMacro(k, l, ch, id, m0, v0);
      if !ok { return; }
    }
    ok := EnsureProfile(k, l, ch, m0, v0);
    if !ok { return; }
    ok := SendKeyMacro(k, l, ch, id, value.value, m0, v0);
  }

  lemma RoomIs(values: map<Byte, seq<Byte>>, id: Byte, m: Macro)
    ensures Taken(values.Keys, id, Some(m)) <==> Valid(m) && (id in values || |values| < SLOTS)
  {
    hide Valid;
    assert |values.Keys| == |values|;
  }

  /** Sends one macro's value and reads it back. */
  method SendKeyMacro(k: Board, l: Layout, ch: Changes, id: Byte, value: seq<Byte>, ghost m0: map<Byte, Mapping>, ghost v0: map<Byte, seq<Byte>>)
    returns (ok: bool)
    requires l.Valid() && Inv(k, l, ch, m0, v0) && id in ch.macros
    modifies k`values, k`failures
    ensures k.failures <= old(k.failures) + 1 && (ok ==> k.failures == old(k.failures))
    ensures Inv(k, l, ch, m0, v0) && SameBut(k.values, old(k.values), id)
    ensures ok ==> id in k.values && k.values[id] == value
    ensures k.sound ==> ok && k.values.Keys == old(k.values).Keys + {id}
  {
    hide DecodeValue, MappingAt;
    ghost var was := k.values;
    ok := k.PutMacro(id, Some(value));
    OwnMacroKeepsRest(k, l, ch, m0, v0, was, id);
    if !ok { return; }
    var answered := k.Answered();
    ok := answered && id in k.values && k.values[id] == value;
  }

  ghost predicate MacrosWritten(k: Board, ch: Changes, n: int)
    reads k
  {
    forall id :: id in ch.macros && id < n ==> MacroWritten(k.values, id, ch.macros[id]) && (ch.macros[id].Some? ==> k.named)
  }

  /** A board whose macros are on no more keys than there are slots has room for any of them. */
  ghost predicate FewEnough(held: set<Byte>, macros: map<Byte, Option<Macro>>) {
    |held + macros.Keys| <= SLOTS && forall id :: id in macros && macros[id].Some? ==> Valid(macros[id].value)
  }

  lemma FewTaken(held: set<Byte>, all: set<Byte>, macros: map<Byte, Option<Macro>>, id: Byte)
    requires FewEnough(all, macros) && held <= all + macros.Keys && id in macros
    ensures Taken(held, id, macros[id]) && HeldNext(held, id, macros[id]) <= all + macros.Keys
  {
    if id !in held {
      CardinalitySubset(held, all + macros.Keys - {id});
    }
  }

  lemma {:induction false} FewHasRoom(held: set<Byte>, macros: map<Byte, Option<Macro>>, n: nat)
    requires FewEnough(held, macros) && n <= 256
    ensures RoomForAll(held, macros, n) && HeldAfter(held, macros, n) <= held + macros.Keys
  {
    hide FewEnough, Taken, HeldNext, RoomForAll;
    if n == 0 {
      NoneHeldYet(held, macros);
    } else {
      FewHasRoom(held, macros, n - 1);
      RoomNext(held, macros, n - 1);
      if n - 1 in macros { FewTaken(HeldAfter(held, macros, n - 1), held, macros, n - 1); }
    }
  }

  lemma NoneHeldYet(held: set<Byte>, macros: map<Byte, Option<Macro>>)
    ensures RoomForAll(held, macros, 0) && HeldAfter(held, macros, 0) == held
  {
  }

  /** One more key's change. */
  lemma RoomNext(held: set<Byte>, macros: map<Byte, Option<Macro>>, id: Byte)
    ensures HeldAfter(held, macros, id + 1) ==
            if id in macros then HeldNext(HeldAfter(held, macros, id), id, macros[id]) else HeldAfter(held, macros, id)
    ensures RoomForAll(held, macros, id + 1) <==>
            RoomForAll(held, macros, id) && (id in macros ==> Taken(HeldAfter(held, macros, id), id, macros[id]))
    ensures RoomForAll(held, macros, 256) ==> RoomForAll(held, macros, id + 1)
  {
    hide Taken, HeldNext;
  }

  lemma {:induction false} CardinalitySubset(a: set<Byte>, b: set<Byte>)
    requires a <= b
    ensures |a| <= |b|
  {
    if a != {} {
      var x :| x in a;
      CardinalitySubset(a - {x}, b - {x});
    }
  }

  method WriteMacros(k: Board, l: Layout, ch: Changes, ghost m0: map<Byte, Mapping>, ghost v0: map<Byte, seq<Byte>>) returns (ok: bool)
    requires l.Valid() && Inv(k, l, ch, m0, v0) && KeysWritten(k, l, ch, 256)
    modifies k
    ensures k.failures <= old(k.failures) + 1 && (ok ==> k.failures == old(k.failures))
    ensures Inv(k, l, ch, m0, v0) && k.features == old(k.features) && k.volume == old(k.volume)
    ensures ok ==> KeysWritten(k, l, ch, 256) && MacrosWritten(k, ch, 256)
    ensures k.sound && old(HasHome(k)) ==>
              && HasHome(k) && (ok <==> RoomForAll(old(k.values).Keys, ch.macros, 256))
              && (!ok ==> StopsWith(old(k.values).Keys, ch.macros, k.values.Keys))
  {
    hide Inv, Matches, ToWire, Valid, Value, Taken, HeldNext, RoomForAll, HeldAfter;
    ghost var held0, sure := k.values.Keys, k.sound && HasHome(k);
    NoneHeldYet(held0, ch.macros);
    for i := 0 to 256
      invariant Inv(k, l, ch, m0, v0) && k.features == old(k.features) && k.volume == old(k.volume) && k.failures == old(k.failures)
      invariant KeysWritten(k, l, ch, 256) && MacrosWritten(k, ch, i)
      invariant sure ==> HasHome(k) && k.values.Keys == HeldAfter(held0, ch.macros, i) && RoomForAll(held0, ch.macros, i)
    {
      var id: Byte := i;
      RoomNext(held0, ch.macros, id);
      if id !in ch.macros { continue; }
      ok := WriteKeyMacro(k, l, ch, id, m0, v0);
      if !ok {
        if sure { assert StopsAt(held0, ch.macros, id); }
        return;
      }
    }
    return true;
  }

  /** The settings beside the keys are as an edit asks. */
  predicate SettingsWritten(ch: Changes, features: Byte, volume: Byte) {
    (ch.locks.Some? ==> features == ch.locks.value) && (ch.volume.Some? ==> volume == ch.volume.value)
  }

  predicate VolumeOk(ch: Changes) { ch.volume.Some? ==> 1 <= ch.volume.value <= 5 }

  /** Everything an edit asks for is there. */
  ghost predicate Written(k: Board, l: Layout, ch: Changes)
    requires l.Valid()
    reads k
  {
    KeysWritten(k, l, ch, 256) && MacrosWritten(k, ch, 256) && SettingsWritten(ch, k.features, k.volume)
  }

  /** Sets the lock options and the volume, and reads each back. */
  method WriteSettings(k: Board, l: Layout, ch: Changes, ghost m0: map<Byte, Mapping>, ghost v0: map<Byte, seq<Byte>>) returns (ok: bool)
    requires l.Valid() && Inv(k, l, ch, m0, v0) && KeysWritten(k, l, ch, 256) && MacrosWritten(k, ch, 256)
    modifies k
    ensures k.failures <= old(k.failures) + 1 && (ok ==> k.failures == old(k.failures))
    ensures Inv(k, l, ch, m0, v0)
    ensures ok ==> Written(k, l, ch)
    ensures ch.locks.None? ==> k.features == old(k.features)
    ensures ch.volume.None? ==> k.volume == old(k.volume)
    ensures k.sound ==> (ok <==> VolumeOk(ch))
  {
    hide Matches, ToWire, Valid, Value, RestSame, NothingElse;
    if ch.locks.Some? {
      ok := EnsureProfile(k, l, ch, m0, v0);
      if !ok { return; }
      ok := k.PutFeatures(ch.locks.value);
      if !ok { return; }
      var answered := k.Answered();
      if !answered || k.features != ch.locks.value { return false; }
    }
    if ch.volume.Some? {
      if ch.volume.value < 1 || ch.volume.value > 5 { return false; }
      ok := k.PutVolume(ch.volume.value);
      if !ok { return; }
      var answered := k.Answered();
      if !answered || k.volume != ch.volume.value { return false; }
    }
    return true;
  }

  lemma StillFew(all: set<Byte>, held: set<Byte>, macros: map<Byte, Option<Macro>>)
    requires FewEnough(all, macros) && held <= all
    ensures FewEnough(held, macros)
  {
    CardinalitySubset(held + macros.Keys, all + macros.Keys);
  }

  /** Writes each change and reads it back: the name, the keys and the macros in id order, then the settings. */
  method WriteChanges(k: Board, l: Layout, ch: Changes, ghost m0: map<Byte, Mapping>, ghost v0: map<Byte, seq<Byte>>) returns (ok: bool)
    requires l.Valid() && Inv(k, l, ch, m0, v0)
    modifies k
    ensures k.failures <= old(k.failures) + 1 && (ok ==> k.failures == old(k.failures))
    ensures Inv(k, l, ch, m0, v0)
    ensures ok ==> Written(k, l, ch)
    ensures ch.locks.None? ==> k.features == old(k.features)
    ensures ch.volume.None? ==> k.volume == old(k.volume)
    ensures k.sound && VolumeOk(ch) && !ch.rename && old(HasHome(k)) ==>
              && (ok <==> RoomForAll(old(k.values).Keys, ch.macros, 256))
              && (!ok ==> HasHome(k) && StopsWith(old(k.values).Keys, ch.macros, k.values.Keys))
    ensures k.sound && VolumeOk(ch) && ch.rename && FewEnough(old(k.values).Keys, ch.macros) ==> ok
    ensures k.sound && VolumeOk(ch) && ch.rename && !ok ==> HasHome(k)
  {
    ghost var held0 := k.values.Keys;
    if ch.rename {
      ghost var mappings, values := k.mappings, k.values;
      ok := k.Rename();
      PartKeepsRest(l, ch, m0, v0, mappings, values, k.mappings, k.values);
      if !ok { return; }
      if FewEnough(held0, ch.macros) {
        StillFew(held0, k.values.Keys, ch.macros);
        FewHasRoom(k.values.Keys, ch.macros, 256);
      }
    }
    hide Inv, KeysWritten, MacrosWritten, RoomForAll, StopsWith, FewEnough;
    ok := WriteKeys(k, l, ch, m0, v0);
    if !ok { return; }
    ok := WriteMacros(k, l, ch, m0, v0);
    if !ok { return; }
    ok := WriteSettings(k, l, ch, m0, v0);
  }

  // ---- Apply and undo

  function AsChanges(macros: map<Byte, Macro>): (r: map<Byte, Option<Macro>>)
    ensures forall id :: id in r <==> id in macros
    ensures forall id :: id in r ==> r[id] == Some(macros[id])
  {
    map id | id in macros :: Some(macros[id])
  }

  /** A rename writes again everything that was stored: whether renaming keeps it is the keyboard's business. */
  function Merged(ch: Changes, before: Profile): Changes {
    if !ch.rename then ch
    else ch.(mappings := before.mappings + ch.mappings, macros := AsChanges(before.macros) + ch.macros)
  }

  /** The changes that restore every setting an edit touches. */
  function UndoOf(l: Layout, ch: Changes, before: Profile): Changes {
    Changes(
      map id | id in ch.mappings :: if id in before.mappings then before.mappings[id] else l.PlainOf(id),
      map id | id in ch.macros :: if id in before.macros then Some(before.macros[id]) else None,
      if ch.locks.Some? then Some(before.locks) else None,
      if ch.volume.Some? && 1 <= before.volume <= 5 then Some(before.volume) else None,
      ch.rename && before.named)
  }

  /** The macros an undo puts back: what was read of each key the edit is about. */
  function OldMacros(macros: map<Byte, Option<Macro>>, values: map<Byte, seq<Byte>>): map<Byte, Option<Macro>> {
    map id | id in macros :: if id in values && DecodeValue(values[id]).Ok? then Some(DecodeValue(values[id]).value) else None
  }

  /** The undo of an edit that found no slot for a macro finds one for each of its own. */
  ghost predicate UndoHasRoom(held: set<Byte>, macros: map<Byte, Option<Macro>>, before: map<Byte, Option<Macro>>) {
    exists n: Byte :: StopsAt(held, macros, n) && RoomForAll(HeldAfter(held, macros, n), before, 256)
  }

  lemma RoomOfStop(held: set<Byte>, macros: map<Byte, Option<Macro>>, left: set<Byte>, before: map<Byte, Option<Macro>>)
    requires StopsWith(held, macros, left)
    ensures UndoHasRoom(held, macros, before) <==> RoomForAll(left, before, 256)
  {
    hide StopsAt, RoomForAll, HeldAfter;
    var n: Byte :| StopsAt(held, macros, n) && left == HeldAfter(held, macros, n);
    forall m: Byte | StopsAt(held, macros, m)
      ensures m == n
    {
      StopsOnce(held, macros, m, n);
    }
  }

  datatype Report = Report(writeApplied: bool, rollbackAttempted: bool, rollbackSucceeded: bool)

  /**
   Every key an edit is about does what it asks; any other does what it did, exactly when it was not
   written again or means the same once it is.
   */
  ghost predicate KeysAfter(l: Layout, ch: Changes, m0: map<Byte, Mapping>, mappings: map<Byte, Mapping>)
    requires l.Valid()
  {
    && (forall id: Byte :: id in ch.mappings ==>
          KeyEffect(l, mappings, id) == EffectOf(l.shift, l.PlainOf(id), ToWire(l.shift, ch.mappings[id])))
    && (forall id: Byte :: id !in ch.mappings ==>
          (KeyEffect(l, mappings, id) == KeyEffect(l, m0, id) <==> !ch.rename || KeySurvives(l, m0, id)))
  }

  /** Every key does what it did, exactly when the edit was not about it or it means the same once it is written again. */
  ghost predicate KeysBack(l: Layout, ch: Changes, m0: map<Byte, Mapping>, mappings: map<Byte, Mapping>)
    requires l.Valid()
  {
    forall id: Byte :: KeyEffect(l, mappings, id) == KeyEffect(l, m0, id) <==> (id !in ch.mappings && !ch.rename) || KeySurvives(l, m0, id)
  }

  /** Every key plays the macro an edit asks for, or the one it played. */
  ghost predicate MacrosAfter(ch: Changes, v0: map<Byte, seq<Byte>>, values: map<Byte, seq<Byte>>) {
    forall id: Byte :: MacroEffect(values, id) == if id in ch.macros then AskedMacro(ch.macros[id]) else MacroEffect(v0, id)
  }

  function AskedMacro(want: Option<Macro>): Option<Result<Macro>> {
    match want
    case None => None
    case Some(m) => Some(Ok(Normal(m)))
  }

  lemma WrittenMacroEffect(values: map<Byte, seq<Byte>>, id: Byte, want: Option<Macro>)
    requires MacroWritten(values, id, want)
    ensures MacroEffect(values, id) == AskedMacro(want)
  {
    if want.Some? {
      ValueRoundTrip(want.value);
    }
  }

  /** What is read of a macro is in normal form, so writing it back gives the same macro. */
  lemma ReadMacroIsNormal(value: seq<Byte>)
    requires DecodeValue(value).Ok?
    ensures Normal(DecodeValue(value).value) == DecodeValue(value).value
  {
    hide StepsIn;
  }

  /** Before anything is written, the merged edit covers whatever a rename could erase. */
  lemma MergedCovers(k: Board, l: Layout, ch: Changes, before: Profile)
    requires l.Valid() && ReadFrom(l, before, k.named, k.mappings, k.values, k.features, k.volume)
    requires k.named || (k.values == map[] && forall id: Byte :: Unassigned(MappingAt(k.mappings, id)))
    ensures Inv(k, l, Merged(ch, before), k.mappings, k.values)
  {
  }

  /** An undo touches what the edit touched, so what holds for one holds for the other. */
  lemma UndoCovers(k: Board, l: Layout, ch: Changes, before: Profile, m0: map<Byte, Mapping>, v0: map<Byte, seq<Byte>>)
    requires l.Valid() && Inv(k, l, ch, m0, v0)
    ensures Inv(k, l, UndoOf(l, ch, before), m0, v0)
  {
  }

  lemma AppliedKeys(l: Layout, k: Board, ch: Changes, before: Profile, m0: map<Byte, Mapping>, v0: map<Byte, seq<Byte>>, f0: Byte, vol0: Byte, n0: bool)
    requires l.Valid() && ReadFrom(l, before, n0, m0, v0, f0, vol0)
    requires Inv(k, l, Merged(ch, before), m0, v0) && Written(k, l, Merged(ch, before))
    ensures KeysAfter(l, ch, m0, k.mappings) && MacrosAfter(ch, v0, k.values)
  {
    hide ToWire, FromWire, EffectOf, DecodeValue, Normal, Valid, Value, Survives;
    var all := Merged(ch, before);
    forall id: Byte | true
      ensures id in ch.mappings ==> KeyEffect(l, k.mappings, id) == EffectOf(l.shift, l.PlainOf(id), ToWire(l.shift, ch.mappings[id]))
      ensures id !in ch.mappings ==> (KeyEffect(l, k.mappings, id) == KeyEffect(l, m0, id) <==> !ch.rename || KeySurvives(l, m0, id))
    {
      if id in all.mappings {
        MatchesSameEffect(l.shift, l.PlainOf(id), MappingAt(k.mappings, id), ToWire(l.shift, all.mappings[id]));
        if id !in ch.mappings { RewrittenKey(l, id, m0); }
      } else {
        UnlistedSurvives(l, m0, id);
      }
    }
    forall id: Byte | true
      ensures MacroEffect(k.values, id) == if id in ch.macros then AskedMacro(ch.macros[id]) else MacroEffect(v0, id)
    {
      if id in all.macros {
        WrittenMacroEffect(k.values, id, all.macros[id]);
        if id !in ch.macros {
          ReadMacroIsNormal(v0[id]);
        }
      }
    }
  }

  lemma RewrittenKey(l: Layout, id: Byte, m0: map<Byte, Mapping>)
    requires l.Valid() && FromWire(l.shift, MappingAt(m0, id)).Ok?
    ensures var t := FromWire(l.shift, MappingAt(m0, id)).value;
            EffectOf(l.shift, l.PlainOf(id), ToWire(l.shift, t)) == KeyEffect(l, m0, id) <==> KeySurvives(l, m0, id)
  {
    RewriteSameEffect(l.shift, l.PlainOf(id), MappingAt(m0, id));
  }

  lemma UnlistedSurvives(l: Layout, m0: map<Byte, Mapping>, id: Byte)
    requires l.Valid()
    ensures !Listed(MappingAt(m0, id)) ==> KeySurvives(l, m0, id) && Unassigned(MappingAt(m0, id))
  {
  }

  /** A key no mapping was listed for does what it did once its default is written. */
  lemma DefaultWritten(l: Layout, m0: map<Byte, Mapping>, id: Byte)
    requires l.Valid() && !Listed(MappingAt(m0, id))
    ensures EffectOf(l.shift, l.PlainOf(id), ToWire(l.shift, l.PlainOf(id))) == KeyEffect(l, m0, id)
  {
    DefaultSameEffect(l.shift, l.PlainOf(id), MappingAt(m0, id));
  }

  lemma RestoredKeys(l: Layout, k: Board, ch: Changes, before: Profile, m0: map<Byte, Mapping>, v0: map<Byte, seq<Byte>>, f0: Byte, vol0: Byte, n0: bool)
    requires l.Valid() && ReadFrom(l, before, n0, m0, v0, f0, vol0)
    requires Inv(k, l, UndoOf(l, Merged(ch, before), before), m0, v0) && Written(k, l, UndoOf(l, Merged(ch, before), before))
    ensures KeysBack(l, ch, m0, k.mappings)
    ensures forall id: Byte :: MacroEffect(k.values, id) == MacroEffect(v0, id)
  {
    hide ToWire, FromWire, EffectOf, DecodeValue, Normal, Valid, Value, Survives;
    var undo := UndoOf(l, Merged(ch, before), before);
    forall id: Byte | true
      ensures KeyEffect(l, k.mappings, id) == KeyEffect(l, m0, id) <==> (id !in ch.mappings && !ch.rename) || KeySurvives(l, m0, id)
    {
      UnlistedSurvives(l, m0, id);
      if id in undo.mappings {
        MatchesSameEffect(l.shift, l.PlainOf(id), MappingAt(k.mappings, id), ToWire(l.shift, undo.mappings[id]));
        if id in before.mappings {
          RewrittenKey(l, id, m0);
        } else {
          DefaultWritten(l, m0, id);
        }
      }
    }
    forall id: Byte | true
      ensures MacroEffect(k.values, id) == MacroEffect(v0, id)
    {
      if id in undo.macros {
        WrittenMacroEffect(k.values, id, undo.macros[id]);
        if id in v0 {
          ReadMacroIsNormal(v0[id]);
        }
      }
    }
  }

  ghost predicate MacrosValid(macros: map<Byte, Option<Macro>>) {
    forall id :: id in macros && macros[id].Some? ==> Valid(macros[id].value)
  }

  /** Every stored macro is one this program would store. */
  ghost predicate StoredValid(values: map<Byte, seq<Byte>>) {
    forall id :: id in values ==> DecodeValue(values[id]).Ok? && Valid(DecodeValue(values[id]).value)
  }

  /** A rename's merged macros find room when the keys that hold one or are given one are few enough. */
  lemma MergedFew(ch: Changes, before: Profile, values: map<Byte, seq<Byte>>)
    requires ch.rename && MacrosValid(ch.macros) && StoredValid(values) && |values.Keys + ch.macros.Keys| <= SLOTS
    requires forall id: Byte :: id in before.macros <==> id in values
    requires forall id :: id in before.macros ==> DecodeValue(values[id]) == Ok(before.macros[id])
    ensures FewEnough(values.Keys, Merged(ch, before).macros)
  {
    hide Valid, DecodeValue;
    assert values.Keys + Merged(ch, before).macros.Keys == values.Keys + ch.macros.Keys;
  }

  /** Checks made before anything is read: macros the keyboard can hold, and a volume it has. */
  method CheckChanges(ch: Changes) returns (ok: bool)
    ensures ok <==> VolumeOk(ch) && MacrosValid(ch.macros)
  {
    for i := 0 to 256
      invariant forall id :: id in ch.macros && id < i && ch.macros[id].Some? ==> Valid(ch.macros[id].value)
    {
      var id: Byte := i;
      if id in ch.macros && ch.macros[id].Some? {
        ok := Validate(ch.macros[id].value);
        if !ok { return; }
      }
    }
    return VolumeOk(ch);
  }

  lemma SettingsBack(k: Board, l: Layout, ch: Changes)
    requires l.Valid() && Written(k, l, ch)
    ensures SettingsWritten(ch, k.features, k.volume)
  {
    hide KeysWritten, MacrosWritten;
  }

  /** Removing macros needs no room. */
  lemma {:induction false} UndoOfNothing(held: set<Byte>, macros: map<Byte, Option<Macro>>, n: nat)
    requires n <= 256 && forall id :: id in macros ==> macros[id].None?
    ensures RoomForAll(held, macros, n)
  {
  }

  lemma UndoMacros(l: Layout, ch: Changes, before: Profile, n0: bool, m0: map<Byte, Mapping>, v0: map<Byte, seq<Byte>>, f0: Byte, vol0: Byte)
    requires l.Valid() && ReadFrom(l, before, n0, m0, v0, f0, vol0)
    ensures UndoOf(l, ch, before).macros == OldMacros(ch.macros, v0)
  {
    hide DecodeValue, FromWire;
  }

  /** Puts back what an edit that failed touched. */
  method Rollback(k: Board, l: Layout, ch: Changes, before: Profile,
    ghost m0: map<Byte, Mapping>, ghost v0: map<Byte, seq<Byte>>, ghost f0: Byte, ghost vol0: Byte, ghost n0: bool) returns (ok: bool)
    requires l.Valid() && ReadFrom(l, before, n0, m0, v0, f0, vol0) && Inv(k, l, Merged(ch, before), m0, v0)
    requires (ch.locks.None? ==> k.features == f0) && (ch.volume.None? ==> k.volume == vol0)
    modifies k
    ensures k.failures <= old(k.failures) + 1 && (ok ==> k.failures == old(k.failures))
    ensures ok ==> KeysBack(l, ch, m0, k.mappings) && forall id: Byte :: MacroEffect(k.values, id) == MacroEffect(v0, id)
    ensures ok ==> k.features == if ch.locks.Some? then f0 % 8 else f0
    ensures ok && (1 <= vol0 <= 5 || ch.volume.None?) ==> k.volume == vol0
    ensures !(1 <= vol0 <= 5) ==> k.volume == old(k.volume)
    ensures k.sound && ch.rename && !n0 && v0 == map[] && old(HasHome(k)) ==> ok
    ensures k.sound && !ch.rename && old(HasHome(k)) ==> (ok <==> RoomForAll(old(k.values).Keys, OldMacros(ch.macros, v0), 256))
  {
    hide Inv, Written, KeysBack, MacroEffect, RoomForAll, StopsWith, OldMacros, FewEnough, Readable;
    var all := Merged(ch, before);
    UndoCovers(k, l, all, before, m0, v0);
    var undo := UndoOf(l, all, before);
    assert VolumeOk(undo);
    if ch.rename && v0 == map[] && !n0 { UndoOfNothing(k.values.Keys, undo.macros, 256); }
    if !ch.rename { UndoMacros(l, ch, before, n0, m0, v0, f0, vol0); }
    ok := WriteChanges(k, l, undo, m0, v0);
    if ok {
      RestoredKeys(l, k, ch, before, m0, v0, f0, vol0, n0);
      SettingsBack(k, l, undo);
    }
  }

  /**
   Applies an edit. A keyboard without a named profile holds no mappings or macros. Success means every
   key does and plays what the edit asks or, where it asks nothing, what it did, even if renaming erased
   any of what was stored; and a rollback that succeeded means every key does and plays what it did. A
   key that is written again keeps doing what it did exactly when its mapping survives being read.
   */
  method Apply(k: Board, l: Layout, ch: Changes) returns (r: Result<Report>)
    requires l.Valid() && ChangesFit(ch)
    requires k.named || (k.values == map[] && forall id: Byte :: Unassigned(MappingAt(k.mappings, id)))
    modifies k
    ensures r.Err? ==> k.mappings == old(k.mappings) && k.values == old(k.values) && k.features == old(k.features) && k.volume == old(k.volume)
    ensures r.Ok? ==> r.value.writeApplied == !r.value.rollbackAttempted && (r.value.rollbackSucceeded ==> r.value.rollbackAttempted)
    ensures r.Ok? && r.value.writeApplied ==> k.failures == old(k.failures)
    ensures r.Ok? && r.value.rollbackSucceeded ==> k.failures <= old(k.failures) + 1
    ensures r.Ok? && r.value.writeApplied ==>
              && KeysAfter(l, ch, old(k.mappings), k.mappings) && MacrosAfter(ch, old(k.values), k.values)
              && k.features == (if ch.locks.Some? then ch.locks.value else old(k.features))
              && k.volume == (if ch.volume.Some? then ch.volume.value else old(k.volume))
    ensures r.Ok? && r.value.rollbackSucceeded ==>
              && KeysBack(l, ch, old(k.mappings), k.mappings)
              && (forall id: Byte :: MacroEffect(k.values, id) == MacroEffect(old(k.values), id))
              && k.features == (if ch.locks.Some? then old(k.features) % 8 else old(k.features))
              && (1 <= old(k.volume) <= 5 || ch.volume.None? ==> k.volume == old(k.volume))
    ensures k.sound ==> (r.Ok? <==> VolumeOk(ch) && MacrosValid(ch.macros) && Readable(l, old(k.mappings), old(k.values)))
    ensures k.sound && r.Ok? && !ch.rename ==> (r.value.writeApplied <==> RoomForAll(old(k.values).Keys, ch.macros, 256))
    ensures k.sound && r.Ok? && !ch.rename && !r.value.writeApplied ==>
              (r.value.rollbackSucceeded <==> UndoHasRoom(old(k.values).Keys, ch.macros, OldMacros(ch.macros, old(k.values))))
    ensures k.sound && r.Ok? && ch.rename && !old(k.named) && !r.value.writeApplied ==> r.value.rollbackSucceeded
    ensures k.sound && r.Ok? && ch.rename && |old(k.values).Keys + ch.macros.Keys| <= SLOTS && StoredValid(old(k.values)) ==>
              r.value.writeApplied
  {
    var checked := CheckChanges(ch);
    if !checked { return Err; }
    var read := ReadProfile(k, l);
    if read.Err? { return Err; }
    var before := read.value;
    var all := Merged(ch, before);
    ghost var m0, v0, f0, vol0, n0 := k.mappings, k.values, k.features, k.volume, k.named;
    MergedCovers(k, l, ch, before);
    if ch.rename && StoredValid(v0) && |v0.Keys + ch.macros.Keys| <= SLOTS { MergedFew(ch, before, v0); }
    hide RoomForAll, FewEnough, StoredValid, MacrosValid, StopsWith, UndoHasRoom, OldMacros;
    hide Inv, KeysWritten, MacrosWritten, KeysAfter, KeysBack, MacrosAfter, KeySurvives, KeyEffect, MacroEffect, Readable, Written;
    var ok := WriteChanges(k, l, all, m0, v0);
    if ok {
      AppliedKeys(l, k, ch, before, m0, v0, f0, vol0, n0);
      SettingsBack(k, l, all);
      return Ok(Report(true, false, false));
    }
    if k.sound && !ch.rename { RoomOfStop(v0.Keys, ch.macros, k.values.Keys, OldMacros(ch.macros, v0)); }
    ok := Rollback(k, l, ch, before, m0, v0, f0, vol0, n0);
    return Ok(Report(false, true, ok));
  }

  // ---- An edit that cannot be undone

  const TAP := Macro([Press(4), Release(4)], 1, 0)

  /** On a keyboard whose macros are on keys 1 to 8: key 5's macro goes, and keys 9 and 10 are to have one. */
  const SWAP: map<Byte, Option<Macro>> := map[5 := None, 9 := Some(TAP), 10 := Some(TAP)]

  const FULL: set<Byte> := {1, 2, 3, 4, 5, 6, 7, 8}

  lemma SwapHeld(n: nat)
    requires n <= 256
    ensures HeldAfter(FULL, SWAP, n) == if n <= 5 then FULL else if n <= 9 then FULL - {5} else if n <= 10 then FULL - {5} + {9} else FULL - {5} + {9, 10}
  {
    if n > 0 { SwapHeld(n - 1); }
  }

  lemma TapValid()
    ensures Valid(TAP) && Normal(TAP) == TAP && DecodeValue(Value(TAP)) == Ok(TAP)
  {
    assert Held(TAP.steps, 1) == {4} && Held(TAP.steps, 2) == {};
    hide DecodeValue, Value;
    ValueRoundTrip(TAP);
  }

  lemma SwapStops()
    ensures MacrosValid(SWAP) && StopsAt(FULL, SWAP, 10)
  {
    TapValid();
    hide Valid, HeldAfter;
    SwapHeld(5);
    SwapHeld(9);
    SwapHeld(10);
    assert |FULL - {5}| == 7 && |FULL - {5} + {9}| == 8;
  }

  /** The second of them finds no slot, and then the first is in the way of the macro that was there: no fault, and no way back. */
  lemma NoWayBack(values: map<Byte, seq<Byte>>)
    requires values.Keys == FULL && values[5] == Value(TAP)
    ensures MacrosValid(SWAP) && StopsAt(FULL, SWAP, 10) && !UndoHasRoom(FULL, SWAP, OldMacros(SWAP, values))
  {
    hide Valid, DecodeValue, Value, HeldAfter, StopsAt;
    var undo, left := OldMacros(SWAP, values), HeldAfter(FULL, SWAP, 10);
    TapValid();
    SwapStops();
    SwapHeld(10);
    UntilFive(left, undo, 5);
    assert 5 in undo && undo[5] == Some(TAP);
    assert 5 !in left && |left| == 8;
    assert !Taken(HeldAfter(left, undo, 5), 5, undo[5]);
    RoomOfStop(FULL, SWAP, left, undo);
  }

  lemma {:induction false} UntilFive(held: set<Byte>, macros: map<Byte, Option<Macro>>, n: nat)
    requires n <= 5 && forall id :: id in macros ==> id >= 5
    ensures HeldAfter(held, macros, n) == held
  {
    if n > 0 { UntilFive(held, macros, n - 1); }
  }
}

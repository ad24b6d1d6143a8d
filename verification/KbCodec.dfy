/** The record keyboards' configuration record: what it holds, and how an edit is written into it. */
module KbCodec {
  import opened Bytes
  import opened Names
  import opened Patch
  import opened KbTargets
  import opened KbLighting

  const RECORD_SIZE: nat := 0x5fc
  const IN_USE: U32 := 0x20200902

  const OFF_NAME: nat := 0x004
  const OFF_PROFILE_ON: nat := 0x024
  const OFF_SLEEP: nat := 0x026
  const OFF_LIGHTS_OFF: nat := 0x027
  const OFF_KEYS: nat := 0x028
  const OFF_LOCKS: nat := 0x5c8
  const OFF_VOLUME: nat := 0x5c9
  const OFF_THEME: nat := 0x5ca
  const OFF_LIGHT_IDLE: nat := 0x5cc
  const OFF_PER_KEY: nat := 0x5f9
  const OFF_DYNAMIC: nat := 0x5fa
  const KEY_ENTRY: nat := 12

  datatype Locks = Locks(winKey: bool, altTab: bool, altF4: bool)

  /** Everything the record itself holds that this program edits. */
  datatype Fields = Fields(
    name: Name, targets: seq<Target>, locks: Locks, volume: int, sleepMinutes: int, lightsOffMinutes: int,
    perKeyOn: bool, theme: int, themes: seq<Theme>, windowsDynamic: bool)

  predicate Shaped(f: Fields) { |f.targets| == KEY_SLOTS && |f.themes| == THEMES && WellFormed(f.name) }

  function Flag(on: bool): Byte { if on then 1 else 0 }

  function LocksOf(flags: Byte): Locks {
    Locks(flags % 2 == 1, flags / 2 % 2 == 1, flags / 4 % 2 == 1)
  }

  /** The lock bits set into a byte whose other bits are kept. */
  function WithLocks(stored: Byte, locks: Locks): Byte {
    stored / 8 * 8 + Flag(locks.winKey) + 2 * Flag(locks.altTab) as int + 4 * Flag(locks.altF4) as int
  }

  lemma LocksRoundTrip(stored: Byte, locks: Locks)
    ensures LocksOf(WithLocks(stored, locks)) == locks && WithLocks(stored, locks) / 8 == stored / 8
  {
    var high, low: int := stored / 8, WithLocks(stored, locks) - stored / 8 * 8;
    assert 0 <= low < 8;
    assert WithLocks(stored, locks) / 8 == high;
    assert WithLocks(stored, locks) / 2 == 4 * high + low / 2;
    assert WithLocks(stored, locks) / 4 == 2 * high + low / 4;
  }

  // ---- The sections of the record, in the order an edit writes them

  const NAME_AT := 0
  const KEYS_AT := 1
  const LOCKS_AT := 121
  const VOLUME_AT := 122
  const SLEEP_AT := 123
  const LIGHTS_OFF_AT := 124
  const PER_KEY_AT := 125
  const THEME_AT := 126
  const THEMES_AT := 127
  const DYNAMIC_AT := 135
  const SECTIONS: nat := 136

  /** Where the nth section is. */
  function Where(n: nat): (s: Span)
    requires n < SECTIONS
    ensures s.offset + s.length <= RECORD_SIZE
  {
    if n == NAME_AT then Span(OFF_NAME, NAME_BYTES)
    else if n < LOCKS_AT then Span(OFF_KEYS + (n - KEYS_AT) * KEY_ENTRY, KEY_ENTRY)
    else if n == LOCKS_AT then Span(OFF_LOCKS, 1)
    else if n == VOLUME_AT then Span(OFF_VOLUME, 1)
    else if n == SLEEP_AT then Span(OFF_SLEEP, 1)
    else if n == LIGHTS_OFF_AT then Span(OFF_LIGHTS_OFF, 1)
    else if n == PER_KEY_AT then Span(OFF_PER_KEY, 1)
    else if n == THEME_AT then Span(OFF_THEME, 1)
    else if n < DYNAMIC_AT then Span(SectionOf(n - THEMES_AT).offset, SectionOf(n - THEMES_AT).size)
    else Span(OFF_DYNAMIC, 1)
  }

  /** The bytes of the nth section as they are in a record. */
  function At(rec: seq<Byte>, n: nat): (b: seq<Byte>)
    requires |rec| == RECORD_SIZE && n < SECTIONS
    ensures |b| == Where(n).length
  {
    rec[Where(n).offset..Where(n).offset + Where(n).length]
  }

  function DecodeFields(l: Layout, shown: seq<Byte>): (f: Fields)
    requires KnownLayout(l) && |shown| == RECORD_SIZE
    ensures Shaped(f)
  {
    Fields(
      DecodeName(At(shown, NAME_AT)),
      seq(KEY_SLOTS, i requires 0 <= i < KEY_SLOTS => DecodeTarget(l, At(shown, KEYS_AT + i))),
      LocksOf(At(shown, LOCKS_AT)[0]),
      At(shown, VOLUME_AT)[0],
      if l.timers then At(shown, SLEEP_AT)[0] else 0,
      if l.timers then At(shown, LIGHTS_OFF_AT)[0] else 0,
      At(shown, PER_KEY_AT)[0] == 1,
      ThemeFromWire(l, At(shown, THEME_AT)[0]),
      seq(THEMES, t requires 0 <= t < THEMES => DecodeTheme(SectionOf(t), At(shown, THEMES_AT + t))),
      At(shown, DYNAMIC_AT)[0] == 1)
  }

  predicate TimerOk(minutes: int) { 5 <= minutes <= 30 && minutes % 5 == 0 }

  /** A key's table entry with the key's own code filled in where the record has none. */
  function EntryBase(key: KeyInfo, entry: seq<Byte>): (e: seq<Byte>)
    requires |entry| == KEY_ENTRY
    ensures |e| == KEY_ENTRY
  {
    if entry[0] != 0 then entry else entry[0 := if key.port then VALUE_OFF else key.usage]
  }

  function EncodeTarget(l: Layout, i: nat, entry: seq<Byte>, t: Target): (r: Result<seq<Byte>>)
    requires KnownLayout(l) && |entry| == KEY_ENTRY
    ensures r.Ok? ==> |r.value| == KEY_ENTRY
  {
    match KeyAt(l, i)
    case None => Err
    case Some(key) =>
      var base := EntryBase(key, entry);
      match Wire(l, key, base[0], t)
      case Err => Err
      case Ok(s) => Ok(EntryWith(base, s))
  }

  predicate TimersOk(e: Fields) {
    TimerOk(e.sleepMinutes) && TimerOk(e.lightsOffMinutes) && e.lightsOffMinutes <= e.sleepMinutes
  }

  function EditName(e: Fields, w: Fields): Result<seq<Byte>> {
    if e.name == w.name then Ok([])
    else if !Encodable(e.name) || e.name == [] then Err
    else Ok(EncodeName(e.name))
  }

  function EditKey(l: Layout, i: nat, at: seq<Byte>, e: Fields, w: Fields): Result<seq<Byte>>
    requires KnownLayout(l) && Shaped(e) && Shaped(w) && i < KEY_SLOTS && |at| == KEY_ENTRY
  {
    if e.targets[i] == w.targets[i] then Ok([]) else EncodeTarget(l, i, at, e.targets[i])
  }

  function EditTheme(l: Layout, t: nat, at: seq<Byte>, e: Fields, w: Fields): Result<seq<Byte>>
    requires KnownLayout(l) && Shaped(e) && Shaped(w) && t < THEMES && |at| == SectionOf(t).size
  {
    if e.themes[t] == w.themes[t] then Ok([])
    else if ThemeToWire(l, t).Err? then Err
    else EncodeTheme(SectionOf(t), at, e.themes[t], w.themes[t])
  }

  /** The sections of a single byte. */
  function EditByte(l: Layout, n: nat, at: Byte, e: Fields, w: Fields): Result<seq<Byte>> {
    if n == LOCKS_AT then
      if e.locks == w.locks then Ok([]) else Ok([WithLocks(at, e.locks)])
    else if n == VOLUME_AT then
      if e.volume == w.volume then Ok([]) else if 1 <= e.volume <= 5 then Ok([e.volume]) else Err
    else if n == SLEEP_AT || n == LIGHTS_OFF_AT then
      if e.sleepMinutes == w.sleepMinutes && e.lightsOffMinutes == w.lightsOffMinutes then Ok([])
      else if !l.timers || !TimersOk(e) then Err
      else Ok([if n == SLEEP_AT then e.sleepMinutes else e.lightsOffMinutes])
    else if n == PER_KEY_AT then
      if e.perKeyOn == w.perKeyOn then Ok([]) else Ok([Flag(e.perKeyOn)])
    else if n == THEME_AT then
      if e.theme == w.theme then Ok([])
      else match ThemeToWire(l, e.theme)
           case Err => Err
           case Ok(b) => Ok([b])
    else
      if e.windowsDynamic == w.windowsDynamic then Ok([]) else Ok([Flag(e.windowsDynamic)])
  }

  /**
   What the edit puts in the nth section, given the section's bytes as they are: nothing where the
   setting is the one read, the new bytes where it is not, a refusal where they cannot be stored.
   */
  function Edit(l: Layout, at: seq<Byte>, e: Fields, w: Fields, n: nat): (r: Result<seq<Byte>>)
    requires KnownLayout(l) && Shaped(e) && Shaped(w) && n < SECTIONS && |at| == Where(n).length
    ensures r.Ok? ==> r.value == [] || |r.value| == Where(n).length
  {
    if n == NAME_AT then EditName(e, w)
    else if n < LOCKS_AT then EditKey(l, n - KEYS_AT, at, e, w)
    else if THEMES_AT <= n < DYNAMIC_AT then EditTheme(l, n - THEMES_AT, at, e, w)
    else EditByte(l, n, at[0], e, w)
  }

  /** The encoder accepts the edit. */
  ghost predicate Accepted(l: Layout, rec: seq<Byte>, e: Fields, w: Fields)
    requires KnownLayout(l) && |rec| == RECORD_SIZE && Shaped(e) && Shaped(w)
  {
    forall n :: 0 <= n < SECTIONS ==> SectionAccepted(l, rec, e, w, n)
  }

  predicate SectionAccepted(l: Layout, rec: seq<Byte>, e: Fields, w: Fields, n: nat)
    requires KnownLayout(l) && |rec| == RECORD_SIZE && Shaped(e) && Shaped(w) && n < SECTIONS
  {
    Edit(l, At(rec, n), e, w, n).Ok?
  }

  function PutOf(l: Layout, rec: seq<Byte>, e: Fields, w: Fields, n: nat): Put
    requires KnownLayout(l) && |rec| == RECORD_SIZE && Shaped(e) && Shaped(w) && n < SECTIONS
  {
    var r := Edit(l, At(rec, n), e, w, n);
    Put(Where(n).offset, if r.Ok? then r.value else [])
  }

  /** Every section's write, in order. */
  function Plan(l: Layout, rec: seq<Byte>, e: Fields, w: Fields): (puts: seq<Put>)
    requires KnownLayout(l) && |rec| == RECORD_SIZE && Shaped(e) && Shaped(w)
    ensures |puts| == SECTIONS
    ensures forall n :: 0 <= n < SECTIONS ==> puts[n] == PutOf(l, rec, e, w, n)
    ensures AllFit(RECORD_SIZE, puts)
  {
    seq(SECTIONS, n requires 0 <= n < SECTIONS => PutOf(l, rec, e, w, n))
  }

  lemma SectionsApart(m: nat, n: nat)
    requires m < SECTIONS && n < SECTIONS && m != n && Where(m).length > 0 && Where(n).length > 0
    ensures SpansApart(Where(m), Where(n))
  {
  }

  lemma PlanApart(l: Layout, rec: seq<Byte>, e: Fields, w: Fields)
    requires KnownLayout(l) && |rec| == RECORD_SIZE && Shaped(e) && Shaped(w)
    ensures AllApart(Plan(l, rec, e, w))
  {
    hide Edit, Where;
    var puts := Plan(l, rec, e, w);
    forall j, k | 0 <= j < k < |puts|
      ensures Apart(puts[j], puts[k])
    {
      assert puts[j] == PutOf(l, rec, e, w, j) && puts[k] == PutOf(l, rec, e, w, k);
      if puts[j].data != [] && puts[k].data != [] {
        SectionsApart(j, k);
      }
    }
  }

  /** A section the first m puts leave alone reads as it did. */
  lemma SectionKept(l: Layout, rec: seq<Byte>, e: Fields, w: Fields, m: nat, n: nat)
    requires KnownLayout(l) && |rec| == RECORD_SIZE && Shaped(e) && Shaped(w) && n < SECTIONS && m <= SECTIONS
    requires n < m ==> PutOf(l, rec, e, w, n).data == []
    ensures At(Apply(rec, Plan(l, rec, e, w), m), n) == At(rec, n)
  {
    hide Edit, Where;
    var puts := Plan(l, rec, e, w);
    var s := Where(n);
    if s.length > 0 {
      forall k | 0 <= k < m
        ensures puts[k].data == [] || puts[k].offset + |puts[k].data| <= s.offset || s.offset + s.length <= puts[k].offset
      {
        assert puts[k] == PutOf(l, rec, e, w, k);
        if puts[k].data != [] {
          SectionsApart(k, n);
        }
      }
      ApplyKeeps(rec, puts, m, s.offset, s.length);
    }
  }

  /** A section with nothing put in it keeps its bytes; one with something put in it has just that. */
  function New(at: seq<Byte>, data: seq<Byte>): seq<Byte> { if data == [] then at else data }

  /** After the whole plan, a section holds what was put in it, or what it held. */
  lemma SectionAfter(l: Layout, rec: seq<Byte>, e: Fields, w: Fields, n: nat)
    requires KnownLayout(l) && |rec| == RECORD_SIZE && Shaped(e) && Shaped(w) && n < SECTIONS
    requires SectionAccepted(l, rec, e, w, n)
    ensures At(Encoded(l, rec, e, w), n) == New(At(rec, n), Edit(l, At(rec, n), e, w, n).value)
  {
    hide Edit, Where, Apply;
    var puts := Plan(l, rec, e, w);
    assert puts[n] == PutOf(l, rec, e, w, n);
    if puts[n].data == [] {
      SectionKept(l, rec, e, w, SECTIONS, n);
    } else {
      PlanApart(l, rec, e, w);
      ApplyAt(rec, puts, SECTIONS, n);
    }
  }

  /** The record with the whole edit written into it. */
  function Encoded(l: Layout, rec: seq<Byte>, e: Fields, w: Fields): (r: seq<Byte>)
    requires KnownLayout(l) && |rec| == RECORD_SIZE && Shaped(e) && Shaped(w)
    ensures |r| == RECORD_SIZE
  {
    Apply(rec, Plan(l, rec, e, w), SECTIONS)
  }

  /** The spans the whole edit changes. */
  function EncodedSpans(l: Layout, rec: seq<Byte>, e: Fields, w: Fields): seq<Span>
    requires KnownLayout(l) && |rec| == RECORD_SIZE && Shaped(e) && Shaped(w)
  {
    Changed(rec, Plan(l, rec, e, w), SECTIONS)
  }

  // ---- The encoder

  /** One section of the encoder: read it, encode what changed, put it. */
  method EncodeSection(record: array<Byte>, l: Layout, e: Fields, w: Fields, n: nat, spans: seq<Span>, ghost rec: seq<Byte>)
    returns (r: Result<seq<Span>>)
    requires KnownLayout(l) && record.Length == |rec| == RECORD_SIZE && Shaped(e) && Shaped(w) && n < SECTIONS
    requires record[..] == Apply(rec, Plan(l, rec, e, w), n) && spans == Changed(rec, Plan(l, rec, e, w), n)
    modifies record
    ensures r.Ok? <==> SectionAccepted(l, rec, e, w, n)
    ensures r.Ok? ==> record[..] == Apply(rec, Plan(l, rec, e, w), n + 1)
    ensures r.Ok? ==> r.value == Changed(rec, Plan(l, rec, e, w), n + 1)
  {
    hide Edit, Where, Apply, Changed;
    SectionKept(l, rec, e, w, n, n);
    var at := record[Where(n).offset..Where(n).offset + Where(n).length];
    assert at == At(record[..], n);
    var section := Edit(l, at, e, w, n);
    if section.Err? { return Err; }
    assert Plan(l, rec, e, w)[n] == PutOf(l, rec, e, w, n);
    if section.value == [] {
      SkipNext(rec, Plan(l, rec, e, w), n);
      return Ok(spans);
    }
    var next := PutNext(record, Put(Where(n).offset, section.value), spans, rec, Plan(l, rec, e, w), n);
    return Ok(next);
  }

  /**
   Writes what `e` changes from `w` into the record and returns the spans it changed. The record may
   be left part-edited when the edit is refused; its callers then discard it.
   */
  method EncodeRecord(record: array<Byte>, l: Layout, e: Fields, w: Fields) returns (r: Result<seq<Span>>)
    requires KnownLayout(l) && record.Length == RECORD_SIZE && Shaped(e) && Shaped(w)
    modifies record
    ensures r.Ok? <==> Accepted(l, old(record[..]), e, w)
    ensures r.Ok? ==> record[..] == Encoded(l, old(record[..]), e, w)
    ensures r.Ok? ==> r.value == EncodedSpans(l, old(record[..]), e, w)
  {
    hide SectionAccepted, PutOf, Apply, Changed;
    ghost var rec := record[..];
    ApplyNone(rec, Plan(l, rec, e, w));
    var spans: seq<Span> := [];
    for n := 0 to SECTIONS
      invariant record[..] == Apply(rec, Plan(l, rec, e, w), n) && spans == Changed(rec, Plan(l, rec, e, w), n)
      invariant forall m :: 0 <= m < n ==> SectionAccepted(l, rec, e, w, m)
    {
      var step := EncodeSection(record, l, e, w, n, spans, rec);
      if step.Err? { return Err; }
      spans := step.value;
    }
    return Ok(spans);
  }

  // ---- What the encoder promises

  /** The form an edited assignment reads back in; one left alone reads as it did. */
  function NormalTarget(l: Layout, rec: seq<Byte>, e: Fields, w: Fields, i: nat): Target
    requires |rec| == RECORD_SIZE && i < |e.targets| == |w.targets| == KEY_SLOTS
  {
    if e.targets[i] == w.targets[i] || KeyAt(l, i).None? then e.targets[i]
    else Normal(KeyAt(l, i).value, EntryBase(KeyAt(l, i).value, At(rec, KEYS_AT + i))[0], e.targets[i])
  }

  lemma KeyAfter(l: Layout, rec: seq<Byte>, e: Fields, w: Fields, i: nat)
    requires KnownLayout(l) && |rec| == RECORD_SIZE && Shaped(e) && Shaped(w) && i < KEY_SLOTS
    requires w.targets[i] == DecodeTarget(l, At(rec, KEYS_AT + i))
    requires SectionAccepted(l, rec, e, w, KEYS_AT + i)
    ensures DecodeTarget(l, At(Encoded(l, rec, e, w), KEYS_AT + i)) == NormalTarget(l, rec, e, w, i)
  {
    hide Encoded, At, DecodeTarget, Normal, Wire;
    SectionAfter(l, rec, e, w, KEYS_AT + i);
    var at := At(rec, KEYS_AT + i);
    assert Edit(l, at, e, w, KEYS_AT + i) == EditKey(l, i, at, e, w);
    if e.targets[i] != w.targets[i] {
      TargetRoundTrip(l, KeyAt(l, i).value, EntryBase(KeyAt(l, i).value, at), e.targets[i]);
    }
  }

  lemma ThemeAfter(l: Layout, rec: seq<Byte>, e: Fields, w: Fields, t: nat)
    requires KnownLayout(l) && |rec| == RECORD_SIZE && Shaped(e) && Shaped(w) && t < THEMES
    requires SectionOf(t).size > 0 ==> SectionOk(SectionOf(t))
    requires w.themes[t] == DecodeTheme(SectionOf(t), At(rec, THEMES_AT + t))
    requires SectionAccepted(l, rec, e, w, THEMES_AT + t)
    ensures DecodeTheme(SectionOf(t), At(Encoded(l, rec, e, w), THEMES_AT + t)) == e.themes[t]
  {
    hide Encoded, At, DecodeTheme, SectionOf, SectionOk, EncodeTheme;
    SectionAfter(l, rec, e, w, THEMES_AT + t);
    var at := At(rec, THEMES_AT + t);
    assert Edit(l, at, e, w, THEMES_AT + t) == EditTheme(l, t, at, e, w);
    if e.themes[t] != w.themes[t] {
      ThemeRoundTrip(SectionOf(t), at, e.themes[t]);
    }
  }

  lemma NameAfter(l: Layout, rec: seq<Byte>, e: Fields, w: Fields)
    requires KnownLayout(l) && |rec| == RECORD_SIZE && Shaped(e) && Shaped(w)
    requires w.name == DecodeName(At(rec, NAME_AT)) && SectionAccepted(l, rec, e, w, NAME_AT)
    ensures DecodeName(At(Encoded(l, rec, e, w), NAME_AT)) == e.name <==> e.name == w.name || Storable(e.name)
  {
    hide Encoded, At, DecodeName;
    SectionAfter(l, rec, e, w, NAME_AT);
    assert Edit(l, At(rec, NAME_AT), e, w, NAME_AT) == EditName(e, w);
    if e.name != w.name {
      NameRoundTrip(e.name);
    }
  }

  predicate ByteSection(n: nat) { LOCKS_AT <= n < THEMES_AT || n == DYNAMIC_AT }

  /** A one-byte section after the plan: the byte put there, or the byte that was. */
  lemma ByteAfter(l: Layout, rec: seq<Byte>, e: Fields, w: Fields, n: nat)
    requires KnownLayout(l) && |rec| == RECORD_SIZE && Shaped(e) && Shaped(w) && ByteSection(n)
    requires SectionAccepted(l, rec, e, w, n)
    ensures var data := EditByte(l, n, At(rec, n)[0], e, w);
            data.Ok? && At(Encoded(l, rec, e, w), n)[0] == if data.value == [] then At(rec, n)[0] else data.value[0]
  {
    hide Encoded, EditByte, At;
    SectionAfter(l, rec, e, w, n);
  }

  /** Each one-byte setting reads back as edited. */
  lemma ByteReads(l: Layout, at: Byte, e: Fields, w: Fields, n: nat, now: Byte)
    requires ByteSection(n) && EditByte(l, n, at, e, w).Ok?
    requires now == if EditByte(l, n, at, e, w).value == [] then at else EditByte(l, n, at, e, w).value[0]
    ensures n == LOCKS_AT && w.locks == LocksOf(at) ==> e.locks == LocksOf(now)
    ensures n == VOLUME_AT && w.volume == at ==> e.volume == now
    ensures n == SLEEP_AT && l.timers && w.sleepMinutes == at ==> e.sleepMinutes == now
    ensures n == LIGHTS_OFF_AT && l.timers && w.lightsOffMinutes == at ==> e.lightsOffMinutes == now
    ensures (n == SLEEP_AT || n == LIGHTS_OFF_AT) && !l.timers ==>
              e.sleepMinutes == w.sleepMinutes && e.lightsOffMinutes == w.lightsOffMinutes
    ensures n == PER_KEY_AT && w.perKeyOn == (at == 1) ==> e.perKeyOn == (now == 1)
    ensures n == THEME_AT && w.theme == ThemeFromWire(l, at) ==> e.theme == ThemeFromWire(l, now)
    ensures n == DYNAMIC_AT && w.windowsDynamic == (at == 1) ==> e.windowsDynamic == (now == 1)
  {
    if n == LOCKS_AT { LocksRoundTrip(at, e.locks); }
    if n == THEME_AT && e.theme != w.theme { ThemeNumberRoundTrip(l, e.theme); }
  }

  lemma SettingAfter(l: Layout, rec: seq<Byte>, e: Fields, w: Fields, n: nat)
    requires KnownLayout(l) && |rec| == RECORD_SIZE && Shaped(e) && Shaped(w) && ByteSection(n)
    requires SectionAccepted(l, rec, e, w, n)
    ensures var at, now := At(rec, n)[0], At(Encoded(l, rec, e, w), n)[0];
            && (n == LOCKS_AT && w.locks == LocksOf(at) ==> e.locks == LocksOf(now))
            && (n == VOLUME_AT && w.volume == at ==> e.volume == now)
            && (n == SLEEP_AT && l.timers && w.sleepMinutes == at ==> e.sleepMinutes == now)
            && (n == LIGHTS_OFF_AT && l.timers && w.lightsOffMinutes == at ==> e.lightsOffMinutes == now)
            && (n == SLEEP_AT && !l.timers ==> e.sleepMinutes == w.sleepMinutes && e.lightsOffMinutes == w.lightsOffMinutes)
            && (n == PER_KEY_AT && w.perKeyOn == (at == 1) ==> e.perKeyOn == (now == 1))
            && (n == THEME_AT && w.theme == ThemeFromWire(l, at) ==> e.theme == ThemeFromWire(l, now))
            && (n == DYNAMIC_AT && w.windowsDynamic == (at == 1) ==> e.windowsDynamic == (now == 1))
  {
    hide EditByte, Encoded, LocksOf, ThemeFromWire, At;
    ByteAfter(l, rec, e, w, n);
    ByteReads(l, At(rec, n)[0], e, w, n, At(Encoded(l, rec, e, w), n)[0]);
  }

  /**
   The codec's law, for every layout, record and accepted edit: the record reads back as the edit in
   its normal form. The name is the edit's exactly when it was left alone or can be stored.
   */
  lemma RecordRoundTrip(l: Layout, rec: seq<Byte>, e: Fields)
    requires KnownLayout(l) && |rec| == RECORD_SIZE && Shaped(e)
    requires Accepted(l, rec, e, DecodeFields(l, rec))
    ensures var w := DecodeFields(l, rec);
            var d := DecodeFields(l, Encoded(l, rec, e, w));
            && (forall i :: 0 <= i < KEY_SLOTS ==> d.targets[i] == NormalTarget(l, rec, e, w, i))
            && d == e.(name := d.name, targets := d.targets)
            && (d.name == e.name <==> e.name == w.name || Storable(e.name))
  {
    hide SectionAccepted, Encoded, At, NormalTarget, LocksOf, ThemeFromWire, DecodeName, DecodeTarget, DecodeTheme, SectionOf, Storable;
    var w := DecodeFields(l, rec);
    var d := DecodeFields(l, Encoded(l, rec, e, w));
    forall i | 0 <= i < KEY_SLOTS
      ensures d.targets[i] == NormalTarget(l, rec, e, w, i)
    {
      KeyAfter(l, rec, e, w, i);
    }
    forall t | 0 <= t < THEMES
      ensures d.themes[t] == e.themes[t]
    {
      SectionsOk(t);
      ThemeAfter(l, rec, e, w, t);
    }
    assert d.themes == e.themes;
    SettingAfter(l, rec, e, w, LOCKS_AT);
    SettingAfter(l, rec, e, w, VOLUME_AT);
    SettingAfter(l, rec, e, w, SLEEP_AT);
    SettingAfter(l, rec, e, w, LIGHTS_OFF_AT);
    SettingAfter(l, rec, e, w, PER_KEY_AT);
    SettingAfter(l, rec, e, w, THEME_AT);
    SettingAfter(l, rec, e, w, DYNAMIC_AT);
    NameAfter(l, rec, e, w);
  }

  /** The spans reported are disjoint, and every byte outside them is the byte that was there. */
  lemma RecordFrame(l: Layout, rec: seq<Byte>, e: Fields, w: Fields)
    requires KnownLayout(l) && |rec| == RECORD_SIZE && Shaped(e) && Shaped(w)
    ensures var spans := EncodedSpans(l, rec, e, w);
            && SpansDisjoint(spans) && SpansFit(RECORD_SIZE, spans)
            && forall i :: 0 <= i < RECORD_SIZE && !Covered(i, spans) ==> Encoded(l, rec, e, w)[i] == rec[i]
  {
    hide PutOf, Apply, Changed;
    var puts := Plan(l, rec, e, w);
    PlanApart(l, rec, e, w);
    ChangedDisjoint(rec, puts, SECTIONS);
    forall i | 0 <= i < RECORD_SIZE && !Covered(i, Changed(rec, puts, SECTIONS))
      ensures Apply(rec, puts, SECTIONS)[i] == rec[i]
    {
      ChangedCovers(rec, puts, SECTIONS, i);
    }
  }

  /** Applying an unedited profile writes nothing, whatever the record holds. */
  lemma UneditedWritesNothing(l: Layout, rec: seq<Byte>, w: Fields)
    requires KnownLayout(l) && |rec| == RECORD_SIZE && Shaped(w)
    ensures Accepted(l, rec, w, w)
    ensures EncodedSpans(l, rec, w, w) == [] && Encoded(l, rec, w, w) == rec
  {
    hide Apply, Changed, Where;
    forall n | 0 <= n < SECTIONS
      ensures SectionAccepted(l, rec, w, w, n) && PutOf(l, rec, w, w, n).data == []
    {
    }
    ChangedNothing(rec, Plan(l, rec, w, w), SECTIONS);
  }
}

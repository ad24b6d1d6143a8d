/** What a JP108 keyboard's key is assigned to, and how the keyboard stores it. */
module JpTargets {
  import opened Bytes

  /** A stored mapping: a type and four value bytes. */
  datatype Mapping = Mapping(kind: Byte, v0: Byte, v1: Byte, v2: Byte, v3: Byte)

  const NONE_TYPE: Byte := 0x00
  const MOUSE_TYPE: Byte := 0x01
  const KEYBOARD_TYPE: Byte := 0x07
  const CONSUMER_TYPE: Byte := 0x0c
  const NO_MAPPING := Mapping(NONE_TYPE, 0, 0, 0, 0)

  /** A mapping that says nothing. */
  predicate Unassigned(m: Mapping) { m.kind == NONE_TYPE || (m.v0 == 0 && m.v1 == 0 && m.v2 == 0 && m.v3 == 0) }

  datatype Target = NoTarget | Key(modifier: Byte, key: Byte) | Media(usage: U16) | Mouse(buttons: Byte, wheel: int)

  predicate TargetFits(t: Target) { t.Mouse? ==> -128 <= t.wheel < 128 }

  const F13: Byte := 0x68
  const F24: Byte := 0x73

  /** How far a keyboard's own numbering of F13 to F24 is from the usual one: none, or fourteen. */
  predicate ShiftOk(shift: nat) { shift == 0 || shift == 14 }

  predicate IsFKey(key: int) { F13 <= key <= F24 }

  function ToWire(shift: nat, t: Target): Mapping
    requires ShiftOk(shift)
  {
    match t
    case NoTarget => Mapping(KEYBOARD_TYPE, 0, 0, 0, 0)
    case Key(m, k) => Mapping(KEYBOARD_TYPE, m, if IsFKey(k) then k + shift else k, 0, 0)
    case Media(u) => Mapping(CONSUMER_TYPE, u % 256, u / 256, 0, 0)
    case Mouse(b, w) => Mapping(MOUSE_TYPE, b, 0, 0, w % 256)
  }

  function FromWire(shift: nat, m: Mapping): (t: Result<Target>)
    requires ShiftOk(shift)
    ensures t.Ok? ==> TargetFits(t.value)
  {
    if Unassigned(m) then Ok(NoTarget)
    else if m.kind == KEYBOARD_TYPE then Ok(Key(m.v0, if shift != 0 && IsFKey(m.v1 - shift) then m.v1 - shift else m.v1))
    else if m.kind == CONSUMER_TYPE then Ok(Media(m.v0 as int + 256 * m.v1))
    else if m.kind == MOUSE_TYPE then Ok(Mouse(m.v0, if m.v3 >= 128 then m.v3 - 256 else m.v3))
    else Err
  }

  /** A target whose stored form says nothing. */
  predicate SaysNothing(shift: nat, t: Target)
    requires ShiftOk(shift)
  {
    Unassigned(ToWire(shift, t))
  }

  /** A key the keyboard would take for one of its own F13 to F24. */
  predicate TakenForFKey(shift: nat, t: Target) { t.Key? && shift != 0 && IsFKey(t.key as int - shift) }

  /** A target reads back as itself exactly when its key is not one the keyboard's own numbering has taken. */
  lemma TargetRoundTrip(shift: nat, t: Target)
    requires ShiftOk(shift) && TargetFits(t) && !SaysNothing(shift, t)
    ensures FromWire(shift, ToWire(shift, t)) == Ok(t) <==> !TakenForFKey(shift, t)
  {
  }

  /** A key given a target does what it was given, exactly but for what the stored form cannot say. */
  lemma AskedEffect(shift: nat, plain: Target, t: Target)
    requires ShiftOk(shift) && TargetFits(t)
    ensures EffectOf(shift, plain, ToWire(shift, t)) == Ok(t) <==>
            if SaysNothing(shift, t) then t == plain else !TakenForFKey(shift, t)
  {
    SayingNothing(shift, t);
    if !SaysNothing(shift, t) { TargetRoundTrip(shift, t); }
    hide ToWire, FromWire;
  }

  lemma SayingNothing(shift: nat, t: Target)
    requires ShiftOk(shift) && TargetFits(t)
    ensures SaysNothing(shift, t) <==> t == NoTarget || t == Key(0, 0) || t == Media(0) || t == Mouse(0, 0)
  {
  }

  /** Mappings of three types are understood, and those that say nothing. */
  lemma Understood(shift: nat, m: Mapping)
    requires ShiftOk(shift)
    ensures FromWire(shift, m).Ok? <==> m.kind in {0, 1, 7, 12} || (m.v0 == 0 && m.v1 == 0 && m.v2 == 0 && m.v3 == 0)
  {
  }

  /** Stored forms: Shift+A, volume up, a left click, a step of the wheel down, and F13 in either numbering. */
  lemma StoredTargets()
    ensures ToWire(0, Key(0xe1, 4)) == Mapping(7, 0xe1, 4, 0, 0) && ToWire(0, Media(0xe9)) == Mapping(12, 0xe9, 0, 0, 0)
    ensures ToWire(0, Media(0x183)) == Mapping(12, 0x83, 1, 0, 0)
    ensures ToWire(0, Mouse(1, 0)) == Mapping(1, 1, 0, 0, 0) && ToWire(0, Mouse(0, -1)) == Mapping(1, 0, 0, 0, 0xff)
    ensures ToWire(0, Key(0, 0x68)) == Mapping(7, 0, 0x68, 0, 0) && ToWire(14, Key(0, 0x68)) == Mapping(7, 0, 0x76, 0, 0)
    ensures ToWire(14, Key(0, 0x73)) == Mapping(7, 0, 0x81, 0, 0) && ToWire(14, Key(0, 0x74)) == Mapping(7, 0, 0x74, 0, 0)
  {
  }

  /** A stored mapping whose every byte that matters is one this program reads. */
  predicate Sound(shift: nat, m: Mapping)
    requires ShiftOk(shift)
  {
    Unassigned(m) || (FromWire(shift, m).Ok? && !SaysNothing(shift, FromWire(shift, m).value))
  }

  /**
   Writing back what was read keeps it, exactly when it is sound: a read target is never a key the
   numbering has taken, but it can leave out the only bytes that said anything.
   */
  lemma ReadTargetRewrites(shift: nat, m: Mapping)
    requires ShiftOk(shift) && FromWire(shift, m).Ok? && !Unassigned(m)
    ensures FromWire(shift, ToWire(shift, FromWire(shift, m).value)) == FromWire(shift, m) <==> Sound(shift, m)
  {
  }

  /** A readback that counts as what was written: the same, or both saying nothing. */
  predicate Matches(got: Mapping, want: Mapping) { got == want || (Unassigned(got) && Unassigned(want)) }

  /** What a key does: what it is mapped to, or what is printed on it. */
  function EffectOf(shift: nat, plain: Target, m: Mapping): Result<Target>
    requires ShiftOk(shift)
  {
    if Unassigned(m) then Ok(plain) else FromWire(shift, m)
  }

  lemma MatchesSameEffect(shift: nat, plain: Target, got: Mapping, want: Mapping)
    requires ShiftOk(shift) && Matches(got, want)
    ensures EffectOf(shift, plain, got) == EffectOf(shift, plain, want)
  {
  }

  /** A mapping that says the same once it is read and written back: it is sound, or what is lost is what the key does anyway. */
  predicate Survives(shift: nat, plain: Target, m: Mapping)
    requires ShiftOk(shift)
  {
    Sound(shift, m) || FromWire(shift, m) == Ok(plain)
  }

  /** Writing back what was read leaves the key doing what it did exactly when the mapping survives it. */
  lemma RewriteSameEffect(shift: nat, plain: Target, m: Mapping)
    requires ShiftOk(shift) && FromWire(shift, m).Ok?
    ensures EffectOf(shift, plain, ToWire(shift, FromWire(shift, m).value)) == EffectOf(shift, plain, m) <==> Survives(shift, plain, m)
  {
    if !Unassigned(m) {
      ReadTargetRewrites(shift, m);
    }
  }

  /** Writing a key that was not mapped its own default leaves it doing that. */
  lemma DefaultSameEffect(shift: nat, plain: Target, m: Mapping)
    requires ShiftOk(shift) && Unassigned(m) && TargetFits(plain) && !TakenForFKey(shift, plain)
    ensures EffectOf(shift, plain, ToWire(shift, plain)) == EffectOf(shift, plain, m)
  {
  }

  /** A keyboard mapping of which only a byte this program does not read says anything. */
  lemma UnreadByteLost()
    ensures var m := Mapping(KEYBOARD_TYPE, 0, 0, 1, 0);
            && !Sound(0, m) && FromWire(0, m) == Ok(Key(0, 0))
            && FromWire(0, ToWire(0, FromWire(0, m).value)) == Ok(NoTarget)
  {
    ReadTargetRewrites(0, Mapping(KEYBOARD_TYPE, 0, 0, 1, 0));
  }

  /** Usage 0x76, on the keyboard that numbers F13 to F24 fourteen higher. */
  lemma UsageReadAsF13()
    ensures TakenForFKey(14, Key(0, 0x76)) && FromWire(14, ToWire(14, Key(0, 0x76))) == Ok(Key(0, F13))
  {
    TargetRoundTrip(14, Key(0, 0x76));
  }
}

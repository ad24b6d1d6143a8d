/** Macros of a JP108 keyboard: what makes one valid, and the value the keyboard stores for it. */
module JpMacros {
  import opened Bytes

  const MAX_STEPS: nat := 200
  const MAX_DELAY: nat := 60000
  const FOREVER: nat := 255
  const OP_WAIT: Byte := 0x0f
  const OP_KEY_DOWN: Byte := 0x81
  const OP_KEY_UP: Byte := 0x01
  const OP_MOD_DOWN: Byte := 0x83
  const OP_MOD_UP: Byte := 0x03
  const FOREVER_FLAG: Byte := 0x20
  const HEADER: nat := 4

  datatype Step = Press(usage: Byte) | Release(usage: Byte) | Wait(millis: int)

  /** A recording: its steps, how many times it plays, and the pause between plays. */
  datatype Macro = Macro(steps: seq<Step>, repeats: int, interval: int)

  /** An interval is stored as a final step, and so is the lack of one on a macro that repeats. */
  predicate HasInterval(m: Macro) { m.interval > 0 || m.repeats != 1 }

  function Stored(m: Macro): (steps: seq<Step>)
    ensures |steps| == |m.steps| + if HasInterval(m) then 1 else 0
  {
    if HasInterval(m) then m.steps + [Wait(m.interval)] else m.steps
  }

  // ---- Validity

  /** The keys down after the first n steps. */
  function Held(steps: seq<Step>, n: nat): set<Byte>
    requires n <= |steps|
  {
    if n == 0 then {}
    else match steps[n - 1]
         case Press(u) => Held(steps, n - 1) + {u}
         case Release(u) => Held(steps, n - 1) - {u}
         case Wait(_) => Held(steps, n - 1)
  }

  predicate StepOk(steps: seq<Step>, i: nat)
    requires i < |steps|
  {
    match steps[i]
    case Wait(ms) => 1 <= ms <= MAX_DELAY
    case Press(u) => u != 0
    case Release(u) => u != 0 && u in Held(steps, i)
  }

  /** A macro the keyboard can hold: nothing is released that is not down, and nothing is left down. */
  predicate Valid(m: Macro) {
    && m.steps != [] && |Stored(m)| <= MAX_STEPS && (m.repeats == FOREVER || 1 <= m.repeats <= 99) && 0 <= m.interval <= MAX_DELAY
    && (forall i :: 0 <= i < |m.steps| ==> StepOk(m.steps, i)) && Held(m.steps, |m.steps|) == {}
  }

  /** The keys a map of flags says are down. */
  function Down(flags: map<Byte, bool>): set<Byte> { set u | u in flags && flags[u] }

  /** The source's check: it follows every key through the steps. */
  method Validate(m: Macro) returns (ok: bool)
    ensures ok <==> Valid(m)
  {
    if m.steps == [] || |Stored(m)| > MAX_STEPS { return false; }
    if m.repeats != FOREVER && !(1 <= m.repeats <= 99) { return false; }
    if m.interval < 0 || m.interval > MAX_DELAY { return false; }
    var down: map<Byte, bool> := map[];
    for i := 0 to |m.steps|
      invariant Down(down) == Held(m.steps, i)
      invariant forall j :: 0 <= j < i ==> StepOk(m.steps, j)
    {
      ghost var good := StepOk(m.steps, i);
      match m.steps[i] {
        case Wait(ms) =>
          if ms < 1 || ms > MAX_DELAY { return false; }
        case Press(u) =>
          if u == 0 { return false; }
          down := down[u := true];
        case Release(u) =>
          if u == 0 { return false; }
          if !(u in down && down[u]) {
            assert u !in Down(down);
            return false;
          }
          assert u in Down(down);
          down := down[u := false];
      }
    }
    return Down(down) == {};
  }

  // ---- The stored value

  predicate IsModifier(usage: Byte) { 0xe0 <= usage <= 0xe7 }

  function StepBytes(s: Step): (b: seq<Byte>)
    ensures |b| == 3
  {
    match s
    case Wait(ms) => [OP_WAIT] + Le16(Low16(ms))
    case Press(u) => [if IsModifier(u) then OP_MOD_DOWN else OP_KEY_DOWN, u, 0]
    case Release(u) => [if IsModifier(u) then OP_MOD_UP else OP_KEY_UP, u, 0]
  }

  function Body(steps: seq<Step>, n: nat): (b: seq<Byte>)
    requires n <= |steps|
    ensures |b| == 3 * n
  {
    if n == 0 then [] else Body(steps, n - 1) + StepBytes(steps[n - 1])
  }

  /** A lead byte, the repeat count, the forever flag and the step count. */
  function ValueHeader(m: Macro): (h: seq<Byte>)
    requires Valid(m)
    ensures |h| == HEADER
  {
    [1, if m.repeats == FOREVER then 0 else m.repeats, if m.repeats == FOREVER then FOREVER_FLAG else 0, |Stored(m)|]
  }

  /** The header, then three bytes per step. */
  function Value(m: Macro): (v: seq<Byte>)
    requires Valid(m)
    ensures |v| == HEADER + 3 * |Stored(m)|
  {
    ValueHeader(m) + Body(Stored(m), |Stored(m)|)
  }

  method StartValue(m: Macro) returns (steps: seq<Step>, value: seq<Byte>)
    requires Valid(m)
    ensures steps == Stored(m) && value == ValueHeader(m)
  {
    steps := m.steps;
    if HasInterval(m) {
      steps := steps + [Wait(m.interval)];
    }
    value := [1, 0, 0, |steps|];
    if m.repeats == FOREVER {
      value := value[2 := FOREVER_FLAG];
    } else {
      value := value[1 := m.repeats];
    }
  }

  method AppendSteps(header: seq<Byte>, steps: seq<Step>) returns (value: seq<Byte>)
    ensures value == header + Body(steps, |steps|)
  {
    hide StepBytes;
    value := header;
    for i := 0 to |steps|
      invariant value == header + Body(steps, i)
    {
      assert header + Body(steps, i + 1) == header + Body(steps, i) + StepBytes(steps[i]);
      value := value + StepBytes(steps[i]);
    }
  }

  method EncodeValue(m: Macro) returns (r: Result<seq<Byte>>)
    ensures r == if Valid(m) then Ok(Value(m)) else Err
  {
    var ok := Validate(m);
    if !ok { return Err; }
    var steps, value := StartValue(m);
    hide Valid, ValueHeader, Stored;
    value := AppendSteps(value, steps);
    return Ok(value);
  }

  function DecodeStep(b: seq<Byte>): (s: Result<Step>)
    requires |b| == 3
  {
    if b[0] == OP_WAIT then Ok(Wait(Word16(b[1..])))
    else if b[0] == OP_KEY_DOWN || b[0] == OP_MOD_DOWN then Ok(Press(b[1]))
    else if b[0] == OP_KEY_UP || b[0] == OP_MOD_UP then Ok(Release(b[1]))
    else Err
  }

  function StepsIn(body: seq<Byte>, n: nat): (r: Result<seq<Step>>)
    requires 3 * n <= |body|
    ensures r.Ok? ==> |r.value| == n
  {
    if n == 0 then Ok([])
    else match StepsIn(body, n - 1)
         case Err => Err
         case Ok(front) => match DecodeStep(body[3 * (n - 1)..3 * n])
                           case Err => Err
                           case Ok(s) => Ok(front + [s])
  }

  function Repeats(value: seq<Byte>): int
    requires |value| >= HEADER
  {
    if value[2] == FOREVER_FLAG then FOREVER else if value[1] == 0 then 1 else value[1]
  }

  /** A trailing wait on a repeating macro is the pause between repeats. */
  function WithInterval(steps: seq<Step>, repeats: int): Macro {
    var n := |steps|;
    if n > 1 && steps[n - 1].Wait? && repeats != 1 then Macro(steps[..n - 1], repeats, steps[n - 1].millis)
    else Macro(steps, repeats, 0)
  }

  function DecodeValue(value: seq<Byte>): (r: Result<Macro>) {
    if |value| < HEADER then Err
    else if |value| - HEADER < value[3] as int * 3 then Err
    else match StepsIn(value[HEADER..], value[3])
         case Err => Err
         case Ok(steps) => Ok(WithInterval(steps, Repeats(value)))
  }

  lemma StepRoundTrip(s: Step)
    requires s.Wait? ==> 0 <= s.millis < 0x1_0000
    ensures DecodeStep(StepBytes(s)) == Ok(s)
  {
    if s.Wait? {
      assert StepBytes(s)[1..] == Le16(s.millis);
      Word16OfLe16(s.millis);
    }
  }

  lemma {:induction false} BodyReads(steps: seq<Step>, n: nat, body: seq<Byte>)
    requires n <= |steps| && forall i :: 0 <= i < |steps| && steps[i].Wait? ==> 0 <= steps[i].millis < 0x1_0000
    requires 3 * n <= |body| && body[..3 * n] == Body(steps, n)
    ensures StepsIn(body, n) == Ok(steps[..n])
  {
    hide DecodeStep, StepBytes;
    if n > 0 {
      assert Body(steps, n) == Body(steps, n - 1) + StepBytes(steps[n - 1]);
      assert body[..3 * (n - 1)] == body[..3 * n][..3 * (n - 1)] == Body(steps, n - 1);
      assert body[3 * (n - 1)..3 * n] == body[..3 * n][3 * (n - 1)..] == StepBytes(steps[n - 1]);
      assert steps[..n] == steps[..n - 1] + [steps[n - 1]];
      BodyReads(steps, n - 1, body);
      StepRoundTrip(steps[n - 1]);
    }
  }

  /** What a macro reads back as: a macro that plays once with an interval has it as a last step. */
  function Normal(m: Macro): Macro {
    if m.repeats == 1 && m.interval > 0 then Macro(m.steps + [Wait(m.interval)], 1, 0) else m
  }

  lemma WaitsFit(m: Macro)
    requires Valid(m)
    ensures forall i :: 0 <= i < |Stored(m)| && Stored(m)[i].Wait? ==> 0 <= Stored(m)[i].millis < 0x1_0000
  {
    forall i | 0 <= i < |m.steps| && m.steps[i].Wait?
      ensures 0 <= m.steps[i].millis < 0x1_0000
    {
      assert StepOk(m.steps, i);
    }
  }

  lemma HeaderReads(m: Macro)
    requires Valid(m)
    ensures Repeats(Value(m)) == m.repeats && Value(m)[3] == |Stored(m)| && Value(m)[HEADER..] == Body(Stored(m), |Stored(m)|)
    ensures WithInterval(Stored(m), m.repeats) == Normal(m)
  {
    if HasInterval(m) {
      assert Stored(m)[..|Stored(m)| - 1] == m.steps;
    }
  }

  /** Every valid macro's value reads back as the macro's normal form. */
  lemma ValueRoundTrip(m: Macro)
    requires Valid(m)
    ensures DecodeValue(Value(m)) == Ok(Normal(m))
  {
    var steps := Stored(m);
    WaitsFit(m);
    HeaderReads(m);
    hide Valid, Value, Stored, Normal, WithInterval, Repeats;
    var body := Body(steps, |steps|);
    assert body[..3 * |steps|] == body && steps[..|steps|] == steps;
    BodyReads(steps, |steps|, body);
  }

  lemma {:induction false} HeldPrefix(a: seq<Step>, b: seq<Step>, n: nat)
    requires n <= |a| && n <= |b| && a[..n] == b[..n]
    ensures Held(a, n) == Held(b, n)
  {
    if n > 0 {
      assert a[..n - 1] == a[..n][..n - 1] && b[..n - 1] == b[..n][..n - 1];
      assert a[n - 1] == a[..n][n - 1] && b[n - 1] == b[..n][n - 1];
      HeldPrefix(a, b, n - 1);
    }
  }

  /** The normal form is valid, and is stored as the very same bytes. */
  lemma NormalSameValue(m: Macro)
    requires Valid(m)
    ensures Valid(Normal(m)) && Value(Normal(m)) == Value(m)
  {
    var steps := Normal(m).steps;
    if m.repeats == 1 && m.interval > 0 {
      forall i | 0 <= i < |steps|
        ensures StepOk(steps, i)
      {
        if i < |m.steps| {
          assert StepOk(m.steps, i);
          HeldPrefix(steps, m.steps, i);
        }
      }
      HeldPrefix(steps, m.steps, |m.steps|);
    }
  }

  // ---- Known values

  /** The form of a step: modifiers have their own codes, a wait is in milliseconds, low byte first. */
  lemma StepForms()
    ensures StepBytes(Press(0x06)) == [0x81, 0x06, 0] && StepBytes(Release(0x06)) == [0x01, 0x06, 0]
    ensures StepBytes(Press(0xe0)) == [0x83, 0xe0, 0] && StepBytes(Release(0xe7)) == [0x03, 0xe7, 0]
    ensures StepBytes(Press(0xdf)) == [0x81, 0xdf, 0] && StepBytes(Release(0xe8)) == [0x01, 0xe8, 0]
    ensures StepBytes(Wait(300)) == [0x0f, 0x2c, 0x01] && StepBytes(Wait(1000)) == [0x0f, 0xe8, 0x03]
  {
  }

  lemma {:induction false} BodyAt(steps: seq<Step>, n: nat, i: nat)
    requires i < n <= |steps|
    ensures Body(steps, n)[3 * i..3 * i + 3] == StepBytes(steps[i])
  {
    hide StepBytes;
    if i < n - 1 {
      BodyAt(steps, n - 1, i);
      assert Body(steps, n)[3 * i..3 * i + 3] == Body(steps, n - 1)[3 * i..3 * i + 3];
    }
  }

  /** A value: a one, how often it plays or the flag for ever, how many steps; the steps, and the pause as one more. */
  lemma ValueForm(m: Macro, i: nat)
    requires Valid(m) && i < |m.steps|
    ensures var v, n := Value(m), |m.steps| + if m.interval > 0 || m.repeats != 1 then 1 else 0;
            && v[..4] == [1, if m.repeats == 255 then 0 else m.repeats, if m.repeats == 255 then 0x20 else 0, n] && |v| == 4 + 3 * n
            && v[4 + 3 * i..7 + 3 * i] == StepBytes(m.steps[i])
            && (n > |m.steps| ==> v[4 + 3 * (n - 1)..] == StepBytes(Wait(m.interval)))
  {
    hide StepBytes, Body;
    var steps := Stored(m);
    var h, body := ValueHeader(m), Body(steps, |steps|);
    BodyAt(steps, |steps|, i);
    BodyAt(steps, |steps|, |steps| - 1);
    assert (h + body)[4 + 3 * i..7 + 3 * i] == body[3 * i..3 * i + 3];
    assert (h + body)[4 + 3 * (|steps| - 1)..] == body[3 * (|steps| - 1)..3 * (|steps| - 1) + 3];
  }

  /** What is read: a value at least as long as it says, of five kinds of step; a count of zero without the flag is one. */
  lemma ValueTaken(v: seq<Byte>)
    ensures DecodeValue(v).Ok? <==>
            |v| >= 4 && |v| >= 4 + 3 * v[3] as int && forall i: int :: 0 <= i < v[3] as int ==> v[4 + 3 * i] in {0x0f, 0x01, 0x81, 0x03, 0x83}
    ensures DecodeValue([1, 0, 0, 0]) == Ok(Macro([], 1, 0))
  {
    if |v| >= 4 && |v| >= 4 + 3 * v[3] as int {
      StepsTaken(v[4..], v[3]);
    }
  }

  /** The last of several waits or other steps is the pause of a macro that plays more than once; a lone wait is its one step. */
  lemma PauseRead()
    ensures DecodeValue([1, 2, 0, 1, 0x0f, 10, 1]) == Ok(Macro([Wait(266)], 2, 0))
    ensures DecodeValue([1, 2, 0, 2, 0x0f, 10, 0, 0x0f, 20, 0]) == Ok(Macro([Wait(10)], 2, 20))
    ensures DecodeValue([1, 1, 0, 2, 0x0f, 10, 0, 0x0f, 20, 0]) == Ok(Macro([Wait(10), Wait(20)], 1, 0))
  {
    var one: seq<Byte>, two: seq<Byte> := [0x0f, 10, 1], [0x0f, 10, 0, 0x0f, 20, 0];
    assert one[0..3] == one && two[0..3] == [0x0f, 10, 0] && two[3..6] == [0x0f, 20, 0];
    OneMoreRead(one, 0, Wait(266));
    OneMoreRead(two, 0, Wait(10));
    OneMoreRead(two, 1, Wait(20));
    assert [] + [Wait(10)] + [Wait(20)] == [Wait(10), Wait(20)] && [] + [Wait(266)] == [Wait(266)];
    hide StepsIn, DecodeStep;
    assert [Wait(10), Wait(20)][..1] == [Wait(10)];
    assert [1, 2, 0, 1, 0x0f, 10, 1][4..] == one && [1, 2, 0, 2, 0x0f, 10, 0, 0x0f, 20, 0][4..] == two;
    assert [1, 1, 0, 2, 0x0f, 10, 0, 0x0f, 20, 0][4..] == two;
  }

  lemma OneMoreRead(body: seq<Byte>, n: nat, s: Step)
    requires 3 * (n + 1) <= |body| && StepsIn(body, n).Ok? && DecodeStep(body[3 * n..3 * (n + 1)]) == Ok(s)
    ensures StepsIn(body, n + 1) == Ok(StepsIn(body, n).value + [s])
  {
  }

  lemma {:induction false} StepsTaken(body: seq<Byte>, n: nat)
    requires 3 * n <= |body|
    ensures StepsIn(body, n).Ok? <==> forall i :: 0 <= i < n ==> body[3 * i] in {0x0f, 0x01, 0x81, 0x03, 0x83}
  {
    if n > 0 {
      StepsTaken(body, n - 1);
      var last := body[3 * (n - 1)..3 * n];
      assert last[0] == body[3 * (n - 1)];
      assert DecodeStep(last).Ok? <==> last[0] in {0x0f, 0x01, 0x81, 0x03, 0x83};
    }
  }
}

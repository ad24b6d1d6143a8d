/** One firmware transfer, from entering the bootloader to the outcome it reports. */
module FirmwareRun {
  import opened Bytes
  import opened FirmwareSession

  // ---- The plan a preflight computes

  const CHUNK_MIN: int := 8

  /** The size asked for, or else the family's own, but never below the least. */
  function ChunkSizeFor(requested: int, default: int): (size: int)
    ensures size >= CHUNK_MIN
    ensures requested >= CHUNK_MIN ==> size == requested
    ensures 0 < requested < CHUNK_MIN ==> size == CHUNK_MIN
    ensures requested <= 0 && default >= CHUNK_MIN ==> size == default
    ensures requested <= 0 && default < CHUNK_MIN ==> size == CHUNK_MIN
  {
    Max(if requested <= 0 then default else requested, CHUNK_MIN)
  }

  function ChunksTotal(bytes: nat, chunkSize: nat): nat
    requires chunkSize > 0
  {
    (bytes + chunkSize - 1) / chunkSize
  }

  // ---- What goes over the wire

  datatype Command = Enter(stage: nat) | Chunk | Commit | Exit | Version

  datatype Frame = Frame(command: Command, payload: seq<Byte>)

  /** How one device family is flashed: its chunk request's template and where the data goes in it. */
  datatype Path = Path(enters: nat, template: seq<Byte>, offset: nat)
  {
    /** How many bytes of firmware one request carries. */
    function Room(): nat { if offset <= |template| then |template| - offset else 0 }
  }

  datatype Reply = Valid | Unusable | TimedOut | Broken

  /** What a transfer sees: a write that went or not, a reply, a cancel flag, the device enumerated or opened again. */
  datatype Event =
    | Wrote(frame: Frame, ok: bool)
    | Heard(reply: Reply)
    | Looked(cancelled: bool)
    | Found(present: bool)
    | Opened(ok: bool)

  /**
   What a transfer runs against. It keeps every frame it is handed and a log of everything seen. A
   reliable one delivers and answers everything, before and after the device restarts; any other may
   fail or stay silent at any point.
   */
  class Wire {
    const reliable: bool
    var sent: seq<Frame>
    var log: seq<Event>

    constructor (reliable: bool)
      ensures sent == [] && log == [] && this.reliable == reliable
    {
      this.reliable, sent, log := reliable, [], [];
    }

    method Write(f: Frame) returns (ok: bool)
      modifies this
      ensures sent == old(sent) + [f] && log == old(log) + [Wrote(f, ok)] && (reliable ==> ok)
    {
      ok := *;
      ok := ok || reliable;
      sent, log := sent + [f], log + [Wrote(f, ok)];
    }

    method Read() returns (r: Reply)
      modifies this
      ensures sent == old(sent) && log == old(log) + [Heard(r)] && (reliable ==> r.Valid?)
    {
      r := *;
      if reliable { r := Valid; }
      log := log + [Heard(r)];
    }

    /** Looks at the session's cancel flag, which is up only if someone asked. */
    method Look(asked: bool) returns (cancelled: bool)
      modifies this
      ensures sent == old(sent) && log == old(log) + [Looked(cancelled)] && (cancelled ==> asked)
    {
      cancelled := *;
      cancelled := cancelled && asked;
      log := log + [Looked(cancelled)];
    }

    /** Looks for the device among the enumerated ones. */
    method Find() returns (present: bool)
      modifies this
      ensures sent == old(sent) && log == old(log) + [Found(present)]
    {
      present := *;
      log := log + [Found(present)];
    }

    /** Opens the device again once it has left the bootloader. */
    method Reopen() returns (ok: bool)
      modifies this
      ensures sent == old(sent) && log == old(log) + [Opened(ok)] && (reliable ==> ok)
    {
      ok := *;
      ok := ok || reliable;
      log := log + [Opened(ok)];
    }
  }

  /** Copies of a frame, as a retried read sends it. */
  function Repeated(f: Frame, n: nat): (r: seq<Frame>)
    ensures |r| == n && forall i :: 0 <= i < n ==> r[i] == f
  {
    seq(n, _ => f)
  }

  // ---- One request

  /** An event after which nothing more is sent or read for a request. */
  predicate Settles(e: Event) {
    match e
    case Wrote(_, ok) => !ok
    case Heard(reply) => reply.Valid? || reply.Broken?
    case _ => false
  }

  /** How many replies were waited for. */
  function Waits(resent: bool, events: nat): nat
    requires events > 0
  {
    if resent then events / 2 else events - 1
  }

  /** A request is written once and then read, or, if it is a read, written again before each reading. */
  predicate InTurn(f: Frame, safeRead: bool, i: nat, e: Event) {
    if i == 0 || (safeRead && i % 2 == 0) then e.Wrote? && e.frame == f else e.Heard?
  }

  ghost predicate AllInTurn(f: Frame, safeRead: bool, events: seq<Event>) {
    forall i :: 0 <= i < |events| ==> InTurn(f, safeRead, i, events[i])
  }

  ghost predicate Unsettled(events: seq<Event>) {
    forall i :: 0 <= i < |events| ==> !Settles(events[i])
  }

  /** The events of one request, up to the first that settles it or the last attempt's. */
  ghost predicate Exchange(f: Frame, answered: bool, safeRead: bool, attempts: nat, events: seq<Event>) {
    && events != [] && AllInTurn(f, safeRead, events) && Unsettled(events[..|events| - 1])
    && Waits(safeRead, |events|) <= attempts
    && if answered
       then Settles(events[|events| - 1]) || (events[|events| - 1].Heard? && Waits(safeRead, |events|) == attempts)
       else |events| == 1
  }

  /** A request that is answered succeeds with a valid reply, any other by being written. */
  predicate Succeeded(answered: bool, events: seq<Event>)
    requires events != []
  {
    if answered then events[|events| - 1] == Heard(Valid) else events[0].Wrote? && events[0].ok
  }

  /** The events of a request that is answered after so many fruitless attempts. */
  ghost predicate Waiting(f: Frame, safeRead: bool, attempts: nat, events: seq<Event>) {
    && AllInTurn(f, safeRead, events) && Unsettled(events)
    && |events| == (if attempts == 0 then 1 else if safeRead then 2 * attempts else attempts + 1)
    && (attempts > 0 ==> events[|events| - 1].Heard?)
  }

  /** One more attempt: a reply, after the request again if it is a read. */
  lemma OneMoreReply(f: Frame, safeRead: bool, attempts: nat, limit: nat, events: seq<Event>, again: seq<Event>, reply: Reply)
    requires Waiting(f, safeRead, attempts, events) && attempts < limit
    requires again == if attempts > 0 && safeRead then [Wrote(f, true)] else []
    ensures var all := events + again + [Heard(reply)];
            if Settles(Heard(reply)) then Exchange(f, true, safeRead, limit, all) && (Succeeded(true, all) <==> reply.Valid?)
            else Waiting(f, safeRead, attempts + 1, all)
  {
    var all := events + again + [Heard(reply)];
    assert all[..|all| - 1] == events + again;
    assert forall i :: 0 <= i < |events| ==> all[i] == events[i];
    if |again| > 0 {
      assert all[|events|] == again[0];
    }
    assert all[|all| - 1] == Heard(reply);
  }

  /** A read that cannot be sent again. */
  lemma NotSentAgain(f: Frame, attempts: nat, limit: nat, events: seq<Event>)
    requires Waiting(f, true, attempts, events) && 0 < attempts < limit
    ensures var all := events + [Wrote(f, false)]; Exchange(f, true, true, limit, all) && !Succeeded(true, all)
  {
    var all := events + [Wrote(f, false)];
    assert all[..|all| - 1] == events;
  }

  lemma GivenUp(f: Frame, safeRead: bool, limit: nat, events: seq<Event>)
    requires Waiting(f, safeRead, limit, events) && limit > 0
    ensures Exchange(f, true, safeRead, limit, events) && !Succeeded(true, events)
  {
    var last := events[|events| - 1];
    assert !Settles(last);
  }

  /**
   Sends a request and waits for its reply. A read is sent again when its reply is unusable; anything
   else is handed to the transport exactly once, whatever the replies are. It succeeds exactly when a
   valid reply was read, or, where none is waited for, when it was written.
   */
  method SendRow(w: Wire, f: Frame, answered: bool, safeRead: bool, attempts: nat) returns (ok: bool)
    requires 1 <= attempts <= 254
    modifies w
    ensures !safeRead ==> w.sent == old(w.sent) + [f]
    ensures exists n :: 1 <= n <= attempts && w.sent == old(w.sent) + Repeated(f, n)
    ensures old(w.log) <= w.log && Exchange(f, answered, safeRead, attempts, Since(old(w.log), w.log))
    ensures ok <==> Succeeded(answered, Since(old(w.log), w.log))
    ensures w.reliable ==> ok
  {
    hide Exchange, Succeeded, Waiting, Settles, Repeated, Since;
    var wrote := w.Write(f);
    ghost var sent, start, events, n := old(w.sent), old(w.log), [Wrote(f, wrote)], 1;
    SinceJust(start, events);
    FirstWrite(f, answered, safeRead, attempts, wrote);
    if !wrote { return false; }
    if !answered { return true; }
    for attempt := 1 to attempts + 1
      invariant 1 <= n <= attempts && (attempt == 1 || !safeRead ==> n == 1) && n <= Max(1, attempt - 1)
      invariant w.sent == sent + Repeated(f, n) && (w.reliable ==> attempt == 1)
      invariant w.log == start + events && Waiting(f, safeRead, attempt - 1, events)
    {
      ghost var again: seq<Event> := [];
      if attempt > 1 && safeRead {
        wrote := w.Write(f);
        again := [Wrote(f, wrote)];
        OneMoreCopy(sent, f, n);
        n := n + 1;
        if !wrote {
          NotSentAgain(f, attempt - 1, attempts, events);
          LogMore(start, events, again);
          return false;
        }
      }
      var reply := w.Read();
      OneMoreReply(f, safeRead, attempt - 1, attempts, events, again, reply);
      LogMore(start, events, again);
      LogMore(start, events + again, [Heard(reply)]);
      events := events + again + [Heard(reply)];
      assert w.log == start + events && Since(start, w.log) == events;
      Settled(reply);
      if reply.Valid? { return true; }
      if reply.Broken? { return false; }
    }
    GivenUp(f, safeRead, attempts, events);
    SinceJust(start, events);
    return false;
  }

  lemma OneMoreCopy(sent: seq<Frame>, f: Frame, n: nat)
    ensures sent + Repeated(f, n) + [f] == sent + Repeated(f, n + 1)
  {
  }

  lemma LogMore(start: seq<Event>, events: seq<Event>, more: seq<Event>)
    ensures start + events + more == start + (events + more)
    ensures start <= start + (events + more) && Since(start, start + (events + more)) == events + more
  {
  }

  lemma FirstWrite(f: Frame, answered: bool, safeRead: bool, attempts: nat, ok: bool)
    ensures [f] == Repeated(f, 1)
    ensures !ok || !answered ==> Exchange(f, answered, safeRead, attempts, [Wrote(f, ok)])
    ensures Succeeded(answered, [Wrote(f, ok)]) <==> ok && !answered
    ensures ok ==> Waiting(f, safeRead, 0, [Wrote(f, ok)])
  {
    assert [Wrote(f, ok)][..0] == [];
  }

  lemma Settled(reply: Reply)
    ensures Settles(Heard(reply)) <==> reply.Valid? || reply.Broken?
  {
  }

  // ---- Chunks of an image

  /** The chunk of an image that starts at an offset. */
  function ChunkAt(image: seq<Byte>, size: nat, at: nat): (c: seq<Byte>)
    requires at <= |image|
    ensures |c| == Min(size, |image| - at)
  {
    image[at..Min(at + size, |image|)]
  }

  /** The request carrying a chunk: what does not fit is cut off. */
  function ChunkFrame(p: Path, chunk: seq<Byte>): Frame
    requires p.Room() > 0
  {
    var carried := chunk[..Min(|chunk|, p.Room())];
    Frame(Chunk, p.template[..p.offset] + carried + p.template[p.offset + |carried|..])
  }

  /** The chunk requests for an image from an offset on. */
  function ChunksFrom(p: Path, image: seq<Byte>, size: nat, at: nat): (frames: seq<Frame>)
    requires size > 0 && p.Room() > 0
    decreases |image| - at
  {
    if at >= |image| then [] else [ChunkFrame(p, ChunkAt(image, size, at))] + ChunksFrom(p, image, size, at + size)
  }

  /** Every chunk request of an image. */
  function AllChunks(p: Path, image: seq<Byte>, size: nat): (frames: seq<Frame>)
    requires size > 0 && p.Room() > 0
    ensures |frames| == ChunksTotal(|image|, size)
  {
    CountChunks(p, image, size, 0);
    ChunksFrom(p, image, size, 0)
  }

  lemma DivMore(x: nat, size: nat)
    requires size > 0
    ensures (x + size) / size == 1 + x / size
  {
    var q, r := x / size, x % size;
    assert x + size == (q + 1) * size + r;
    DivIs(x + size, size, q + 1, r);
  }

  lemma DivIs(x: nat, size: nat, q: nat, r: nat)
    requires size > 0 && x == q * size + r && r < size
    ensures x / size == q
  {
    var d := x / size;
    assert x == d * size + x % size;
    if d > q {
      MulMore(d, q, size);
    } else if d < q {
      MulMore(q, d, size);
    }
  }

  lemma {:induction false} MulMore(a: nat, b: nat, size: nat)
    requires a > b
    ensures a * size >= b * size + size
  {
    assert a * size == (a - 1) * size + size;
    if a - 1 > b {
      MulMore(a - 1, b, size);
    }
  }

  /** One chunk less to count. */
  lemma NextCount(left: nat, size: nat)
    requires size > 0 && left > 0
    ensures ChunksTotal(left, size) == 1 + ChunksTotal(Max(0, left - size), size)
  {
    DivMore(left - 1, size);
    if left < size {
      DivIs(left - 1, size, 0, left - 1);
      DivIs(size - 1, size, 0, size - 1);
    }
  }

  lemma NoneLeft(size: nat)
    requires size > 0
    ensures ChunksTotal(0, size) == 0
  {
    DivIs(size - 1, size, 0, size - 1);
  }

  lemma {:induction false} CountChunks(p: Path, image: seq<Byte>, size: nat, at: nat)
    requires size > 0 && p.Room() > 0
    ensures |ChunksFrom(p, image, size, at)| == ChunksTotal(Max(0, |image| - at), size)
    decreases |image| - at
  {
    hide ChunkFrame;
    if at < |image| {
      NextCount(|image| - at, size);
      CountChunks(p, image, size, at + size);
    }
  }

  /** Where a device looks for n bytes of firmware in a chunk request: as many as the request has room for. */
  function Window(p: Path, f: Frame, n: nat): (b: seq<Byte>)
    requires p.Room() > 0 && |f.payload| == |p.template|
    ensures |b| == Min(n, p.Room())
  {
    f.payload[p.offset..p.offset + Min(n, p.Room())]
  }

  /** The firmware a device finds in chunk requests while it has `left` bytes still to come. */
  function Delivered(p: Path, frames: seq<Frame>, left: nat, size: nat): seq<Byte>
    requires p.Room() > 0 && forall f :: f in frames ==> |f.payload| == |p.template|
  {
    if frames == [] then []
    else
      var n := Min(size, left);
      Window(p, frames[0], n) + Delivered(p, frames[1..], left - n, size)
  }

  lemma FrameCarries(p: Path, chunk: seq<Byte>)
    requires p.Room() > 0
    ensures |ChunkFrame(p, chunk).payload| == |p.template|
    ensures Window(p, ChunkFrame(p, chunk), |chunk|) == chunk[..Min(|chunk|, p.Room())]
  {
  }

  /** What a device finds in the requests from an offset on: all there is, or less when a chunk does not fit. */
  lemma {:induction false} DeliveredFrom(p: Path, image: seq<Byte>, size: nat, at: nat)
    requires size > 0 && p.Room() > 0 && at <= |image|
    ensures forall f :: f in ChunksFrom(p, image, size, at) ==> |f.payload| == |p.template|
    ensures Min(size, |image| - at) <= p.Room() ==> Delivered(p, ChunksFrom(p, image, size, at), |image| - at, size) == image[at..]
    ensures |Delivered(p, ChunksFrom(p, image, size, at), |image| - at, size)| <= |image| - at
    ensures Min(size, |image| - at) > p.Room() ==> |Delivered(p, ChunksFrom(p, image, size, at), |image| - at, size)| < |image| - at
    decreases |image| - at
  {
    hide ChunkFrame, Window, Path.Room;
    if at < |image| {
      var next := Min(at + size, |image|);
      FrameCarries(p, ChunkAt(image, size, at));
      DeliveredFrom(p, image, size, next);
      assert ChunksFrom(p, image, size, next) == ChunksFrom(p, image, size, at + size);
      assert image[at..] == ChunkAt(image, size, at) + image[next..];
      assert ChunkAt(image, size, at)[..|ChunkAt(image, size, at)|] == ChunkAt(image, size, at);
    }
  }

  /** What a transfer sends when it completes: everything once, in order, then only version reads. */
  ghost predicate CompletedTrace(p: Path, image: seq<Byte>, size: nat, trace: seq<Frame>)
    requires size > 0
  {
    && p.Room() > 0
    && exists asked: nat ::
         trace == EnterFrames(p.enters) + AllChunks(p, image, size) + [COMMIT_FRAME, EXIT_FRAME] + Repeated(VERSION_FRAME, asked)
  }

  /**
   A device that finds the firmware in the chunk requests of a completed transfer finds the whole image
   exactly when every chunk fits a request. A plan's chunk size is not checked against that room, so a
   larger one loses the end of every full chunk in silence.
   */
  lemma WholeImageDelivered(p: Path, image: seq<Byte>, size: nat, trace: seq<Frame>)
    requires size > 0 && CompletedTrace(p, image, size, trace)
    ensures p.enters + ChunksTotal(|image|, size) <= |trace|
    ensures var frames := trace[p.enters..p.enters + ChunksTotal(|image|, size)];
            && (forall f :: f in frames ==> |f.payload| == |p.template|)
            && (Delivered(p, frames, |image|, size) == image <==> size <= p.Room() || |image| <= p.Room())
  {
    hide ChunksTotal, ChunksFrom, Delivered, EnterFrames, Repeated;
    var n, frames := ChunksTotal(|image|, size), AllChunks(p, image, size);
    var asked: nat :|
      trace == EnterFrames(p.enters) + frames + [COMMIT_FRAME, EXIT_FRAME] + Repeated(VERSION_FRAME, asked);
    assert trace[p.enters..p.enters + n] == frames;
    DeliveredFrom(p, image, size, 0);
    assert image[0..] == image;
  }

  lemma CompletedTraceOf(p: Path, image: seq<Byte>, size: nat, trace: seq<Frame>)
    requires size > 0 && p.Room() > 0
    requires trace == EnterFrames(p.enters) + AllChunks(p, image, size) + [COMMIT_FRAME, EXIT_FRAME]
    ensures CompletedTrace(p, image, size, trace)
  {
    hide AllChunks;
    assert trace == trace + Repeated(VERSION_FRAME, 0);
  }

  /** A plan of sixty-four-byte chunks for requests with room for fifty-nine: the ends of both chunks are lost. */
  lemma LongChunksCut(p: Path, image: seq<Byte>, trace: seq<Frame>)
    requires p == Path(1, Fill(64, 0), 5) && image == Fill(128, 1)
    requires trace == EnterFrames(1) + AllChunks(p, image, 64) + [COMMIT_FRAME, EXIT_FRAME]
    ensures CompletedTrace(p, image, 64, trace) && p.Room() == 59 && |trace| == 5
    ensures forall f :: f in trace[1..3] ==> |f.payload| == 64
    ensures Delivered(p, trace[1..3], 128, 64) != image
  {
    assert ChunksTotal(128, 64) == 2;
    hide AllChunks, Delivered, CompletedTrace;
    CompletedTraceOf(p, image, 64, trace);
    WholeImageDelivered(p, image, 64, trace);
  }

  // ---- What a log tells

  /** What a request has to be answered for. */
  predicate NeedsAnswer(c: Command) { c.Chunk? || c.Commit? }

  /** The request written at i was answered: nothing but replies follow it up to a valid one. */
  ghost predicate Answered(log: seq<Event>, i: nat) {
    exists j :: i < j < |log| && log[j] == Heard(Valid) && forall k :: i < k < j ==> log[k].Heard?
  }

  /** Nothing wrong at i: a request written, and answered if it must be, or no cancel seen. How a version read ends is no matter. */
  ghost predicate WellAt(log: seq<Event>, i: nat)
    requires i < |log|
  {
    match log[i]
    case Wrote(f, ok) => f.command.Version? || (ok && (NeedsAnswer(f.command) ==> Answered(log, i)))
    case Looked(cancelled) => !cancelled
    case _ => true
  }

  ghost predicate WentWell(log: seq<Event>) {
    forall i :: 0 <= i < |log| ==> WellAt(log, i)
  }

  /** What a step adds to the log does not answer a step before it. */
  predicate Fresh(log: seq<Event>) { log == [] || !log[0].Heard? }

  lemma AnsweredInFront(a: seq<Event>, b: seq<Event>, i: nat)
    requires i < |a| && Fresh(b)
    ensures Answered(a + b, i) <==> Answered(a, i)
  {
    var c := a + b;
    if j :| i < j < |c| && c[j] == Heard(Valid) && forall k :: i < k < j ==> c[k].Heard? {
      assert b != [] ==> c[|a|] == b[0];
      assert a[j] == c[j] && forall k :: i < k < j ==> a[k] == c[k];
    }
    if j :| i < j < |a| && a[j] == Heard(Valid) && forall k :: i < k < j ==> a[k].Heard? {
      assert c[j] == a[j] && forall k :: i < k < j ==> c[k] == a[k];
    }
  }

  lemma AnsweredBehind(a: seq<Event>, b: seq<Event>, i: nat)
    requires i < |b|
    ensures Answered(a + b, |a| + i) <==> Answered(b, i)
  {
    var c := a + b;
    if j :| i < j < |b| && b[j] == Heard(Valid) && forall k :: i < k < j ==> b[k].Heard? {
      assert c[|a| + j] == b[j] && forall k :: |a| + i < k < |a| + j ==> c[k] == b[k - |a|];
    }
    if j :| |a| + i < j < |c| && c[j] == Heard(Valid) && forall k :: |a| + i < k < j ==> c[k].Heard? {
      assert b[j - |a|] == c[j] && forall k :: i < k < j - |a| ==> b[k] == c[|a| + k];
    }
  }

  /** Two steps went well together exactly when each did. */
  lemma WellTogether(a: seq<Event>, b: seq<Event>)
    requires Fresh(b)
    ensures WentWell(a + b) <==> WentWell(a) && WentWell(b)
  {
    var c := a + b;
    forall i | 0 <= i < |a|
      ensures WellAt(c, i) <==> WellAt(a, i)
    {
      AnsweredInFront(a, b, i);
    }
    forall i | 0 <= i < |b|
      ensures WellAt(c, |a| + i) <==> WellAt(b, i)
    {
      AnsweredBehind(a, b, i);
    }
    hide WellAt;
    if WentWell(a) && WentWell(b) {
      forall i | 0 <= i < |c|
        ensures WellAt(c, i)
      {
        if i >= |a| { assert WellAt(b, i - |a|); }
      }
    }
    if WentWell(c) {
      forall i | 0 <= i < |b|
        ensures WellAt(b, i)
      {
        assert WellAt(c, |a| + i);
      }
    }
  }

  /** How many valid replies were read. */
  function Valids(log: seq<Event>): (n: nat) {
    if log == [] then 0 else Valids(log[..|log| - 1]) + if log[|log| - 1] == Heard(Valid) then 1 else 0
  }

  lemma {:induction false} ValidsTogether(a: seq<Event>, b: seq<Event>)
    ensures Valids(a + b) == Valids(a) + Valids(b)
  {
    if b == [] {
      assert a + b == a;
    } else {
      ValidsTogether(a, b[..|b| - 1]);
      assert (a + b)[..|a + b| - 1] == a + b[..|b| - 1];
    }
  }

  lemma {:induction false} NoValids(log: seq<Event>)
    requires forall i :: 0 <= i < |log| ==> log[i] != Heard(Valid)
    ensures Valids(log) == 0
  {
    if log != [] { NoValids(log[..|log| - 1]); }
  }

  /** A request that is not a read went well exactly when it succeeded, and is answered at most once. */
  lemma ExchangeWell(f: Frame, answered: bool, attempts: nat, events: seq<Event>)
    requires Exchange(f, answered, false, attempts, events) && !f.command.Version? && (answered <==> NeedsAnswer(f.command))
    ensures Fresh(events) && (WentWell(events) <==> Succeeded(answered, events))
    ensures Valids(events) == if answered && Succeeded(answered, events) then 1 else 0
    ensures forall i :: 0 <= i < |events| ==> !events[i].Looked? && !events[i].Found?
  {
    var last := |events| - 1;
    var front := events[..last];
    forall i | 0 <= i < |events|
      ensures InTurn(f, false, i, events[i]) && (i < last ==> !Settles(events[i]))
    {
      if i < last { assert front[i] == events[i]; }
    }
    NoValids(front);
    if Succeeded(answered, events) {
      if answered {
        assert events[0] == front[0];
        assert Answered(events, 0);
      }
      forall i | 0 <= i < |events|
        ensures WellAt(events, i)
      {
      }
    }
    assert WentWell(events) ==> WellAt(events, 0);
  }

  // ---- The transfer

  /** What a transfer reports; `gone` marks a failure put down to a device that is no longer there. */
  datatype Outcome = Outcome(status: Status, chunksSent: nat, gone: bool)

  /** No cancel was seen, the device not looked for and not found shut. */
  predicate Quiet(events: seq<Event>) {
    Looked(true) !in events && Found(true) !in events && Found(false) !in events && Opened(false) !in events
  }

  /** The events of a step that stops nothing: whether it went well and how many valid replies it had. */
  ghost predicate Step(events: seq<Event>, well: bool, valids: nat) {
    Fresh(events) && Quiet(events) && (WentWell(events) <==> well) && Valids(events) == valids
  }

  /** What was logged since. */
  function Since(before: seq<Event>, after: seq<Event>): seq<Event>
    requires before <= after
  {
    after[|before|..]
  }

  lemma SplitLog(a: seq<Event>, b: seq<Event>, c: seq<Event>)
    requires a <= b <= c
    ensures Since(a, c) == Since(a, b) + Since(b, c)
  {
  }

  lemma SinceJust(before: seq<Event>, events: seq<Event>)
    ensures before <= before + events && Since(before, before + events) == events
  {
  }

  /** A step after one that went well. */
  lemma NextStep(a: seq<Event>, b: seq<Event>, c: seq<Event>, m: nat, well: bool, n: nat)
    requires a <= b <= c && Step(Since(a, b), true, m) && Step(Since(b, c), well, n)
    ensures Step(Since(a, c), well, m + n)
  {
    SplitLog(a, b, c);
    hide WentWell, Valids, Since;
    WellTogether(Since(a, b), Since(b, c));
    ValidsTogether(Since(a, b), Since(b, c));
  }

  /** An event that decides nothing. */
  lemma OneEvent(before: seq<Event>, e: Event)
    requires e == Looked(false) || e == Opened(true)
    ensures before <= before + [e] && Step(Since(before, before + [e]), true, 0)
  {
    SinceJust(before, [e]);
    NoValids([e]);
  }

  /** Enters the bootloader, one request or three, each written once and in order. */
  method EnterBootloader(w: Wire, p: Path, attempts: nat) returns (ok: bool)
    requires 1 <= attempts <= 254
    modifies w
    ensures exists n :: 0 <= n <= p.enters && w.sent == old(w.sent) + EnterFrames(n)
    ensures ok ==> w.sent == old(w.sent) + EnterFrames(p.enters)
    ensures old(w.log) <= w.log && Step(Since(old(w.log), w.log), ok, 0)
    ensures w.reliable ==> ok
  {
    hide Step;
    NothingYet(w.log);
    for i := 0 to p.enters
      invariant w.sent == old(w.sent) + EnterFrames(i)
      invariant old(w.log) <= w.log && Step(Since(old(w.log), w.log), true, 0)
    {
      ghost var log := w.log;
      var sent := SendRow(w, Frame(Enter(i), []), false, false, attempts);
      RequestStep(log, w.log, Frame(Enter(i), []), false, attempts);
      NextStep(old(w.log), log, w.log, 0, sent, 0);
      if !sent {
        assert w.sent == old(w.sent) + EnterFrames(i + 1);
        return false;
      }
    }
    return true;
  }

  function EnterFrames(n: nat): (frames: seq<Frame>)
    ensures |frames| == n && forall i :: 0 <= i < n ==> frames[i] == Frame(Enter(i), [])
  {
    if n == 0 then [] else EnterFrames(n - 1) + [Frame(Enter(n - 1), [])]
  }

  lemma NothingYet(log: seq<Event>)
    ensures Step(Since(log, log), true, 0)
  {
    assert Since(log, log) == [];
  }

  /** The step of a request. */
  lemma RequestStep(before: seq<Event>, after: seq<Event>, f: Frame, answered: bool, attempts: nat)
    requires before <= after && Exchange(f, answered, false, attempts, Since(before, after))
    requires !f.command.Version? && (answered <==> NeedsAnswer(f.command))
    ensures var ok := Succeeded(answered, Since(before, after));
            Step(Since(before, after), ok, if answered && ok then 1 else 0)
  {
    ExchangeWell(f, answered, attempts, Since(before, after));
    hide Exchange, WentWell, Valids, Succeeded;
  }

  /** Sends one chunk; one that leaves no room for data is refused before anything is sent. */
  method SendChunk(w: Wire, p: Path, chunk: seq<Byte>, attempts: nat) returns (ok: bool)
    requires 1 <= attempts <= 254
    modifies w
    ensures ok ==> p.Room() > 0
    ensures if p.Room() > 0 && chunk != [] then w.sent == old(w.sent) + [ChunkFrame(p, chunk)] else w.sent == old(w.sent) && !ok
    ensures if p.Room() > 0 && chunk != [] then old(w.log) <= w.log && Step(Since(old(w.log), w.log), ok, if ok then 1 else 0)
            else w.log == old(w.log)
    ensures w.reliable && p.Room() > 0 && chunk != [] ==> ok
  {
    if p.Room() == 0 || chunk == [] { return false; }
    ok := SendRow(w, ChunkFrame(p, chunk), true, false, attempts);
    RequestStep(old(w.log), w.log, ChunkFrame(p, chunk), true, attempts);
  }

  const EXIT_FRAME := Frame(Exit, [])
  const COMMIT_FRAME := Frame(Commit, [])
  const VERSION_FRAME := Frame(Version, [])

  /** An attempt to leave the bootloader is among the frames from the nth on. */
  ghost predicate ExitTried(frames: seq<Frame>, n: nat) {
    exists i :: n <= i < |frames| && frames[i] == EXIT_FRAME
  }

  predicate IsCompleted(status: Status) { status == OutcomeCompleted || status == OutcomeCompletedUnverified }

  /** A failure is put down to the device exactly when it is found to be gone. */
  method Failed(w: Wire, chunksSent: nat) returns (o: Outcome)
    modifies w
    ensures o.status == OutcomeFailed && o.chunksSent == chunksSent
    ensures w.sent == old(w.sent) && w.log == old(w.log) + [Found(!o.gone)]
  {
    var present := w.Find();
    return Outcome(OutcomeFailed, chunksSent, !present);
  }

  /**
   How a run that stops short ends, where `room` says whether a chunk request has any: something went
   wrong in it; it is cancelled exactly when it saw a cancel and then left the bootloader, and the
   device is gone exactly when it was looked for and not found.
   */
  ghost predicate Halted(events: seq<Event>, room: bool, valids: nat, o: Outcome) {
    && events != [] && Fresh(events) && (room ==> !WentWell(events)) && Valids(events) == valids
    && (o.status == OutcomeFailed || o.status == OutcomeCancelled)
    && (o.status == OutcomeCancelled <==> Looked(true) in events && events[|events| - 1] == Wrote(EXIT_FRAME, true))
    && (o.gone <==> Found(false) in events)
  }

  /** A run that halts after steps that went well. */
  lemma HaltsLater(a: seq<Event>, b: seq<Event>, c: seq<Event>, m: nat, n: nat, room: bool, o: Outcome)
    requires a <= b <= c && Step(Since(a, b), true, m) && Halted(Since(b, c), room, n, o)
    ensures Halted(Since(a, c), room, m + n, o)
  {
    SplitLog(a, b, c);
    hide WentWell, Valids, Since;
    WellTogether(Since(a, b), Since(b, c));
    ValidsTogether(Since(a, b), Since(b, c));
  }

  /** The device was looked for, and if there the bootloader perhaps left. */
  predicate GaveUp(events: seq<Event>, gone: bool) {
    && 1 <= |events| <= 2 && events[0] == Found(!gone)
    && (|events| == 2 ==> events[1].Wrote? && events[1].frame == EXIT_FRAME)
  }

  /** A step that failed, after which the device was looked for and perhaps the bootloader left. */
  lemma FailedHalts(before: seq<Event>, failed: seq<Event>, after: seq<Event>, room: bool, valids: nat, o: Outcome)
    requires before <= failed <= after && Step(Since(before, failed), !room, valids) && o.status == OutcomeFailed
    requires GaveUp(Since(failed, after), o.gone)
    ensures Halted(Since(before, after), room, valids, o)
  {
    var events, tail := Since(before, failed), Since(failed, after);
    SplitLog(before, failed, after);
    WellTogether(events, tail);
    ValidsTogether(events, tail);
    NoValids(tail);
    hide WentWell, Valids, Since;
    assert forall e :: e in tail ==> e == tail[0] || e == tail[|tail| - 1];
    assert Found(!o.gone) in tail && Looked(true) !in tail && Found(o.gone) !in tail;
  }

  /** A cancel that was seen. */
  lemma CancelHalts(before: seq<Event>, tail: seq<Event>, room: bool, o: Outcome)
    requires o.status == OutcomeFailed || (o.status == OutcomeCancelled && !o.gone)
    requires tail == if o.status == OutcomeCancelled then [Wrote(EXIT_FRAME, true)] else [Wrote(EXIT_FRAME, false), Found(!o.gone)]
    ensures before <= before + ([Looked(true)] + tail) && Halted(Since(before, before + ([Looked(true)] + tail)), room, 0, o)
  {
    var events := [Looked(true)] + tail;
    SinceJust(before, events);
    NoValids(events);
    assert !WellAt(events, 0);
    assert Looked(true) in events && events[|events| - 1] == tail[|tail| - 1];
    hide Valids, WentWell;
    if o.gone {
      assert events[2] == Found(false);
    }
  }

  /** Reports a failure after trying to leave the bootloader, unless the device is gone. */
  method FailedInBootloader(w: Wire, chunksSent: nat, attempts: nat) returns (o: Outcome)
    requires 1 <= attempts <= 254
    modifies w
    ensures o.status == OutcomeFailed && o.chunksSent == chunksSent
    ensures w.sent == if o.gone then old(w.sent) else old(w.sent) + [EXIT_FRAME]
    ensures old(w.log) <= w.log && GaveUp(Since(old(w.log), w.log), o.gone)
  {
    o := Failed(w, chunksSent);
    ghost var log := w.log;
    if !o.gone {
      var left := SendRow(w, EXIT_FRAME, false, false, attempts);
      OneWrite(log, w.log, EXIT_FRAME, attempts);
    }
  }

  /** A request that is not answered is one write. */
  lemma OneWrite(before: seq<Event>, after: seq<Event>, f: Frame, attempts: nat)
    requires before <= after && Exchange(f, false, false, attempts, after[|before|..])
    ensures after == before + [Wrote(f, Succeeded(false, after[|before|..]))]
  {
    var events := after[|before|..];
    assert InTurn(f, false, 0, events[0]);
    assert after == before + events;
  }

  /** Leaves the bootloader on a cancel. */
  method CancelTransfer(w: Wire, chunksSent: nat, attempts: nat) returns (o: Outcome)
    requires 1 <= attempts <= 254
    modifies w
    ensures (o.status == OutcomeFailed || o.status == OutcomeCancelled) && o.chunksSent == chunksSent
    ensures w.sent == old(w.sent) + [EXIT_FRAME]
    ensures w.log == old(w.log) +
              if o.status == OutcomeCancelled then [Wrote(EXIT_FRAME, true)] else [Wrote(EXIT_FRAME, false), Found(!o.gone)]
    ensures o.status == OutcomeCancelled ==> !o.gone
  {
    ghost var log := w.log;
    var left := SendRow(w, EXIT_FRAME, false, false, attempts);
    OneWrite(log, w.log, EXIT_FRAME, attempts);
    if left { return Outcome(OutcomeCancelled, chunksSent, false); }
    o := Failed(w, chunksSent);
  }

  /** Sends the next chunk, unless a cancel someone may have asked for is seen first; an outcome means it stopped. */
  method SendNext(w: Wire, p: Path, image: seq<Byte>, size: nat, attempts: nat, asked: bool, at: nat, chunksSent: nat)
    returns (stopped: Option<Outcome>)
    requires size > 0 && at < |image| && 1 <= attempts <= 254
    modifies w
    ensures old(w.sent) <= w.sent
    ensures stopped.None? ==> p.Room() > 0 && w.sent == old(w.sent) + [ChunkFrame(p, ChunkAt(image, size, at))]
    ensures old(w.log) <= w.log && (stopped.None? ==> Step(Since(old(w.log), w.log), true, 1))
    ensures stopped.Some? ==> stopped.value.chunksSent == chunksSent && Halted(Since(old(w.log), w.log), p.Room() > 0, 0, stopped.value)
    ensures stopped.Some? ==> stopped.value.gone || ExitTried(w.sent, |old(w.sent)|)
    ensures !asked ==> stopped.None? || stopped.value.status == OutcomeFailed
    ensures w.reliable && !asked && p.Room() > 0 ==> stopped.None?
  {
    ghost var log := w.log;
    var cancelled := w.Look(asked);
    ghost var looked := w.log;
    if cancelled {
      var o := CancelTransfer(w, chunksSent, attempts);
      CancelHalts(log, w.log[|looked|..], p.Room() > 0, o);
      assert w.log == log + ([Looked(true)] + w.log[|looked|..]);
      assert w.sent[|old(w.sent)|] == EXIT_FRAME;
      return Some(o);
    }
    OneEvent(log, Looked(false));
    NothingYet(looked);
    var ok := SendChunk(w, p, ChunkAt(image, size, at), attempts);
    hide Step, Halted, Path.Room, ChunkFrame;
    NextStep(log, looked, w.log, 0, ok || p.Room() == 0, if ok then 1 else 0);
    if ok { return None; }
    ghost var inBoot, failed := w.sent, w.log;
    var o := FailedInBootloader(w, chunksSent, attempts);
    FailedHalts(log, failed, w.log, p.Room() > 0, 0, o);
    assert o.gone || w.sent[|inBoot|] == EXIT_FRAME;
    return Some(o);
  }

  lemma ExitAt(frames: seq<Frame>, n: nat, i: nat)
    requires n <= i < |frames| && frames[i] == EXIT_FRAME
    ensures ExitTried(frames, n)
  {
  }

  lemma NoCopies(sent: seq<Frame>, f: Frame)
    ensures sent == sent + Repeated(f, 0)
  {
  }

  lemma ExitTriedSince(frames: seq<Frame>, m: nat, n: nat)
    requires ExitTried(frames, n) && m <= n
    ensures ExitTried(frames, m)
  {
  }

  /** Sends the chunks; an outcome means it stopped early, having sent as many as were answered. */
  method SendChunks(w: Wire, p: Path, image: seq<Byte>, size: nat, attempts: nat, asked: bool) returns (stopped: Option<Outcome>)
    requires size > 0 && image != [] && 1 <= attempts <= 254
    modifies w
    ensures old(w.sent) <= w.sent
    ensures stopped.None? ==> p.Room() > 0 && w.sent == old(w.sent) + AllChunks(p, image, size)
    ensures old(w.log) <= w.log && (stopped.None? ==> Step(Since(old(w.log), w.log), true, ChunksTotal(|image|, size)))
    ensures stopped.Some? ==> stopped.value.chunksSent < ChunksTotal(|image|, size)
    ensures stopped.Some? ==> Halted(Since(old(w.log), w.log), p.Room() > 0, stopped.value.chunksSent, stopped.value)
    ensures stopped.Some? ==> stopped.value.gone || ExitTried(w.sent, |old(w.sent)|)
    ensures !asked ==> stopped.None? || stopped.value.status == OutcomeFailed
    ensures w.reliable && !asked && p.Room() > 0 ==> stopped.None?
  {
    hide ChunksTotal, ChunkFrame, IsCompleted, ExitTried, Path.Room, Step, Halted;
    var chunksSent, offset := 0, 0;
    NothingYet(w.log);
    while offset < |image|
      invariant 0 <= chunksSent && chunksSent + ChunksTotal(Max(0, |image| - offset), size) == ChunksTotal(|image|, size)
      invariant offset > 0 ==> p.Room() > 0
      invariant p.Room() > 0 ==> w.sent + ChunksFrom(p, image, size, offset) == old(w.sent) + AllChunks(p, image, size)
      invariant old(w.sent) <= w.sent && old(w.log) <= w.log && Step(Since(old(w.log), w.log), true, chunksSent)
      decreases |image| - offset
    {
      NextCount(|image| - offset, size);
      ghost var before, log := w.sent, w.log;
      stopped := SendNext(w, p, image, size, attempts, asked, offset, chunksSent);
      if stopped.Some? {
        HaltsLater(old(w.log), log, w.log, chunksSent, 0, p.Room() > 0, stopped.value);
        if !stopped.value.gone { ExitTriedSince(w.sent, |old(w.sent)|, |before|); }
        return;
      }
      NextStep(old(w.log), log, w.log, chunksSent, true, 1);
      assert before + ChunksFrom(p, image, size, offset) == w.sent + ChunksFrom(p, image, size, offset + size);
      chunksSent, offset := chunksSent + 1, offset + size;
    }
    NoneLeft(size);
    return None;
  }

  /** The version was asked for and told. */
  predicate VersionTold(events: seq<Event>) {
    |events| >= 2 && events[|events| - 2..] == [Wrote(VERSION_FRAME, true), Heard(Valid)]
  }

  /** The device was opened again, or would not open and was asked nothing more. */
  predicate Reopened(events: seq<Event>) {
    if Opened(false) in events then events[|events| - 1] == Opened(false) else Opened(true) in events
  }

  /** How a run that completes ends. */
  ghost predicate Finished(events: seq<Event>, o: Outcome) {
    && events != [] && Fresh(events) && WentWell(events) && Reopened(events) && !o.gone && IsCompleted(o.status)
    && Looked(true) !in events && Found(true) !in events && Found(false) !in events
    && (o.status == OutcomeCompleted <==> VersionTold(events))
  }

  /** The events of a version read: none goes wrong, and it succeeds exactly when the version was told. */
  lemma VersionStep(events: seq<Event>, attempts: nat)
    requires Exchange(VERSION_FRAME, true, true, attempts, events)
    ensures Fresh(events) && Quiet(events) && WentWell(events)
    ensures Succeeded(true, events) <==> VersionTold(events)
  {
    var last := |events| - 1;
    forall i | 0 <= i < |events|
      ensures InTurn(VERSION_FRAME, true, i, events[i]) && WellAt(events, i)
      ensures i < last ==> !Settles(events[i])
    {
      if i < last { assert events[..last][i] == events[i]; }
    }
    if last > 0 {
      assert events[last].Heard? ==> (last - 1) % 2 == 0;
      assert InTurn(VERSION_FRAME, true, last - 1, events[last - 1]) && !Settles(events[last - 1]);
      assert events[last - 1..] == [events[last - 1], events[last]];
    }
  }

  /** A run that completes after a step that went well. */
  lemma FinishesLater(a: seq<Event>, b: seq<Event>, c: seq<Event>, m: nat, o: Outcome)
    requires a <= b <= c && Step(Since(a, b), true, m) && Finished(Since(b, c), o)
    ensures Finished(Since(a, c), o) && Valids(Since(a, c)) >= m
  {
    SplitLog(a, b, c);
    hide WentWell, Valids, VersionTold, Since;
    WellTogether(Since(a, b), Since(b, c));
    ValidsTogether(Since(a, b), Since(b, c));
    EndsAlike(Since(a, b), Since(b, c));
  }

  /** The end of the back is the end of both, as a reply never begins it. */
  lemma EndsAlike(front: seq<Event>, back: seq<Event>)
    requires Fresh(back)
    ensures VersionTold(front + back) <==> VersionTold(back) || (back == [] && VersionTold(front))
  {
    var all := front + back;
    if |back| >= 2 {
      assert all[|all| - 2..] == back[|back| - 2..];
    } else if |back| == 1 && |all| >= 2 {
      assert all[|all| - 2..][1] == back[0];
    } else if back == [] {
      assert all == front;
    }
  }

  /** A version read after the device was opened. */
  lemma OpenedFinishes(events: seq<Event>, o: Outcome)
    requires Fresh(events) && Quiet(events) && WentWell(events) && !o.gone && IsCompleted(o.status) && events != []
    requires o.status == OutcomeCompleted <==> VersionTold(events)
    ensures Finished([Opened(true)] + events, o)
  {
    hide VersionTold;
    WellTogether([Opened(true)], events);
    EndsAlike([Opened(true)], events);
  }

  /** Opens the device again and asks its version; a run that comes here has completed, verified or not. */
  method VerifyPostFlash(w: Wire, total: nat, attempts: nat) returns (o: Outcome)
    requires 1 <= attempts <= 254
    modifies w
    ensures exists asked: nat :: w.sent == old(w.sent) + Repeated(VERSION_FRAME, asked)
    ensures o.chunksSent == total && old(w.log) <= w.log && Finished(Since(old(w.log), w.log), o)
    ensures w.reliable ==> o.status == OutcomeCompleted
    ensures Opened(false) in Since(old(w.log), w.log) ==> w.sent == old(w.sent)
  {
    ghost var log := w.log;
    var reopened := w.Reopen();
    SinceJust(log, [Opened(reopened)]);
    if !reopened {
      NoCopies(w.sent, VERSION_FRAME);
      return Outcome(OutcomeCompletedUnverified, total, false);
    }
    OneEvent(log, Opened(true));
    ghost var open := w.log;
    var answered := SendRow(w, VERSION_FRAME, true, true, attempts);
    hide Exchange, Succeeded, Repeated, Since, Step;
    VersionStep(Since(open, w.log), attempts);
    o := Outcome(if answered then OutcomeCompleted else OutcomeCompletedUnverified, total, false);
    SplitLog(log, open, w.log);
    OpenedFinishes(Since(open, w.log), o);
  }

  /** Commits and leaves the bootloader, and then verifies. */
  method FinishTransfer(w: Wire, total: nat, attempts: nat) returns (o: Outcome)
    requires 1 <= attempts <= 254
    modifies w
    ensures old(w.sent) <= w.sent && o.chunksSent == total
    ensures IsCompleted(o.status) ==>
              exists asked: nat :: w.sent == old(w.sent) + [COMMIT_FRAME, EXIT_FRAME] + Repeated(VERSION_FRAME, asked)
    ensures o.gone || ExitTried(w.sent, |old(w.sent)|)
    ensures old(w.log) <= w.log
    ensures if IsCompleted(o.status) then Finished(Since(old(w.log), w.log), o)
            else o.status == OutcomeFailed && exists valids: nat :: Halted(Since(old(w.log), w.log), true, valids, o)
    ensures w.reliable ==> o.status == OutcomeCompleted
  {
    hide Step, Halted, Finished, Exchange, Succeeded, Repeated, ExitTried, Since;
    ghost var start, log := w.sent, w.log;
    var committed := SendRow(w, COMMIT_FRAME, true, false, attempts);
    RequestStep(log, w.log, COMMIT_FRAME, true, attempts);
    ghost var afterCommit := w.log;
    if !committed {
      o := FailedInBootloader(w, total, attempts);
      FailedHalts(log, afterCommit, w.log, true, 0, o);
      if !o.gone { ExitAt(w.sent, |start|, |start| + 1); }
      return;
    }
    var left := SendRow(w, EXIT_FRAME, false, false, attempts);
    ghost var afterExit := w.log;
    RequestStep(afterCommit, w.log, EXIT_FRAME, false, attempts);
    NextStep(log, afterCommit, w.log, 1, left, 0);
    ExitAt(w.sent, |start|, |start| + 1);
    if !left {
      o := Failed(w, total);
      SinceJust(afterExit, [Found(!o.gone)]);
      FailedHalts(log, afterExit, w.log, true, 1, o);
      return;
    }
    assert w.sent == start + [COMMIT_FRAME, EXIT_FRAME];
    ghost var exited := w.sent;
    assert exited[|start| + 1] == EXIT_FRAME;
    o := VerifyPostFlash(w, total, attempts);
    ghost var asked: nat :| w.sent == exited + Repeated(VERSION_FRAME, asked);
    assert w.sent[|start| + 1] == exited[|start| + 1];
    ExitAt(w.sent, |start|, |start| + 1);
    FinishesLater(log, afterExit, w.log, 1, o);
    FinishedMeans(afterExit, w.log, o);
  }

  /**
   Runs one transfer of the image whose hash was just checked again. `entered` says whether the
   bootloader was entered. Whatever fails and whenever a cancel arrives:
   - a completed transfer, verified or not, sent every chunk once and in order, then one commit, then
     one exit, and reports as many chunks as the plan had;
   - once the bootloader was entered, every outcome but a device found gone follows an attempt to
     leave it;
   - it completes exactly when a chunk request has room for data and all went well: every request was
     written, every chunk and the commit answered by a valid reply, and no cancel seen; and verified
     exactly when the version was told as well;
   - it is cancelled exactly when it saw a cancel and then left the bootloader, and the device is gone
     exactly when it was looked for and not found;
   - it reports as many chunks as were answered;
   - over a reliable transport, with no cancel asked for, it completes exactly when a chunk request has
     room for data at all.
   */
  method RunTransfer(w: Wire, p: Path, image: seq<Byte>, size: nat, attempts: nat, asked: bool)
    returns (o: Outcome, entered: bool)
    requires size > 0 && image != [] && 1 <= attempts <= 254
    modifies w
    ensures old(w.sent) <= w.sent && old(w.log) <= w.log
    ensures IsCompleted(o.status) ==> CompletedTrace(p, image, size, w.sent[|old(w.sent)|..])
    ensures IsCompleted(o.status) <==> p.Room() > 0 && WentWell(Since(old(w.log), w.log))
    ensures o.status == OutcomeCompleted <==> IsCompleted(o.status) && VersionTold(Since(old(w.log), w.log))
    ensures o.status == OutcomeCancelled <==>
              Looked(true) in Since(old(w.log), w.log) && w.log[|w.log| - 1] == Wrote(EXIT_FRAME, true)
    ensures IsCompleted(o.status) || o.status == OutcomeCancelled || o.status == OutcomeFailed
    ensures o.gone <==> Found(false) in Since(old(w.log), w.log)
    ensures IsCompleted(o.status) ==> Reopened(Since(old(w.log), w.log))
    ensures o.chunksSent == Min(Valids(Since(old(w.log), w.log)), ChunksTotal(|image|, size))
    ensures entered && !o.gone ==> ExitTried(w.sent, |old(w.sent)| + p.enters)
    ensures !entered ==> o.status == OutcomeFailed
    ensures !asked ==> o.status != OutcomeCancelled
    ensures w.reliable && !asked ==> (o.status == OutcomeCompleted <==> p.Room() > 0)
  {
    hide Step, Halted, Finished, ExitTried, Path.Room, ChunksTotal, ChunksFrom, EnterFrames, Repeated, CompletedTrace;
    ghost var start, log := w.sent, w.log;
    entered := EnterBootloader(w, p, attempts);
    ghost var inBoot, logged := w.sent, w.log;
    if !entered {
      o := Failed(w, 0);
      SinceJust(logged, [Found(!o.gone)]);
      FailedHalts(log, logged, w.log, true, 0, o);
      HaltedMeans(log, w.log, true, 0, o);
      return;
    }
    var stopped := SendChunks(w, p, image, size, attempts, asked);
    if stopped.Some? {
      o := stopped.value;
      HaltsLater(log, logged, w.log, 0, o.chunksSent, p.Room() > 0, o);
      HaltedMeans(log, w.log, p.Room() > 0, o.chunksSent, o);
      if !o.gone { ExitTriedSince(w.sent, |start| + p.enters, |inBoot|); }
      return;
    }
    ghost var chunked := w.sent;
    var total := ChunksTotal(|image|, size);
    NextStep(log, logged, w.log, 0, true, total);
    logged := w.log;
    o := FinishTransfer(w, total, attempts);
    if !o.gone { ExitTriedSince(w.sent, |start| + p.enters, |chunked|); }
    if IsCompleted(o.status) {
      FinishesLater(log, logged, w.log, total, o);
      FinishedMeans(log, w.log, o);
      ghost var asked: nat :| w.sent == chunked + [COMMIT_FRAME, EXIT_FRAME] + Repeated(VERSION_FRAME, asked);
      TraceOf(p, image, size, start, w.sent, asked);
    } else {
      ghost var valids: nat :| Halted(Since(logged, w.log), true, valids, o);
      HaltsLater(log, logged, w.log, total, valids, true, o);
      HaltedMeans(log, w.log, true, total + valids, o);
    }
  }

  lemma TraceOf(p: Path, image: seq<Byte>, size: nat, start: seq<Frame>, sent: seq<Frame>, asked: nat)
    requires size > 0 && p.Room() > 0
    requires sent == start + EnterFrames(p.enters) + AllChunks(p, image, size) + [COMMIT_FRAME, EXIT_FRAME] + Repeated(VERSION_FRAME, asked)
    ensures start <= sent && CompletedTrace(p, image, size, sent[|start|..])
  {
    hide ChunksTotal, ChunksFrom, EnterFrames, Repeated;
    var rest := EnterFrames(p.enters) + AllChunks(p, image, size) + [COMMIT_FRAME, EXIT_FRAME] + Repeated(VERSION_FRAME, asked);
    assert sent == start + rest;
    assert sent[|start|..] == rest;
  }

  lemma HaltedMeans(before: seq<Event>, after: seq<Event>, room: bool, valids: nat, o: Outcome)
    requires before <= after && Halted(Since(before, after), room, valids, o)
    ensures (room ==> !WentWell(Since(before, after))) && Valids(Since(before, after)) == valids
    ensures !IsCompleted(o.status) && (o.status == OutcomeFailed || o.status == OutcomeCancelled) && |after| > 0
    ensures o.status == OutcomeCancelled <==> Looked(true) in Since(before, after) && after[|after| - 1] == Wrote(EXIT_FRAME, true)
    ensures o.gone <==> Found(false) in Since(before, after)
  {
    hide WentWell, Valids;
  }

  lemma FinishedMeans(before: seq<Event>, after: seq<Event>, o: Outcome)
    requires before <= after && Finished(Since(before, after), o)
    ensures WentWell(Since(before, after)) && Reopened(Since(before, after)) && IsCompleted(o.status) && !o.gone
    ensures o.status == OutcomeCompleted <==> VersionTold(Since(before, after))
    ensures Looked(true) !in Since(before, after) && Found(false) !in Since(before, after)
  {
  }
}

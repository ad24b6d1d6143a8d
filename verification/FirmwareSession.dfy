/**
 A firmware session: the handle its callers and the transfer task share, and every interleaving of
 their lock-guarded steps.
 */
module FirmwareSession {
  import opened Bytes

  datatype Stage = Preflight | AwaitingConfirmation | Running | Completed | Cancelled | Failed

  datatype Status = OutcomeCompleted | OutcomeCompletedUnverified | OutcomeCancelled | OutcomeFailed

  /** `begun` stands for a start time that is set. */
  datatype FinalReport = FinalReport(status: Status, begun: bool, chunksSent: nat)

  /** The handle's guarded fields. */
  datatype Handle = Handle(stage: Stage, cancelRequested: bool, begun: bool, report: Option<FinalReport>)

  const NEW_HANDLE := Handle(Preflight, false, false, None)

  predicate Terminal(s: Stage) { s.Completed? || s.Cancelled? || s.Failed? }

  function StageOf(status: Status): Stage {
    match status
    case OutcomeCompleted => Completed
    case OutcomeCompletedUnverified => Completed
    case OutcomeCancelled => Cancelled
    case OutcomeFailed => Failed
  }

  // ---- What each critical section does to the handle

  function Started(h: Handle): Option<Handle> {
    if h.stage.Preflight? then Some(h.(stage := AwaitingConfirmation)) else None
  }

  function Confirmed(h: Handle): Option<Handle> {
    if h.stage.AwaitingConfirmation? then Some(h.(stage := Running, begun := true, cancelRequested := false)) else None
  }

  /** The second critical section of a cancel: cancel outright, or ask the transfer to stop. */
  function CancelAsked(h: Handle): Handle {
    if h.stage.Preflight? || h.stage.AwaitingConfirmation? then
      h.(stage := Cancelled, report := Some(FinalReport(OutcomeCancelled, h.begun, 0)))
    else h.(cancelRequested := true)
  }

  /** Each finalize function: it never looks at what stage the session was in. */
  function Finalized(h: Handle, status: Status, chunksSent: nat): Handle {
    h.(stage := StageOf(status), report := Some(FinalReport(status, h.begun, chunksSent)))
  }

  /** The handle as the program has it: fields updated in place, each method one critical section. */
  class SessionHandle {
    var stage: Stage
    var cancelRequested: bool
    var begun: bool
    var report: Option<FinalReport>

    function Value(): Handle
      reads this
    {
      Handle(stage, cancelRequested, begun, report)
    }

    constructor ()
      ensures Value() == NEW_HANDLE
    {
      stage, cancelRequested, begun, report := Preflight, false, false, None;
    }

    method Start() returns (ok: bool)
      modifies this
      ensures ok <==> old(stage) == Preflight
      ensures stage == (if ok then AwaitingConfirmation else old(stage))
      ensures cancelRequested == old(cancelRequested) && begun == old(begun) && report == old(report)
      ensures ok <==> Started(old(Value())).Some?
      ensures Value() == if ok then Started(old(Value())).value else old(Value())
    {
      if stage != Preflight { return false; }
      stage := AwaitingConfirmation;
      return true;
    }

    method Confirm() returns (ok: bool)
      modifies this
      ensures ok <==> old(stage) == AwaitingConfirmation
      ensures if ok then stage == Running && begun && !cancelRequested && report == old(report)
              else stage == old(stage) && begun == old(begun) && cancelRequested == old(cancelRequested) && report == old(report)
      ensures ok <==> Confirmed(old(Value())).Some?
      ensures Value() == if ok then Confirmed(old(Value())).value else old(Value())
    {
      if stage != AwaitingConfirmation { return false; }
      stage, begun, cancelRequested := Running, true, false;
      return true;
    }

    method AskCancel() returns (r: Option<FinalReport>)
      modifies this
      ensures begun == old(begun)
      ensures if old(stage) == Preflight || old(stage) == AwaitingConfirmation
              then stage == Cancelled && report == Some(FinalReport(OutcomeCancelled, begun, 0)) && cancelRequested == old(cancelRequested)
              else stage == old(stage) && report == old(report) && cancelRequested
      ensures Value() == CancelAsked(old(Value()))
      ensures r == if old(stage).Preflight? || old(stage).AwaitingConfirmation? then report else None
    {
      if stage == Preflight || stage == AwaitingConfirmation {
        stage := Cancelled;
        report := Some(FinalReport(OutcomeCancelled, begun, 0));
        return report;
      }
      cancelRequested := true;
      return None;
    }

    method Finalize(status: Status, chunksSent: nat)
      modifies this
      ensures report == Some(FinalReport(status, begun, chunksSent)) && begun == old(begun) && cancelRequested == old(cancelRequested)
      ensures stage == Completed <==> status == OutcomeCompleted || status == OutcomeCompletedUnverified
      ensures stage == Cancelled <==> status == OutcomeCancelled
      ensures stage == Failed <==> status == OutcomeFailed
      ensures Value() == Finalized(old(Value()), status, chunksSent)
    {
      stage := StageOf(status);
      report := Some(FinalReport(status, begun, chunksSent));
    }
  }

  // ---- Everyone who touches the handle

  /**
   Where one caller or one transfer task has got to. A confirm that succeeded starts its transfer only
   after letting the lock go; a cancel takes the lock again and again.
   */
  datatype Actor =
    | Starting
    | Confirming
    | Spawning
    | Cancelling
    | CancelAsking
    | CancelWaiting
    | CancelReturned(report: FinalReport)
    | TaskRunning
    | TaskStopping
    | TaskDone
    | Returned

  datatype World = World(handle: Handle, actors: seq<Actor>)

  const NEW_WORLD := World(NEW_HANDLE, [])

  /** An actor that is, is about to be, or was, a transfer. */
  predicate IsTransfer(a: Actor) { a.Spawning? || a.TaskRunning? || a.TaskStopping? || a.TaskDone? }

  /** A transfer that has not reported yet. */
  predicate IsLive(a: Actor) { a.Spawning? || a.TaskRunning? || a.TaskStopping? }

  predicate IsCaller(a: Actor) { a.Starting? || a.Confirming? || a.Cancelling? }

  /** One step of actor i: one critical section, or the start of the transfer. */
  ghost predicate ActorStep(w: World, w': World, i: nat)
    requires i < |w.actors|
  {
    var h, h', a := w.handle, w'.handle, w.actors[i];
    if a.Spawning? then
      h' == h && w'.actors == w.actors[i := Returned] + [TaskRunning]
    else
      |w'.actors| == |w.actors| && w'.actors == w.actors[i := w'.actors[i]] && Section(h, h', a, w'.actors[i])
  }

  /** One critical section: the handle and the actor before and after. */
  ghost predicate Section(h: Handle, h': Handle, a: Actor, a': Actor) {
    match a
    case Starting => a' == Returned && h' == (if Started(h).Some? then Started(h).value else h)
    case Confirming =>
      if Confirmed(h).Some? then a' == Spawning && h' == Confirmed(h).value else a' == Returned && h' == h
    case Cancelling =>
      h' == h && a' == if Terminal(h.stage) && h.report.Some? then CancelReturned(h.report.value) else CancelAsking
    case CancelAsking =>
      && h' == CancelAsked(h)
      && a' == if h.stage.Preflight? || h.stage.AwaitingConfirmation? then CancelReturned(h'.report.value) else CancelWaiting
    case CancelWaiting =>
      h' == h && a' == if h.report.Some? then CancelReturned(h.report.value) else CancelWaiting
    case TaskRunning =>
      // Between chunks the transfer looks at the cancel flag; otherwise it goes on, or ends.
      || (h' == h && a' == if h.cancelRequested then TaskStopping else TaskRunning)
      || (a' == TaskDone && exists status, sent :: status != OutcomeCancelled && h' == Finalized(h, status, sent))
    case TaskStopping =>
      a' == TaskDone && exists status, sent ::
        (status == OutcomeCancelled || status == OutcomeFailed) && h' == Finalized(h, status, sent)
    case _ => false
  }

  /** A new caller arrives. */
  ghost predicate Arrives(w: World, w': World) {
    w'.handle == w.handle && |w'.actors| == |w.actors| + 1 && w'.actors[..|w.actors|] == w.actors && IsCaller(w'.actors[|w.actors|])
  }

  ghost predicate Step(w: World, w': World) {
    Arrives(w, w') || exists i: nat :: i < |w.actors| && ActorStep(w, w', i)
  }

  /** A run: any number of steps by anyone, from a session just preflighted. */
  ghost predicate IsRun(run: seq<World>) {
    |run| > 0 && run[0] == NEW_WORLD && forall n :: 0 <= n < |run| - 1 ==> Step(run[n], run[n + 1])
  }

  // ---- What every step keeps

  ghost predicate OneTransfer(w: World) {
    forall i, j :: 0 <= i < |w.actors| && 0 <= j < |w.actors| && i != j ==> !(IsTransfer(w.actors[i]) && IsTransfer(w.actors[j]))
  }

  ghost predicate SomeLive(w: World) { exists i :: 0 <= i < |w.actors| && IsLive(w.actors[i]) }

  ghost predicate SomeTransfer(w: World) { exists i :: 0 <= i < |w.actors| && IsTransfer(w.actors[i]) }

  ghost predicate ReturnsReport(w: World) {
    forall i :: 0 <= i < |w.actors| && w.actors[i].CancelReturned? ==> w.handle.report == Some(w.actors[i].report)
  }

  ghost predicate StoppingWasAsked(w: World) {
    forall i :: 0 <= i < |w.actors| && w.actors[i].TaskStopping? ==> w.handle.cancelRequested
  }

  ghost predicate HandleOk(h: Handle) {
    && (h.report.Some? <==> Terminal(h.stage))
    && (h.report.Some? ==> StageOf(h.report.value.status) == h.stage && h.report.value.begun == h.begun)
    && (h.stage.Preflight? || h.stage.AwaitingConfirmation? ==> !h.begun && !h.cancelRequested)
    && (h.stage.Running? ==> h.begun)
    && (h.stage.Cancelled? && h.begun ==> h.cancelRequested)
  }

  ghost predicate Inv(w: World) {
    && HandleOk(w.handle)
    && OneTransfer(w)
    && (SomeLive(w) <==> w.handle.stage.Running?)
    && (SomeTransfer(w) <==> w.handle.begun)
    && ReturnsReport(w)
    && StoppingWasAsked(w)
  }

  /** What steps, one or many, keep of the handle. */
  ghost predicate HandleKept(h: Handle, h': Handle) {
    && (Terminal(h.stage) ==> h'.stage == h.stage && h'.report == h.report)
    && (h.begun ==> h'.begun)
    && (h.begun && h.cancelRequested ==> h'.cancelRequested)
  }

  lemma ArrivalKeeps(w: World, w': World)
    requires Inv(w) && Arrives(w, w')
    ensures Inv(w') && HandleKept(w.handle, w'.handle)
  {
    var n := |w.actors|;
    assert forall i :: 0 <= i < n ==> w'.actors[i] == w.actors[i];
    if SomeLive(w) {
      var i :| 0 <= i < n && IsLive(w.actors[i]);
      assert IsLive(w'.actors[i]);
    }
    if SomeTransfer(w) {
      var i :| 0 <= i < n && IsTransfer(w.actors[i]);
      assert IsTransfer(w'.actors[i]);
    }
  }

  lemma SpawnKeeps(w: World, w': World, i: nat)
    requires Inv(w) && i < |w.actors| && w.actors[i].Spawning? && ActorStep(w, w', i)
    ensures Inv(w') && HandleKept(w.handle, w'.handle)
  {
    var n := |w.actors|;
    assert IsLive(w.actors[i]) && IsTransfer(w.actors[i]);
    assert IsLive(w'.actors[n]) && IsTransfer(w'.actors[n]);
    forall j | 0 <= j < n
      ensures !IsTransfer(w'.actors[j])
    {
      assert j != i ==> w'.actors[j] == w.actors[j] && !(IsTransfer(w.actors[i]) && IsTransfer(w.actors[j]));
    }
    assert OneTransfer(w');
  }

  /** Which actors are transfers, after the section of an actor that was or becomes one. */
  lemma OthersNotTransfers(w: World, i: nat)
    requires OneTransfer(w) && i < |w.actors| && IsTransfer(w.actors[i])
    ensures forall j :: 0 <= j < |w.actors| && j != i ==> !IsTransfer(w.actors[j])
  {
    forall j | 0 <= j < |w.actors| && j != i
      ensures !IsTransfer(w.actors[j])
    {
      assert !(IsTransfer(w.actors[i]) && IsTransfer(w.actors[j]));
    }
  }

  /** A section of a caller that neither is nor becomes a transfer. */
  lemma CallerKeeps(w: World, w': World, i: nat)
    requires Inv(w) && i < |w.actors| && ActorStep(w, w', i)
    requires !IsTransfer(w.actors[i]) && !IsTransfer(w'.actors[i])
    ensures Inv(w') && HandleKept(w.handle, w'.handle)
  {
    var n := |w.actors|;
    assert forall j :: 0 <= j < n && j != i ==> w'.actors[j] == w.actors[j];
    if SomeLive(w) {
      var j :| 0 <= j < n && IsLive(w.actors[j]);
      assert IsLive(w'.actors[j]);
    }
    if SomeTransfer(w) {
      var j :| 0 <= j < n && IsTransfer(w.actors[j]);
      assert IsTransfer(w'.actors[j]);
    }
    assert HandleOk(w'.handle);
  }

  lemma ConfirmKeeps(w: World, w': World, i: nat)
    requires Inv(w) && i < |w.actors| && w.actors[i].Confirming? && ActorStep(w, w', i) && w'.actors[i].Spawning?
    ensures Inv(w') && HandleKept(w.handle, w'.handle)
  {
    var n := |w.actors|;
    assert forall j :: 0 <= j < n && j != i ==> w'.actors[j] == w.actors[j];
    assert !SomeTransfer(w);
    assert forall j :: 0 <= j < n ==> !IsTransfer(w.actors[j]);
    assert IsLive(w'.actors[i]) && IsTransfer(w'.actors[i]);
  }

  lemma TaskKeeps(w: World, w': World, i: nat)
    requires Inv(w) && i < |w.actors| && (w.actors[i].TaskRunning? || w.actors[i].TaskStopping?) && ActorStep(w, w', i)
    ensures Inv(w') && HandleKept(w.handle, w'.handle)
  {
    var n := |w.actors|;
    assert forall j :: 0 <= j < n && j != i ==> w'.actors[j] == w.actors[j];
    assert IsLive(w.actors[i]) && IsTransfer(w.actors[i]);
    OthersNotTransfers(w, i);
    assert IsTransfer(w'.actors[i]);
    if w'.actors[i] == TaskDone {
      assert w.handle.stage.Running?;
      assert forall j :: 0 <= j < n ==> !w.actors[j].CancelReturned?;
    } else {
      assert IsLive(w'.actors[i]);
    }
  }

  lemma StepKeeps(w: World, w': World)
    requires Inv(w) && Step(w, w')
    ensures Inv(w') && HandleKept(w.handle, w'.handle)
  {
    hide Inv, Section, HandleKept;
    if Arrives(w, w') {
      ArrivalKeeps(w, w');
    } else {
      var i: nat :| i < |w.actors| && ActorStep(w, w', i);
      ActorStepKeeps(w, w', i);
    }
  }

  lemma ActorStepKeeps(w: World, w': World, i: nat)
    requires Inv(w) && i < |w.actors| && ActorStep(w, w', i)
    ensures Inv(w') && HandleKept(w.handle, w'.handle)
  {
    hide Inv, HandleKept, Finalized, CancelAsked;
    match w.actors[i]
    case Spawning => SpawnKeeps(w, w', i);
    case TaskRunning => TaskKeeps(w, w', i);
    case TaskStopping => TaskKeeps(w, w', i);
    case Confirming =>
      if w'.actors[i].Spawning? { ConfirmKeeps(w, w', i); } else { CallerKeeps(w, w', i); }
    case _ => CallerKeeps(w, w', i);
  }

  lemma {:induction false} RunKeeps(run: seq<World>, n: nat)
    requires IsRun(run) && n < |run|
    ensures Inv(run[n])
  {
    hide Inv, Step;
    if n == 0 {
      NewWorldOk();
    } else {
      RunKeeps(run, n - 1);
      assert Step(run[n - 1], run[n - 1 + 1]);
      StepKeeps(run[n - 1], run[n]);
    }
  }

  lemma NewWorldOk()
    ensures Inv(NEW_WORLD)
  {
  }

  lemma {:induction false} RunHandleKept(run: seq<World>, m: nat, n: nat)
    requires IsRun(run) && m <= n < |run|
    ensures HandleKept(run[m].handle, run[n].handle)
  {
    hide Step;
    if m < n {
      RunHandleKept(run, m, n - 1);
      RunKeeps(run, n - 1);
      assert Step(run[n - 1], run[n - 1 + 1]);
      StepKeeps(run[n - 1], run[n]);
      RunKeeps(run, n);
    }
  }

  // ---- The session's promises, over every run

  /** However its callers race, at most one transfer is ever started. */
  lemma AtMostOneTransfer(run: seq<World>, n: nat, i: nat, j: nat)
    requires IsRun(run) && n < |run| && i < |run[n].actors| && j < |run[n].actors| && i != j
    ensures !(IsTransfer(run[n].actors[i]) && IsTransfer(run[n].actors[j]))
  {
    RunKeeps(run, n);
  }

  /** A session that is over stays as it ended, with the report it was given then. */
  lemma OverIsOver(run: seq<World>, m: nat, n: nat)
    requires IsRun(run) && m <= n < |run| && Terminal(run[m].handle.stage)
    ensures run[n].handle.stage == run[m].handle.stage
    ensures run[m].handle.report.Some? && run[n].handle.report == run[m].handle.report
  {
    RunKeeps(run, m);
    RunHandleKept(run, m, n);
  }

  /** There is a report exactly when the session is over, and it says how it ended. */
  lemma ReportExactlyWhenOver(run: seq<World>, n: nat)
    requires IsRun(run) && n < |run|
    ensures var h := run[n].handle;
            && (h.report.Some? <==> Terminal(h.stage))
            && (h.stage.Completed? <==> h.report.Some? && (h.report.value.status == OutcomeCompleted || h.report.value.status == OutcomeCompletedUnverified))
            && (h.stage.Cancelled? <==> h.report.Some? && h.report.value.status == OutcomeCancelled)
            && (h.stage.Failed? <==> h.report.Some? && h.report.value.status == OutcomeFailed)
            && (h.report.Some? ==> (h.report.value.begun <==> SomeTransfer(run[n])))
  {
    RunKeeps(run, n);
  }

  /** The report is written once: between two moments it changes only from none to the final one. */
  lemma ReportWrittenOnce(run: seq<World>, m: nat, n: nat)
    requires IsRun(run) && m <= n < |run|
    ensures run[n].handle.report == run[m].handle.report || run[m].handle.report.None?
  {
    RunKeeps(run, m);
    RunHandleKept(run, m, n);
  }

  /** A cancel asked for while the transfer runs is never forgotten. */
  lemma CancelNeverForgotten(run: seq<World>, m: nat, n: nat)
    requires IsRun(run) && m <= n < |run|
    requires run[m].handle.stage.Running? && run[m].handle.cancelRequested
    ensures run[n].handle.cancelRequested
  {
    RunKeeps(run, m);
    RunHandleKept(run, m, n);
  }

  /** A transfer that was under way is reported cancelled only if someone asked for that. */
  lemma CancelledWasAsked(run: seq<World>, n: nat)
    requires IsRun(run) && n < |run| && run[n].handle.stage.Cancelled? && SomeTransfer(run[n])
    ensures run[n].handle.cancelRequested
  {
    RunKeeps(run, n);
  }

  /** Whatever a cancel returns is the session's one report. */
  lemma CancelReturnsTheReport(run: seq<World>, n: nat, i: nat)
    requires IsRun(run) && n < |run| && i < |run[n].actors| && run[n].actors[i].CancelReturned?
    ensures run[n].handle.report == Some(run[n].actors[i].report)
  {
    RunKeeps(run, n);
  }
}

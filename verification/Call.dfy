/**
 The life of one call (internal/call/call.go): the mutex sections of Call as functions, and the
 interleavings of everything that may close it, run it or set its end reason.
 */
module Call {
  import opened Common

  datatype EndReason = NoReason | UserEnded | AgentEnded | Transfer | BackendError

  // ---- mutex sections --------------------------------------------------------------------

  /** The fields Call guards with its mutex. */
  datatype Fields = Fields(started: bool, closed: bool, reason: EndReason)

  predicate MayStart(f: Fields) {
    !f.closed && !f.started
  }

  function StartSection(f: Fields): Fields {
    if MayStart(f) then f.(started := true) else f
  }

  function CloseSection(f: Fields, reason: EndReason): Fields {
    if f.closed then f else SetReason(f, reason).(closed := true)
  }

  /** Write-once: a reason already set stays. */
  function SetReason(f: Fields, reason: EndReason): Fields {
    if reason != NoReason && f.reason == NoReason then f.(reason := reason) else f
  }

  // ---- threads ---------------------------------------------------------------------------

  /** What is left to do for the one thread that got past the closed check. */
  datatype Closer = Nobody | MustCancel(byRun: bool) | MustCloseRTP(byRun: bool) | MustFinish | CloserDone

  /** Position of the run goroutine; the unwind stages follow the order of its deferred calls. */
  datatype RunPc =
    | NotStarted
    | Dialing
    | Setting(reason: EndReason, next: RunPc)
    | Relaying
    | CheckingContext
    | CheckingReason
    | StoppingMedia
    | WaitingMedia
    | ClosingStream
    | ClosingCall
    | InClose
    | FinishingDone
    | Publishing
    | Ended

  /** A media goroutine; only receiveBackend ever sets a reason. */
  datatype Worker = NotSpawned | Working | SettingReason(reason: EndReason) | Exited

  datatype CallState = CallState(
    f: Fields,
    ctxCancelled: bool,
    closer: Closer,
    run: RunPc,
    recv: Worker,
    send: Worker,
    mediaCancelled: bool,
    runsSpawned: nat,
    doneCloses: nat,
    published: Option<EndReason>)

  const NEW := CallState(Fields(false, false, NoReason), false, Nobody, NotStarted, NotSpawned, NotSpawned,
                         false, 0, 0, None)

  /** How the select of the relay loop was left. */
  datatype Leave =
    | ContextDone
    | RtpEnded
    | StreamTyped(reason: EndReason)
    | StreamOther
    | MediaError
    | MediaEnded

  datatype Step =
    // callers outside the run goroutine
    | Start | Close(reason: EndReason)
    | Cancel | CloseRTP | FinishDone
    // the run goroutine
    | DialSucceeds | DialFails | StoreReason | LeaveRelay(how: Leave) | CheckContext | CheckReason
    | StopMedia | JoinMedia | CloseStream | CloseInRun | FinishDoneInRun | Publish
    // the media goroutines
    | RecvStops(reason: EndReason) | RecvStores | SendStops

  predicate Reportable(reason: EndReason) {
    reason.AgentEnded? || reason.Transfer? || reason.BackendError?
  }

  /** What the select may find ready; only receiveBackend ever returns an error. */
  predicate CanLeave(s: CallState, how: Leave) {
    match how
    case ContextDone => s.ctxCancelled
    case StreamTyped(reason) => Reportable(reason)
    case MediaError => s.recv.Exited?
    case MediaEnded => s.recv.Exited? || s.send.Exited?
    case _ => true
  }

  predicate Enabled(s: CallState, step: Step) {
    match step
    case Start => true
    case Close(reason) => reason.NoReason? || reason.UserEnded?
    case Cancel => s.closer.MustCancel?
    case CloseRTP => s.closer.MustCloseRTP?
    case FinishDone => s.closer.MustFinish?
    case DialSucceeds => s.run.Dialing?
    case DialFails => s.run.Dialing?
    case StoreReason => s.run.Setting?
    case LeaveRelay(how) => s.run.Relaying? && CanLeave(s, how)
    case CheckContext => s.run.CheckingContext?
    case CheckReason => s.run.CheckingReason?
    case StopMedia => s.run.StoppingMedia?
    case JoinMedia => s.run.WaitingMedia? && s.recv.Exited? && s.send.Exited?
    case CloseStream => s.run.ClosingStream?
    case CloseInRun => s.run.ClosingCall?
    case FinishDoneInRun => s.run.FinishingDone?
    case Publish => s.run.Publishing?
    case RecvStops(reason) => s.recv.Working? && (reason.NoReason? || Reportable(reason))
    case RecvStores => s.recv.SettingReason?
    case SendStops => s.send.Working?
  }

  function Do(s: CallState, step: Step): CallState
    requires Enabled(s, step)
  {
    match step
    case Start =>
      var spawn := MayStart(s.f);
      s.(f := StartSection(s.f), run := if spawn then Dialing else s.run,
         runsSpawned := s.runsSpawned + if spawn then 1 else 0)
    case Close(reason) =>
      s.(f := CloseSection(s.f, reason), closer := if s.f.closed then s.closer else MustCancel(false))
    case Cancel =>
      s.(ctxCancelled := s.ctxCancelled || s.f.started, closer := MustCloseRTP(s.closer.byRun))
    case CloseRTP =>
      if s.closer.byRun then s.(closer := CloserDone, run := FinishingDone)
      else if s.f.started then s.(closer := CloserDone)
      else s.(closer := MustFinish)
    case FinishDone => s.(closer := CloserDone, doneCloses := s.doneCloses + 1)
    case DialSucceeds => s.(run := Relaying, recv := Working, send := Working)
    case DialFails => s.(run := Setting(BackendError, ClosingCall))
    case StoreReason => s.(f := SetReason(s.f, s.run.reason), run := s.run.next)
    case LeaveRelay(how) =>
      s.(run := match how {
        case ContextDone => StoppingMedia
        case RtpEnded => StoppingMedia
        case MediaEnded => StoppingMedia
        case MediaError => CheckingContext
        case StreamOther => CheckingContext
        case StreamTyped(reason) => Setting(reason, CheckingContext)
      })
    case CheckContext => s.(run := if s.ctxCancelled then StoppingMedia else CheckingReason)
    case CheckReason =>
      s.(run := if s.f.reason == NoReason then Setting(BackendError, StoppingMedia) else StoppingMedia)
    case StopMedia => s.(run := WaitingMedia, mediaCancelled := true)
    case JoinMedia => s.(run := ClosingStream)
    case CloseStream => s.(run := ClosingCall)
    case CloseInRun =>
      s.(f := CloseSection(s.f, NoReason), closer := if s.f.closed then s.closer else MustCancel(true),
         run := if s.f.closed then FinishingDone else InClose)
    case FinishDoneInRun => s.(run := Publishing, doneCloses := s.doneCloses + 1)
    case Publish => s.(run := Ended, published := Some(s.f.reason))
    case RecvStops(reason) => s.(recv := if reason == NoReason then Exited else SettingReason(reason))
    case RecvStores => s.(f := SetReason(s.f, s.recv.reason), recv := Exited)
    case SendStops => s.(send := Exited)
  }

  // ---- the invariant ---------------------------------------------------------------------

  /** run has passed, or will not reach, the stretch in which it may still set a reason. */
  predicate Silent(pc: RunPc) {
    pc.FinishingDone? || pc.Publishing? || pc.Ended?
  }

  predicate BeforeMedia(pc: RunPc) {
    pc.NotStarted? || pc.Dialing? || pc == Setting(BackendError, ClosingCall)
  }

  predicate InRelay(pc: RunPc) {
    || pc.Relaying? || pc.CheckingContext? || pc.CheckingReason? || pc.StoppingMedia? || pc.WaitingMedia?
    || (pc.Setting? && pc.next.CheckingContext?) || pc == Setting(BackendError, StoppingMedia)
  }

  predicate AfterMedia(pc: RunPc) {
    pc.ClosingStream? || pc.ClosingCall? || pc.InClose? || Silent(pc)
  }

  predicate MediaOver(s: CallState) {
    (s.recv.NotSpawned? || s.recv.Exited?) && (s.send.NotSpawned? || s.send.Exited?)
  }

  /** run is spawned with started, and waits for the media goroutines only after cancelling them. */
  ghost predicate SpawnInv(s: CallState) {
    && s.runsSpawned == (if s.f.started then 1 else 0)
    && (s.run.NotStarted? <==> !s.f.started)
    && (s.run.WaitingMedia? ==> s.mediaCancelled)
  }

  /** The media goroutines live exactly between the dial and the join. */
  ghost predicate MediaInv(s: CallState) {
    && (BeforeMedia(s.run) || InRelay(s.run) || AfterMedia(s.run))
    && (BeforeMedia(s.run) ==> s.recv.NotSpawned? && s.send.NotSpawned?)
    && !s.send.SettingReason?
    && (InRelay(s.run) ==> !s.recv.NotSpawned? && !s.send.NotSpawned?)
    && (AfterMedia(s.run) ==> MediaOver(s))
  }

  ghost predicate ReportInv(s: CallState) {
    && (s.run.Setting? ==> Reportable(s.run.reason))
    && (s.recv.SettingReason? ==> Reportable(s.recv.reason))
    && (s.published.Some? <==> s.run.Ended?)
    && (s.published.Some? ==> s.published.value == s.f.reason)
  }

  /** At most one thread is closing the call. */
  ghost predicate CloserInv(s: CallState) {
    && (s.closer.Nobody? <==> !s.f.closed)
    && (s.closer.MustFinish? ==> !s.f.started)
    && ((s.closer.MustCloseRTP? || s.closer.CloserDone?) && s.f.started ==> s.ctxCancelled)
    && (s.run.InClose? <==> (s.closer.MustCancel? || s.closer.MustCloseRTP?) && s.closer.byRun)
  }

  /** The two paths to the close of Done exclude each other. */
  ghost predicate DoneInv(s: CallState) {
    && (Silent(s.run) ==> s.f.closed)
    && s.doneCloses ==
         (if s.f.started then (if s.run.Publishing? || s.run.Ended? then 1 else 0)
          else if s.closer.CloserDone? then 1 else 0)
  }

  ghost predicate Inv(s: CallState) {
    SpawnInv(s) && MediaInv(s) && ReportInv(s) && CloserInv(s) && DoneInv(s)
  }

  lemma NewInv()
    ensures Inv(NEW)
  {
  }

  lemma StepKeepsSpawnInv(s: CallState, step: Step)
    requires Inv(s) && Enabled(s, step)
    ensures SpawnInv(Do(s, step))
  {
    hide ReportInv, DoneInv;
  }

  lemma StepKeepsMediaInv(s: CallState, step: Step)
    requires Inv(s) && Enabled(s, step)
    ensures MediaInv(Do(s, step))
  {
    hide DoneInv, SetReason;
  }

  lemma StepKeepsReportInv(s: CallState, step: Step)
    requires Inv(s) && Enabled(s, step)
    ensures ReportInv(Do(s, step))
  {
  }

  lemma StepKeepsCloserInv(s: CallState, step: Step)
    requires Inv(s) && Enabled(s, step)
    ensures CloserInv(Do(s, step))
  {
    hide ReportInv, DoneInv;
  }

  lemma StepKeepsDoneInv(s: CallState, step: Step)
    requires Inv(s) && Enabled(s, step)
    ensures DoneInv(Do(s, step))
  {
    hide ReportInv;
  }

  lemma StepKeepsInv(s: CallState, step: Step)
    requires Inv(s) && Enabled(s, step)
    ensures Inv(Do(s, step))
  {
    StepKeepsSpawnInv(s, step);
    StepKeepsMediaInv(s, step);
    StepKeepsReportInv(s, step);
    StepKeepsCloserInv(s, step);
    StepKeepsDoneInv(s, step);
    hide SpawnInv, MediaInv, ReportInv, CloserInv, DoneInv, Do, Enabled;
  }

  // ---- consequences ----------------------------------------------------------------------

  /** Done is closed. */
  predicate IsDone(s: CallState) {
    s.doneCloses > 0
  }

  /** The reason is write-once in every state, and fixed for good once Done is closed. */
  lemma ReasonWriteOnce(s: CallState, step: Step)
    requires Inv(s) && Enabled(s, step)
    ensures s.f.reason != NoReason ==> Do(s, step).f.reason == s.f.reason
    ensures IsDone(s) ==> Do(s, step).f.reason == s.f.reason && Do(s, step).doneCloses == s.doneCloses
    ensures s.f.closed && !s.f.started ==> Do(s, step).f.closed && !Do(s, step).f.started
    ensures s.published.Some? ==> Do(s, step).published == s.published
  {
  }

  /** The state after an interleaving, or None if it is not one. */
  ghost function Exec(steps: seq<Step>): Option<CallState> {
    if steps == [] then Some(NEW)
    else
      match Exec(steps[..|steps| - 1]) {
        case None => None
        case Some(s) => if Enabled(s, steps[|steps| - 1]) then Some(Do(s, steps[|steps| - 1])) else None
      }
  }

  lemma {:induction false} ExecInv(steps: seq<Step>)
    ensures Exec(steps).Some? ==> Inv(Exec(steps).value)
  {
    NewInv();
    hide Inv, Do, Enabled;
    if steps != [] && Exec(steps).Some? {
      ExecInv(steps[..|steps| - 1]);
      StepKeepsInv(Exec(steps[..|steps| - 1]).value, steps[|steps| - 1]);
    }
  }

  lemma ExecSnoc(steps: seq<Step>, step: Step)
    requires Exec(steps).Some? && Enabled(Exec(steps).value, step)
    ensures Exec(steps + [step]) == Some(Do(Exec(steps).value, step))
  {
    assert (steps + [step])[..|steps|] == steps;
    hide Do, Enabled;
  }

  // ---- what the reason says --------------------------------------------------------------

  /**
   The reason for its end that a step gives a call: a first close, a failed dial, a typed end of the
   backend stream, a reason told by receiveBackend, or a stream end or media error that comes while
   the context is alive and no reason is known.
   */
  function Cause(s: CallState, step: Step): EndReason {
    match step
    case Close(reason) => if s.f.closed then NoReason else reason
    case DialFails => BackendError
    case LeaveRelay(how) => if how.StreamTyped? then how.reason else NoReason
    case CheckContext => if s.ctxCancelled || s.f.reason != NoReason then NoReason else BackendError
    case RecvStops(reason) => reason
    case _ => NoReason
  }

  /** All reasons the steps of an interleaving give. */
  ghost function Causes(steps: seq<Step>): set<EndReason> {
    if steps == [] then {}
    else
      var n := |steps| - 1;
      if Exec(steps[..n]).None? then Causes(steps[..n])
      else Given(Causes(steps[..n]), Cause(Exec(steps[..n]).value, steps[n]))
  }

  function Given(before: set<EndReason>, reason: EndReason): set<EndReason> {
    if reason == NoReason then before else before + {reason}
  }

  /** Every reason stored or on its way was given, and once one was given, one is; only callers give any early. */
  ghost predicate Traced(s: CallState, given: set<EndReason>) {
    && NoReason !in given && (!s.f.started ==> given <= {UserEnded})
    && (s.f.reason != NoReason ==> s.f.reason in given)
    && (s.run.Setting? ==> s.run.reason in given)
    && (s.run.CheckingReason? && s.f.reason == NoReason ==> BackendError in given)
    && (s.recv.SettingReason? ==> s.recv.reason in given)
    && (s.f.reason == NoReason && !s.run.Setting? && !s.run.CheckingReason? && !s.recv.SettingReason? ==>
          given == {})
  }

  lemma StepKeepsTraced(s: CallState, given: set<EndReason>, step: Step)
    requires Inv(s) && Enabled(s, step) && Traced(s, given)
    ensures Traced(Do(s, step), Given(given, Cause(s, step)))
  {
    assert s.run.Setting? ==> !s.run.next.Setting?;
    hide SpawnInv, CloserInv, DoneInv;
  }

  lemma {:induction false} ExecTraced(steps: seq<Step>)
    ensures Exec(steps).Some? ==> Traced(Exec(steps).value, Causes(steps))
    decreases |steps|
  {
    if steps == [] {
    } else if Exec(steps).Some? {
      var n := |steps| - 1;
      ExecTraced(steps[..n]);
      ExecInv(steps[..n]);
      hide Inv, Traced, Do, Enabled, Cause;
      StepKeepsTraced(Exec(steps[..n]).value, Causes(steps[..n]), steps[n]);
    }
  }

  /** No reason exactly if none was given, and otherwise one of those given. */
  predicate Explains(given: set<EndReason>, reason: EndReason) {
    (reason == NoReason <==> given == {}) && (reason != NoReason ==> reason in given)
  }

  /** What was given stays given. */
  lemma {:induction false} CausesGrow(some: seq<Step>, steps: seq<Step>)
    requires some <= steps
    ensures Causes(some) <= Causes(steps)
    decreases |steps|
  {
    if |some| == |steps| {
      assert some == steps;
    } else {
      CausesGrow(some, steps[..|steps| - 1]);
    }
  }

  lemma CausesSnoc(steps: seq<Step>, step: Step)
    requires Exec(steps).Some?
    ensures Causes(steps + [step]) == Given(Causes(steps), Cause(Exec(steps).value, step))
  {
    assert (steps + [step])[..|steps|] == steps;
    hide Exec, Cause;
  }

  predicate OfRun(step: Step) {
    || step.DialSucceeds? || step.DialFails? || step.StoreReason? || step.LeaveRelay? || step.CheckContext?
    || step.CheckReason? || step.StopMedia? || step.JoinMedia? || step.CloseStream? || step.CloseInRun?
    || step.FinishDoneInRun? || step.Publish?
  }

  /** The latest step of the run goroutine. */
  function LastOfRun(steps: seq<Step>): Option<Step> {
    if steps == [] then None
    else if OfRun(steps[|steps| - 1]) then Some(steps[|steps| - 1])
    else LastOfRun(steps[..|steps| - 1])
  }

  /** The relay was left because the backend stream ended untyped or the media failed. */
  predicate LeftOnError(last: Option<Step>) {
    last == Some(LeaveRelay(StreamOther)) || last == Some(LeaveRelay(MediaError))
  }

  /**
   The reason a step gives, told from what happens and not from where run stands: an error leave gives
   one with whatever run does next, if the context is alive by then and no reason is known.
   */
  function Told(s: CallState, last: Option<Step>, step: Step): EndReason {
    match step
    case Close(reason) => if s.f.closed then NoReason else reason
    case DialFails => BackendError
    case LeaveRelay(StreamTyped(reason)) => reason
    case RecvStops(reason) => reason
    case _ =>
      if OfRun(step) && LeftOnError(last) && !s.ctxCancelled && s.f.reason == NoReason then BackendError
      else NoReason
  }

  /** All reasons told over an interleaving. */
  ghost function Reasons(steps: seq<Step>): set<EndReason> {
    if steps == [] then {}
    else
      var n := |steps| - 1;
      if Exec(steps[..n]).None? then Reasons(steps[..n])
      else Given(Reasons(steps[..n]), Told(Exec(steps[..n]).value, LastOfRun(steps[..n]), steps[n]))
  }

  /** run checks the context exactly after an error leave, or once a typed reason is stored. */
  ghost predicate ChecksAfterError(s: CallState, last: Option<Step>) {
    && (LeftOnError(last) ==> s.run.CheckingContext?)
    && (s.run.CheckingContext? ==> LeftOnError(last) || s.f.reason != NoReason)
  }

  lemma StepChecksAfterError(s: CallState, last: Option<Step>, step: Step)
    requires Inv(s) && Enabled(s, step) && ChecksAfterError(s, last)
    ensures ChecksAfterError(Do(s, step), if OfRun(step) then Some(step) else last)
    ensures Told(s, last, step) == Cause(s, step)
  {
    hide DoneInv;
  }

  lemma {:induction false} CausesAreReasons(steps: seq<Step>)
    ensures Exec(steps).Some? ==>
      Causes(steps) == Reasons(steps) && ChecksAfterError(Exec(steps).value, LastOfRun(steps))
    decreases |steps|
  {
    if steps == [] {
    } else if Exec(steps).Some? {
      var n := |steps| - 1;
      CausesAreReasons(steps[..n]);
      ExecInv(steps[..n]);
      hide Inv, ChecksAfterError, Do, Enabled, Cause, Told, OfRun;
      StepChecksAfterError(Exec(steps[..n]).value, LastOfRun(steps[..n]), steps[n]);
    }
  }

  /**
   Once Done is closed, the call has a reason if and only if some step gave one, and the reason it
   has is one that was given.
   */
  lemma ReasonHasCause(steps: seq<Step>)
    requires Exec(steps).Some? && IsDone(Exec(steps).value)
    ensures Explains(Causes(steps), Exec(steps).value.f.reason)
    ensures Causes(steps) == Reasons(steps)
  {
    ExecInv(steps);
    ExecTraced(steps);
    CausesAreReasons(steps);
    hide Exec, Causes, Reasons;
  }

  /** The kinds of steps that can give a reason at all. */
  predicate CanGive(step: Step) {
    match step
    case Close(reason) => reason != NoReason
    case DialFails => true
    case LeaveRelay(how) => how.StreamTyped? || how.StreamOther? || how.MediaError?
    case RecvStops(reason) => reason != NoReason
    case _ => false
  }

  lemma {:induction false} NothingTold(steps: seq<Step>)
    requires forall step :: step in steps ==> !CanGive(step)
    ensures Reasons(steps) == {} && !LeftOnError(LastOfRun(steps))
    decreases |steps|
  {
    if steps == [] {
    } else {
      var n := |steps| - 1;
      assert forall step :: step in steps[..n] ==> step in steps;
      NothingTold(steps[..n]);
      assert steps[n] in steps;
    }
  }

  /**
   A call that nobody hangs up on with a reason, whose dial does not fail, and whose relay is left on
   an RTP end, a quiet media end or a cancelled context has no reason, then or later: it is logged as
   ended by the user and no BYE goes out.
   */
  lemma QuietEnding(steps: seq<Step>)
    requires Exec(steps).Some? && forall step :: step in steps ==> !CanGive(step)
    ensures var s := Exec(steps).value;
      && s.f.reason == NoReason
      && (s.published.Some? ==> s.published == Some(NoReason) && HangupReason(NoReason) == "USER_ENDED")
  {
    NothingTold(steps);
    CausesAreReasons(steps);
    ExecTraced(steps);
    ExecInv(steps);
    hide Exec, Causes, Reasons;
  }

  /** An untyped stream end or a media error gives a reason if the context is alive when run goes on. */
  lemma ErrorEndIsGiven(steps: seq<Step>, j: nat)
    requires Exec(steps).Some? && j < |steps| && OfRun(steps[j]) && LeftOnError(LastOfRun(steps[..j]))
    ensures Exec(steps[..j]).Some?
    ensures !Exec(steps[..j]).value.ctxCancelled && IsDone(Exec(steps).value) ==>
      Exec(steps).value.f.reason != NoReason
  {
    var late := steps[..j + 1];
    assert late[..j] == steps[..j] && late[j] == steps[j];
    hide Exec, Do, Inv, LastOfRun, Reasons, Settled, ChecksAfterError, Causes;
    ReasonAgreement(steps, j);
    ReasonAgreement(steps, j + 1);
    CausesAreReasons(late);
    CausesGrow(late, steps);
    ErrorEndTold(late);
    if IsDone(Exec(steps).value) {
      ReasonHasCause(steps);
    }
  }

  lemma ErrorEndTold(steps: seq<Step>)
    requires Exec(steps).Some? && steps != [] && OfRun(steps[|steps| - 1])
    requires LeftOnError(LastOfRun(steps[..|steps| - 1]))
    ensures Exec(steps[..|steps| - 1]).Some?
    ensures var s := Exec(steps[..|steps| - 1]).value;
      !s.ctxCancelled && s.f.reason == NoReason ==> BackendError in Reasons(steps)
  {
    var n := |steps| - 1;
    hide *;
    ExecLast(steps);
    CausesAreReasons(steps[..n]);
    ReasonsUnfold(steps);
    ToldAfterError(Exec(steps[..n]).value, LastOfRun(steps[..n]), steps[n], Reasons(steps[..n]));
  }

  lemma ToldAfterError(s: CallState, last: Option<Step>, step: Step, before: set<EndReason>)
    requires ChecksAfterError(s, last) && LeftOnError(last) && OfRun(step) && Enabled(s, step)
    ensures !s.ctxCancelled && s.f.reason == NoReason ==> BackendError in Given(before, Told(s, last, step))
  {
  }

  lemma ExecLast(steps: seq<Step>)
    requires Exec(steps).Some? && steps != []
    ensures Exec(steps[..|steps| - 1]).Some? && Enabled(Exec(steps[..|steps| - 1]).value, steps[|steps| - 1])
    ensures Exec(steps).value == Do(Exec(steps[..|steps| - 1]).value, steps[|steps| - 1])
  {
    hide Do, Enabled;
  }

  lemma ReasonsUnfold(steps: seq<Step>)
    requires steps != [] && Exec(steps[..|steps| - 1]).Some?
    ensures var n := |steps| - 1;
      Reasons(steps) == Given(Reasons(steps[..n]), Told(Exec(steps[..n]).value, LastOfRun(steps[..n]), steps[n]))
  {
    hide Exec, Told, LastOfRun, Given;
  }

  // ---- what comes before what ------------------------------------------------------------

  /** A media goroutine has returned, or is storing its reason and about to. */
  predicate Stopped(w: Worker) {
    w.SettingReason? || w.Exited?
  }

  /** The context is cancelled by a closer, and media goroutines return by their own steps. */
  ghost predicate Preceded(s: CallState, steps: seq<Step>) {
    && (s.ctxCancelled ==> Cancel in steps)
    && (s.mediaCancelled ==> StopMedia in steps)
    && (s.f.started ==> Start in steps)
    && (s.f.closed ==> CloseInRun in steps || exists reason :: Close(reason) in steps)
    && (!s.recv.NotSpawned? ==> DialSucceeds in steps)
    && (Stopped(s.recv) ==> exists reason :: RecvStops(reason) in steps)
    && (Stopped(s.send) ==> SendStops in steps)
  }

  lemma StepKeepsPreceded(s: CallState, steps: seq<Step>, step: Step)
    requires Inv(s) && Enabled(s, step) && Preceded(s, steps)
    ensures Preceded(Do(s, step), steps + [step])
  {
    assert forall x :: x in steps + [step] <==> x in steps || x == step;
    if step.RecvStops? {
      assert RecvStops(step.reason) in steps + [step];
    } else if step.Close? {
      assert Close(step.reason) in steps + [step];
    }
    hide SpawnInv, ReportInv, CloserInv, DoneInv, SetReason;
  }

  lemma {:induction false} ExecPreceded(steps: seq<Step>)
    ensures Exec(steps).Some? ==> Preceded(Exec(steps).value, steps)
    decreases |steps|
  {
    if steps == [] {
    } else if Exec(steps).Some? {
      var n := |steps| - 1;
      ExecPreceded(steps[..n]);
      ExecInv(steps[..n]);
      SplitLast([], steps);
      hide Inv, Preceded, Do, Enabled;
      StepKeepsPreceded(Exec(steps[..n]).value, steps[..n], steps[n]);
    }
  }

  /**
   No step comes without what it waits for: the relay is left on a cancelled context only after a
   cancel, which only a close brings, on a media end or error only after a media goroutine has
   stopped, and run goes past the join only after both have.
   */
  lemma NothingComesEarly(steps: seq<Step>, step: Step)
    requires Exec(steps).Some? && Enabled(Exec(steps).value, step)
    ensures step == LeaveRelay(ContextDone) ==> Cancel in steps
    ensures step == Cancel ==> CloseInRun in steps || exists reason :: Close(reason) in steps
    ensures step == LeaveRelay(MediaError) || step == JoinMedia ==> exists reason :: RecvStops(reason) in steps
    ensures step == LeaveRelay(MediaEnded) ==>
      SendStops in steps || exists reason :: RecvStops(reason) in steps
    ensures step == JoinMedia ==> SendStops in steps && StopMedia in steps
  {
    ExecPreceded(steps);
    ExecInv(steps);
    hide Exec;
  }

  // ---- agreement -------------------------------------------------------------------------

  /** What holds between an earlier and a later state of one interleaving. */
  ghost predicate Settled(early: CallState, late: CallState) {
    && late.runsSpawned <= 1 && late.doneCloses <= 1
    && (early.f.reason != NoReason ==> late.f.reason == early.f.reason)
    && (IsDone(early) ==> IsDone(late) && late.f.reason == early.f.reason)
    && (early.f.closed && !early.f.started ==> late.f.closed && !late.f.started && late.runsSpawned == 0)
    && (IsDone(early) && late.published.Some? ==> late.published.value == early.f.reason)
  }

  lemma SettledStep(early: CallState, late: CallState, step: Step)
    requires Inv(late) && Enabled(late, step) && Settled(early, late)
    ensures Settled(early, Do(late, step))
  {
    StepKeepsInv(late, step);
    ReasonWriteOnce(late, step);
    hide Do, Enabled;
  }

  /**
   Over every interleaving: run is spawned at most once and never after a close that came first,
   Done is closed at most once, the reason never changes once set or once Done is closed, and the
   reason that is logged is the one anyone read after Done, given by a step if any gave one.
   */
  lemma {:induction false} ReasonAgreement(steps: seq<Step>, i: nat)
    requires i <= |steps| && Exec(steps).Some?
    ensures Exec(steps[..i]).Some? && Settled(Exec(steps[..i]).value, Exec(steps).value)
    ensures Exec(steps).value.published.Some? ==> Explains(Causes(steps), Exec(steps).value.published.value)
    decreases |steps|
  {
    var n := |steps| - 1;
    ExecInv(steps);
    ExecTraced(steps);
    if i == |steps| {
      assert steps[..i] == steps;
      hide Exec;
    } else {
      ReasonAgreement(steps[..n], i);
      assert steps[..n][..i] == steps[..i];
      ExecInv(steps[..n]);
      hide Inv, Settled, Do, Enabled;
      SettledStep(Exec(steps[..i]).value, Exec(steps[..n]).value, steps[n]);
    }
  }

  // ---- teardown --------------------------------------------------------------------------

  function WorkerRank(w: Worker): nat {
    match w
    case NotSpawned => 3
    case Working => 2
    case SettingReason(_) => 1
    case Exited => 0
  }

  function CloserRank(c: Closer): nat {
    match c
    case Nobody => 4
    case MustCancel(_) => 3
    case MustCloseRTP(_) => 2
    case MustFinish => 1
    case CloserDone => 0
  }

  function RunRank(pc: RunPc): nat {
    match pc
    case NotStarted => 15
    case Dialing => 14
    case Relaying => 13
    case CheckingContext => 11
    case CheckingReason => 10
    case StoppingMedia => 8
    case WaitingMedia => 7
    case ClosingStream => 6
    case ClosingCall => 5
    case InClose => 4
    case FinishingDone => 2
    case Publishing => 1
    case Ended => 0
    case Setting(_, next) => RunRank(next) + 1
  }

  function Rank(s: CallState): nat {
    RunRank(s.run) + WorkerRank(s.recv) + WorkerRank(s.send) + CloserRank(s.closer)
  }

  /** A step is either a caller arriving too late or real progress: the life of a call is finite. */
  lemma StepsRunOut(s: CallState, step: Step)
    requires Inv(s) && Enabled(s, step)
    ensures Do(s, step) == s || Rank(Do(s, step)) < Rank(s)
    ensures Do(s, step) == s ==> step.Start? || step.Close?
  {
    if step.Start? || step.Close? || step.Cancel? || step.CloseRTP? || step.FinishDone? {
      CallerRank(s, step);
    } else {
      ThreadRank(s, step);
    }
    hide Inv, Do, Enabled, Rank;
  }

  lemma CallerRank(s: CallState, step: Step)
    requires Inv(s) && Enabled(s, step)
    requires step.Start? || step.Close? || step.Cancel? || step.CloseRTP? || step.FinishDone?
    ensures Rank(Do(s, step)) < Rank(s) || (Do(s, step) == s && (step.Start? || step.Close?))
  {
    hide ReportInv;
  }

  lemma ThreadRank(s: CallState, step: Step)
    requires Inv(s) && Enabled(s, step)
    requires !(step.Start? || step.Close? || step.Cancel? || step.CloseRTP? || step.FinishDone?)
    ensures Rank(Do(s, step)) < Rank(s)
  {
    hide ReportInv, SetReason;
  }

  /** Steps of an interleaving that changed anything. */
  ghost function Effective(steps: seq<Step>): nat {
    if steps == [] then 0
    else
      Effective(steps[..|steps| - 1]) + if Exec(steps) == Exec(steps[..|steps| - 1]) then 0 else 1
  }

  /** No interleaving, however many callers arrive, holds more than 25 lifecycle transitions. */
  lemma {:induction false} BoundedLife(steps: seq<Step>)
    requires Exec(steps).Some?
    ensures Effective(steps) + Rank(Exec(steps).value) <= 25
    decreases |steps|
  {
    if steps == [] {
      assert Rank(NEW) == 25;
    } else {
      var before, last := steps[..|steps| - 1], steps[|steps| - 1];
      BoundedLife(before);
      ExecInv(before);
      StepsRunOut(Exec(before).value, last);
      hide Inv, Do, Enabled, Rank;
    }
  }

  /** The context of the media goroutines is derived from that of the call. */
  predicate MediaContextDone(s: CallState) {
    s.ctxCancelled || s.mediaCancelled
  }

  /**
   A step some thread takes by itself, with nothing more arriving from the caller, the backend or
   the network: blocking calls return on their own only once their context is cancelled, and run
   notices a media goroutine that has returned.
   */
  predicate Forced(s: CallState, step: Step) {
    && Enabled(s, step)
    && match step {
      case Start => false
      case Close(_) => false
      case DialSucceeds => false
      case DialFails => s.ctxCancelled
      case LeaveRelay(how) => how.ContextDone? || how.MediaEnded?
      case RecvStops(reason) => reason.NoReason? && MediaContextDone(s)
      case SendStops => MediaContextDone(s)
      case _ => true
    }
  }

  /** The next step on the way to Done, in the order the code waits for things. */
  function Pending(s: CallState): Option<Step> {
    if s.closer.MustCancel? then Some(Cancel)
    else if s.closer.MustCloseRTP? then Some(CloseRTP)
    else if s.closer.MustFinish? then Some(FinishDone)
    else match s.run {
      case NotStarted => None
      case Dialing => Some(DialFails)
      case Setting(_, _) => Some(StoreReason)
      case Relaying =>
        if s.ctxCancelled then Some(LeaveRelay(ContextDone))
        else if s.recv.SettingReason? then Some(RecvStores)
        else Some(LeaveRelay(MediaEnded))
      case CheckingContext => Some(CheckContext)
      case CheckingReason => Some(CheckReason)
      case StoppingMedia => Some(StopMedia)
      case WaitingMedia =>
        if s.recv.SettingReason? then Some(RecvStores)
        else if s.recv.Working? then Some(RecvStops(NoReason))
        else if s.send.Working? then Some(SendStops)
        else Some(JoinMedia)
      case ClosingStream => Some(CloseStream)
      case ClosingCall => Some(CloseInRun)
      case InClose => None
      case FinishingDone => Some(FinishDoneInRun)
      case Publishing => Some(Publish)
      case Ended => None
    }
  }

  /** The call was closed, a media goroutine is on its way out, or run has left the relay for good. */
  predicate Ending(s: CallState) {
    || s.f.closed
    || !(s.run.NotStarted? || s.run.Dialing? || s.run.Relaying?)
    || (s.run.Relaying? && !(s.recv.Working? && s.send.Working?))
  }

  /** Done is closed, once, and a call that ran has published its final reason. */
  predicate Complete(s: CallState) {
    s.doneCloses == 1 && (s.f.started ==> s.published == Some(s.f.reason))
  }

  /** Started and closed are for good, and a start attempt leaves the call one or the other. */
  lemma FieldsGrow(s: CallState, step: Step)
    requires Inv(s) && Enabled(s, step)
    ensures s.f.started ==> Do(s, step).f.started
    ensures s.f.closed ==> Do(s, step).f.closed
    ensures step.Start? ==> Do(s, step).f.started || Do(s, step).f.closed
    ensures step.Close? ==> Do(s, step).f.closed
  {
    hide ReportInv;
  }

  /** Once a call is ending it never stops ending. */
  lemma EndingStays(s: CallState, step: Step)
    requires Inv(s) && Enabled(s, step) && Ending(s)
    ensures Ending(Do(s, step))
  {
    hide ReportInv;
  }

  /**
   Whether it was closed or ended by itself, an ending call is never stuck short of Done: as long
   as it is not complete some thread can go on without help. That the cancel of the media context
   precedes the wait for the media goroutines is what makes the wait end.
   */
  lemma TeardownCompletes(s: CallState)
    requires Inv(s) && Ending(s)
    ensures Complete(s) || exists step :: Forced(s, step)
    ensures (forall step :: !Forced(s, step)) ==> Complete(s)
  {
    if Pending(s).Some? {
      assert Forced(s, Pending(s).value);
    }
  }

  lemma CauseEnds(s: CallState, step: Step)
    requires Inv(s) && Enabled(s, step) && Cause(s, step) != NoReason
    ensures Ending(Do(s, step))
  {
    hide ReportInv, CloserInv, DoneInv;
  }

  /** Whatever gives a call a reason for its end brings it to its end. */
  lemma {:induction false} GivenEnds(steps: seq<Step>)
    requires Exec(steps).Some?
    ensures Causes(steps) != {} ==> Ending(Exec(steps).value)
    decreases |steps|
  {
    if steps == [] {
    } else {
      var n := |steps| - 1;
      var before := Exec(steps[..n]).value;
      GivenEnds(steps[..n]);
      ExecInv(steps[..n]);
      hide Inv, Ending, Do, Enabled, Cause;
      if Cause(before, steps[n]) != NoReason {
        CauseEnds(before, steps[n]);
      } else if Causes(steps[..n]) != {} {
        EndingStays(before, steps[n]);
      }
    }
  }

  /** steps, each taken by some thread by itself, lead from s to r. */
  ghost predicate ForcedRun(s: CallState, steps: seq<Step>, r: CallState)
    decreases |steps|
  {
    if steps == [] then s == r
    else Forced(s, steps[0]) && ForcedRun(Do(s, steps[0]), steps[1..], r)
  }

  /**
   An ending call comes to its end whatever order its threads go in: no run of such steps is longer
   than the rank, and one that cannot go on has completed the call.
   */
  lemma {:induction false} TeardownEnds(s: CallState, steps: seq<Step>, r: CallState)
    requires Inv(s) && Ending(s)
    ensures ForcedRun(s, steps, r) ==>
      && Inv(r) && Ending(r) && |steps| + Rank(r) <= Rank(s)
      && ((forall step :: !Forced(r, step)) ==> Complete(r))
    decreases |steps|
  {
    if !ForcedRun(s, steps, r) {
    } else if steps == [] {
      TeardownCompletes(s);
      hide Inv, Ending, Rank, Complete, Forced;
    } else {
      ForcedStep(s, steps[0]);
      hide Inv, Ending, Rank, Complete, Forced, Do, Enabled;
      TeardownEnds(Do(s, steps[0]), steps[1..], r);
    }
  }

  lemma ForcedStep(s: CallState, step: Step)
    requires Inv(s) && Ending(s) && Forced(s, step)
    ensures Inv(Do(s, step)) && Ending(Do(s, step)) && Rank(Do(s, step)) < Rank(s)
  {
    StepKeepsInv(s, step);
    EndingStays(s, step);
    StepsRunOut(s, step);
    hide Inv, Ending, Rank, Do;
  }

  /** Such a run to completion always exists. */
  lemma {:induction false} TeardownRuns(s: CallState) returns (steps: seq<Step>, r: CallState)
    requires Inv(s) && Ending(s)
    ensures ForcedRun(s, steps, r) && Complete(r)
    decreases Rank(s)
  {
    TeardownCompletes(s);
    hide Inv, Ending, Rank, Complete, Forced, Do, Enabled;
    if step :| Forced(s, step) {
      ForcedStep(s, step);
      var rest;
      rest, r := TeardownRuns(Do(s, step));
      steps := [step] + rest;
      assert steps[1..] == rest;
    } else {
      steps, r := [], s;
    }
  }

  /** A wait for media goroutines that nobody has cancelled would be a deadlock. */
  lemma WaitNeedsCancel(s: CallState)
    requires s.run.WaitingMedia? && s.recv.Working? && s.send.Working? && !MediaContextDone(s)
    requires s.closer.Nobody? || s.closer.CloserDone?
    ensures forall step :: !Forced(s, step)
  {
  }

  // ---- every ending happens --------------------------------------------------------------

  /** The reason of a call that nothing but its relay loop ends. */
  function EndingOf(how: Leave): EndReason {
    match how
    case StreamTyped(reason) => reason
    case StreamOther => BackendError
    case MediaError => BackendError
    case _ => NoReason
  }

  lemma Then(steps: seq<Step>, s: CallState, step: Step) returns (more: seq<Step>, after: CallState)
    requires Exec(steps) == Some(s) && Enabled(s, step)
    ensures more == steps + [step] && after == Do(s, step) && Exec(more) == Some(after)
  {
    more, after := steps + [step], Do(s, step);
    ExecSnoc(steps, step);
  }

  /** A forced run past the dial continues an interleaving, and gives no reason. */
  lemma {:induction false} ForcedRunExtends(steps: seq<Step>, s: CallState, rest: seq<Step>, r: CallState)
    requires Exec(steps) == Some(s) && s.f.started && !s.run.Dialing?
    ensures ForcedRun(s, rest, r) ==>
      Exec(steps + rest) == Some(r) && r.f.started && forall step :: step in rest ==> !CanGive(step)
    decreases |rest|
  {
    if rest == [] {
      assert steps + rest == steps;
    } else if ForcedRun(s, rest, r) {
      var more, after := Then(steps, s, rest[0]);
      assert steps + rest == more + rest[1..];
      ExecInv(steps);
      PastDial(s, rest[0]);
      hide Inv, Do, Enabled, Forced, CanGive, Exec;
      ForcedRunExtends(more, after, rest[1..], r);
      FirstOrRest(rest);
    }
  }

  lemma PastDial(s: CallState, step: Step)
    requires Inv(s) && Forced(s, step) && s.f.started && !s.run.Dialing?
    ensures Do(s, step).f.started && !Do(s, step).run.Dialing? && !CanGive(step)
  {
    hide CloserInv, ReportInv, DoneInv;
  }

  /** An ending call runs on to the publication of its reason, and of one given before if there is one. */
  lemma Finish(steps: seq<Step>, s: CallState) returns (all: seq<Step>)
    requires Exec(steps) == Some(s) && s.f.started && !s.run.Dialing? && Ending(s)
    ensures steps <= all && Exec(all).Some? && Exec(all).value.published.Some?
    ensures s.f.reason != NoReason ==> Exec(all).value.published == Some(s.f.reason)
    ensures (forall step :: step in steps ==> !CanGive(step)) ==> Exec(all).value.published == Some(NoReason)
  {
    ExecInv(steps);
    var rest, r := TeardownRuns(s);
    ForcedRunExtends(steps, s, rest, r);
    all := steps + rest;
    assert all[..|steps|] == steps;
    ReasonAgreement(all, |steps|);
    if forall step :: step in steps ==> !CanGive(step) {
      QuietEnding(all);
    }
    hide Exec, Ending, CanGive, ForcedRun, Inv, Causes;
  }

  /** Whichever way the relay is left, an interleaving leads there and on to the reason for that ending. */
  lemma EveryEndingHappens(how: Leave) returns (steps: seq<Step>)
    requires how.StreamTyped? ==> Reportable(how.reason)
    ensures LeaveRelay(how) in steps && Exec(steps).Some? && Exec(steps).value.published == Some(EndingOf(how))
  {
    hide *;
    var prefix, s := Reasoned(how);
    steps := Finish(prefix, s);
    StillThere(prefix, steps, LeaveRelay(how));
  }

  /** So do a user's hangup, a dial that fails and a reason told by receiveBackend. */
  lemma EveryCauseHappens(step: Step, reason: EndReason) returns (steps: seq<Step>)
    requires || (step == Close(UserEnded) && reason == UserEnded) || (step == DialFails && reason == BackendError)
             || (step == RecvStops(reason) && Reportable(reason))
    ensures step in steps && Exec(steps).Some? && Exec(steps).value.published == Some(reason)
  {
    hide *;
    var prefix, s := Caused(step, reason);
    steps := Finish(prefix, s);
    StillThere(prefix, steps, step);
  }

  lemma Caused(step: Step, reason: EndReason) returns (steps: seq<Step>, s: CallState)
    requires || (step == Close(UserEnded) && reason == UserEnded) || (step == DialFails && reason == BackendError)
             || (step == RecvStops(reason) && Reportable(reason))
    ensures Exec(steps) == Some(s) && step in steps
    ensures s.f.started && !s.run.Dialing? && Ending(s) && s.f.reason == reason != NoReason
  {
    if step.DialFails? {
      steps, s := Then([], NEW, Start);
      hide Exec;
      steps, s := Then(steps, s, DialFails);
      steps, s := Then(steps, s, StoreReason);
    } else {
      hide Exec;
      steps, s := Dialed();
      steps, s := Then(steps, s, step);
      if step.RecvStops? {
        steps, s := Then(steps, s, RecvStores);
      }
    }
  }

  lemma StillThere<T>(prefix: seq<T>, all: seq<T>, x: T)
    requires prefix <= all && x in prefix
    ensures x in all
  {
    assert forall i :: 0 <= i < |prefix| ==> prefix[i] == all[i];
  }

  /** On to where the reason is known, if the ending has one. */
  lemma Reasoned(how: Leave) returns (steps: seq<Step>, s: CallState)
    requires how.StreamTyped? ==> Reportable(how.reason)
    ensures Exec(steps) == Some(s) && LeaveRelay(how) in steps
    ensures s.f.started && !s.run.Dialing? && Ending(s) && s.f.reason == EndingOf(how)
    ensures EndingOf(how) != NoReason || forall step :: step in steps ==> !CanGive(step)
  {
    hide Exec;
    steps, s := Relayed(how);
    if how.StreamTyped? {
      steps, s := Then(steps, s, StoreReason);
    } else if how.StreamOther? || how.MediaError? {
      steps, s := Then(steps, s, CheckContext);
      steps, s := Then(steps, s, CheckReason);
      steps, s := Then(steps, s, StoreReason);
    }
  }

  lemma Dialed() returns (steps: seq<Step>, s: CallState)
    ensures Exec(steps) == Some(s) && steps == [Start, DialSucceeds]
    ensures s == NEW.(f := Fields(true, false, NoReason), run := Relaying, recv := Working, send := Working,
                      runsSpawned := 1)
  {
    steps, s := Then([], NEW, Start);
    hide Exec;
    steps, s := Then(steps, s, DialSucceeds);
  }

  /** Start, dial, let happen what how needs, and leave the relay. */
  lemma Relayed(how: Leave) returns (steps: seq<Step>, s: CallState)
    requires how.StreamTyped? ==> Reportable(how.reason)
    ensures Exec(steps) == Some(s) && LeaveRelay(how) in steps
    ensures s.f.started && s.f.reason == NoReason && (s.ctxCancelled <==> how.ContextDone?)
    ensures s.run == (match how {
      case StreamTyped(reason) => Setting(reason, CheckingContext)
      case StreamOther => CheckingContext
      case MediaError => CheckingContext
      case _ => StoppingMedia
    })
    ensures CanGive(LeaveRelay(how)) || forall step :: step in steps ==> !CanGive(step)
  {
    hide Exec;
    steps, s := Dialed();
    if how.ContextDone? {
      steps, s := Then(steps, s, Close(NoReason));
      steps, s := Then(steps, s, Cancel);
    } else if how.MediaError? || how.MediaEnded? {
      steps, s := Then(steps, s, RecvStops(NoReason));
    }
    steps, s := Then(steps, s, LeaveRelay(how));
  }

  // ---- reporting -------------------------------------------------------------------------

  function HangupReason(reason: EndReason): string {
    match reason
    case AgentEnded => "AGENT_ENDED"
    case Transfer => "TRANSFERRED"
    case BackendError => "BACKEND_ERROR"
    case _ => "USER_ENDED"
  }

  predicate ShouldSendBYE(reason: EndReason) {
    match reason
    case AgentEnded => true
    case Transfer => true
    case BackendError => true
    case _ => false
  }

  /** The relay hangs up exactly on the calls it logs as not ended by the user. */
  lemma ByeMatchesLog(reason: EndReason)
    ensures ShouldSendBYE(reason) <==> HangupReason(reason) != "USER_ENDED"
  {
    assert "AGENT_ENDED"[0] == 'A' && "TRANSFERRED"[0] == 'T' && "BACKEND_ERROR"[0] == 'B' && "USER_ENDED"[0] == 'U';
  }

  // ---- the object ------------------------------------------------------------------------

  /** Call, one caller at a time. */
  class Call {
    var started: bool
    var closed: bool
    var reason: EndReason
    /** A cancel function is stored by Start. */
    var hasCancel: bool
    var ctxCancelled: bool
    var rtpClosed: bool
    var doneClosed: bool

    function Snapshot(): Fields
      reads this
    {
      Fields(started, closed, reason)
    }

    ghost predicate Valid()
      reads this
    {
      && (hasCancel <==> started)
      && (closed && !started ==> doneClosed)
    }

    constructor ()
      ensures Valid() && Snapshot() == NEW.f && !ctxCancelled && !rtpClosed && !doneClosed
    {
      started, closed, reason := false, false, NoReason;
      hasCancel, ctxCancelled, rtpClosed, doneClosed := false, false, false, false;
    }

    /** True if the run goroutine is to be spawned. */
    method Start() returns (spawn: bool)
      requires Valid()
      modifies this`started, this`hasCancel
      ensures Valid() && Snapshot() == StartSection(old(Snapshot())) && spawn == MayStart(old(Snapshot()))
    {
      if closed || started {
        return false;
      }
      hasCancel := true;
      started := true;
      return true;
    }

    method CloseWithReason(reason: EndReason)
      requires Valid()
      modifies this
      ensures Valid() && Snapshot() == CloseSection(old(Snapshot()), reason) && hasCancel == old(hasCancel)
      ensures rtpClosed == (old(rtpClosed) || !old(closed))
      ensures ctxCancelled == (old(ctxCancelled) || (!old(closed) && started))
      ensures doneClosed == (old(doneClosed) || (!old(closed) && !started))
    {
      if closed {
        return;
      }
      if reason != NoReason && this.reason == NoReason {
        this.reason := reason;
      }
      closed := true;
      if hasCancel {
        ctxCancelled := true;
      }
      rtpClosed := true;
      if !started {
        FinishDone();
      }
    }

    method SetEndReason(reason: EndReason)
      requires Valid() && reason != NoReason
      modifies this`reason
      ensures Valid() && Snapshot() == SetReason(old(Snapshot()), reason)
    {
      if this.reason == NoReason {
        this.reason := reason;
      }
    }

    /** Closing Done through the once: a second call changes nothing. */
    method FinishDone()
      modifies this`doneClosed
      ensures doneClosed
    {
      if !doneClosed {
        doneClosed := true;
      }
    }
  }
}

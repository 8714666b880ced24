/** The agent controller: operator requests and reconciliation, as the writes they make
    (src/agents/manager.rs). */
module AgentController {
  import opened Basics
  import opened Text
  import opened AgentTypes
  import M = Messages

  const CANCEL_REQUESTED: Phrase
  const CLOSE_REQUESTED: Phrase
  const RUN_CANCELLED: Phrase
  const SESSION_CLOSED: Phrase
  const INPUT_CANCELLED: Phrase
  const CANCELLED_BEFORE_START: Phrase
  const CLOSED_BEFORE_START: Phrase
  const RUN_COMPLETED: Phrase
  const STOPPED_UNEXPECTEDLY: Phrase
  const METADATA_DISAPPEARED: Phrase

  /** One write to the replicated store, in the order the controller makes them. */
  datatype Write = PutRun(run: Run) | PutSession(session: Session) | Remove(id: Uuid)

  datatype Rejection =
    | EmptyInput | SessionNotFound | SessionIsClosed | RunAlreadyActive | SessionIsClosing
    | RunNotFound | NothingToCancel | SessionNotClosed

  datatype Outcome = Done(writes: seq<Write>) | Rejected(why: Rejection)

  datatype Admission = AdmissionError | Ready | NotReady(detail: string)

  datatype Start = Started(workload: Uuid) | NothingStarted | Retryable(reason: string) | StartFailed

  /** What one reconciliation observes of the world: deadlines, admission, the outcome of starting
      a workload, the phase of the bound workload (absent when the lookup fails), the run
      identifier it would create, and the text of whatever it reports. */
  datatype Observation = Observation(progressExpired: bool, admission: Admission, start: Start,
                                     phase: Option<M.WorkloadPhase>, healthExpired: bool, newRun: Uuid, text: string)

  // ----- Decisions -----

  datatype Intent = NoShutdown | CancelRun | CloseSessionAfterRun

  function ShutdownIntent(s: Session, r: Run): Intent {
    if s.status == Closing && s.activeRun == Some(r.id) then CloseSessionAfterRun
    else if s.statusDetail == Some(CANCEL_REQUESTED) && s.activeRun == Some(r.id) then CancelRun
    else NoShutdown
  }

  function Pair(s: Session, r: Run, runOp: RunOp, sessionOp: SessionOp, now: Stamp): seq<Write> {
    [PutRun(UpdateRun(r, runOp, now)), PutSession(Update(s, sessionOp, now))]
  }

  function FailPair(s: Session, r: Run, code: Option<int>, detail: string, now: Stamp): seq<Write> {
    Pair(s, r, MarkRunFailed(code, Some(detail)), SessionOp.MarkFailed(r.id, Some(detail)), now)
  }

  /** Starts the workload of an unscheduled run. */
  function EnsureRunStarted(s: Session, r: Run, obs: Observation, now: Stamp): seq<Write> {
    if r.workload.Some? then []
    else if obs.progressExpired then FailPair(s, r, None, obs.text, now)
    else match obs.admission
      case AdmissionError => []
      case NotReady(detail) =>
        if r.statusDetail == Some(detail) then [] else [PutRun(UpdateRun(r, MarkPendingDetail(Some(detail)), now))]
      case Ready =>
        match obs.start
        case Started(w) => [PutRun(UpdateRun(r, BindWorkload(w, Some(obs.text)), now))]
        case NothingStarted => []
        case Retryable(reason) => [PutRun(UpdateRun(r, RetryLater(reason), now))]
        case StartFailed => FailPair(s, r, None, obs.text, now)
  }

  /** Writes for a workload that is gone, by the intent of the shutdown. */
  function FinishRun(s: Session, r: Run, code: Option<int>, unexpected: string, now: Stamp): seq<Write> {
    match ShutdownIntent(s, r)
    case CloseSessionAfterRun =>
      Pair(s, r, MarkCancelled(code, Some(SESSION_CLOSED)), SessionOp.MarkCancelledClosed(r.id, Some(SESSION_CLOSED)), now)
    case CancelRun =>
      Pair(s, r, MarkCancelled(code, Some(RUN_CANCELLED)),
           SessionOp.MarkCancelledWaitingInput(r.id, Some(RUN_CANCELLED)), now)
    case NoShutdown =>
      if code == Some(0) then
        Pair(s, r, MarkSucceeded(code, Some(RUN_COMPLETED)), SessionOp.MarkWaitingInput(r.id, Some(RUN_COMPLETED)), now)
      else FailPair(s, r, code, unexpected, now)
  }

  function ReconcileRun(s: Session, r: Run, obs: Observation, now: Stamp): seq<Write> {
    if RunIsTerminal(r) then []
    else if r.workload.None? then EnsureRunStarted(s, r, obs, now)
    else if obs.phase.None? then FailPair(s, r, None, obs.text, now)
    else match obs.phase.value
      case Pending => if obs.healthExpired then FailPair(s, r, None, obs.text, now) else []
      case Pulling => if obs.healthExpired then FailPair(s, r, None, obs.text, now) else []
      case Creating => if obs.healthExpired then FailPair(s, r, None, obs.text, now) else []
      case VolumeUnavailable => if obs.healthExpired then FailPair(s, r, None, obs.text, now) else []
      case Running => ObserveRunning(s, r, obs, now)
      case Paused => ObserveRunning(s, r, obs, now)
      case Exited(code) => FinishRun(s, r, Some(code), obs.text, now)
      case Stopping => []
      case Stopped => FinishRun(s, r, None, STOPPED_UNEXPECTEDLY, now)
      case Failed => FailPair(s, r, None, obs.text, now)
      case Unknown => FailPair(s, r, None, obs.text, now)
  }

  function ObserveRunning(s: Session, r: Run, obs: Observation, now: Stamp): seq<Write>
    requires r.workload.Some?
  {
    if ShutdownIntent(s, r) != NoShutdown || (r.status == RunRunning && s.status == SessionStatus.Running) then []
    else Pair(s, r, MarkRunning(r.workload.value, Some(obs.text)), SessionOp.MarkRunRunning(r.id, Some(obs.text)), now)
  }

  /** Repairs a session whose active run record is gone. */
  function RepairMissingRun(s: Session, run: Uuid, now: Stamp): Session {
    if s.status == Closing then Update(s, SessionOp.MarkCancelledClosed(run, Some(SESSION_CLOSED)), now)
    else if s.statusDetail == Some(CANCEL_REQUESTED) then
      Update(s, SessionOp.MarkCancelledWaitingInput(run, Some(RUN_CANCELLED)), now)
    else Update(s, SessionOp.MarkFailed(run, Some(METADATA_DISAPPEARED)), now)
  }

  function CreateRun(s: Session, obs: Observation, now: Stamp): seq<Write> {
    var r := NewRun(obs.newRun, s.spec.id, s.pendingInput, now);
    var queued := Update(s, SessionOp.MarkRunQueued(obs.newRun), now);
    [PutRun(r), PutSession(queued)] + EnsureRunStarted(queued, r, obs, now)
  }

  /** `run` is the stored record of the session's active run, if there is one. */
  function ReconcileSession(s: Session, run: Option<Run>, obs: Observation, now: Stamp): seq<Write> {
    if s.activeRun.Some? then
      if run.None? then [PutSession(RepairMissingRun(s, s.activeRun.value, now))]
      else ReconcileRun(s, run.value, obs, now)
    else if s.pendingInput.Some? && s.status != Closed then CreateRun(s, obs, now)
    else []
  }

  function SubmitInput(session: Option<Session>, input: string, now: Stamp): Outcome {
    if NormalizeText(input).None? then Rejected(EmptyInput)
    else if session.None? then Rejected(SessionNotFound)
    else
      var s := session.value;
      if s.status == Closed then Rejected(SessionIsClosed)
      else if s.activeRun.Some? || s.status == Queued || s.status == SessionStatus.Running then Rejected(RunAlreadyActive)
      else Done([PutSession(Update(s, SessionOp.QueueInput(NormalizeText(input).value), now))])
  }

  function CancelSession(session: Option<Session>, run: Option<Run>, now: Stamp): Outcome {
    if session.None? then Rejected(SessionNotFound)
    else
      var s := session.value;
      if s.status == Closed then Rejected(SessionIsClosed)
      else if s.status == Closing then Rejected(SessionIsClosing)
      else if s.activeRun.Some? then
        if run.None? then Rejected(RunNotFound)
        else if run.value.workload.Some? then
          Done(Pair(s, run.value, RequestCancel(Some(CANCEL_REQUESTED)),
                    SessionOp.MarkCancelRequested(run.value.id, Some(CANCEL_REQUESTED)), now))
        else
          Done(Pair(s, run.value, MarkCancelled(None, Some(CANCELLED_BEFORE_START)),
                    SessionOp.MarkCancelledWaitingInput(run.value.id, Some(CANCELLED_BEFORE_START)), now))
      else if s.pendingInput.Some? then
        Done([PutSession(Update(s, SessionOp.CancelPendingInput(Some(INPUT_CANCELLED)), now))])
      else Rejected(NothingToCancel)
  }

  function CloseSession(session: Option<Session>, run: Option<Run>, now: Stamp): Outcome {
    if session.None? then Rejected(SessionNotFound)
    else
      var s := session.value;
      if s.status == Closed then Done([])
      else if s.activeRun.Some? then
        if run.None? then Rejected(RunNotFound)
        else if run.value.workload.Some? then
          Done(Pair(s, run.value, RequestCancel(Some(CLOSE_REQUESTED)), SessionOp.RequestClose(Some(CLOSE_REQUESTED)), now))
        else
          Done(Pair(s, run.value, MarkCancelled(None, Some(CLOSED_BEFORE_START)),
                    SessionOp.MarkCancelledClosed(run.value.id, Some(SESSION_CLOSED)), now))
      else Done([PutSession(Update(s, SessionOp.Close(Some(SESSION_CLOSED)), now))])
  }

  function DeleteSession(session: Option<Session>, runs: seq<Uuid>): Outcome {
    if session.None? then Rejected(SessionNotFound)
    else if session.value.status != Closed then Rejected(SessionNotClosed)
    else Done(seq(|runs|, i requires 0 <= i < |runs| => Remove(runs[i])) + [Remove(session.value.spec.id)])
  }

  // ----- Requests -----

  datatype Request =
    | Submit(spec: SessionSpec, initialInput: Option<string>)
    | Input(text: string)
    | Cancel
    | CloseRequest
    | Delete(runs: seq<Uuid>)
    | Reconcile(obs: Observation)

  /** What the controller writes for a request, given the session and the active run it reads. */
  function Handle(q: Request, session: Option<Session>, run: Option<Run>, now: Stamp): Outcome {
    match q
    case Submit(spec, initialInput) => Done([PutSession(NewSession(spec, initialInput, now))])
    case Input(text) => SubmitInput(session, text, now)
    case Cancel => CancelSession(session, run, now)
    case CloseRequest => CloseSession(session, run, now)
    case Delete(runs) => DeleteSession(session, runs)
    case Reconcile(obs) => if session.None? then Done([]) else Done(ReconcileSession(session.value, run, obs, now))
  }

  function Writes(o: Outcome): seq<Write> {
    if o.Done? then o.writes else []
  }

  // ----- Every value ever written is proper -----

  /** The value is the outcome of a history in which every update was made in its situation. */
  ghost predicate Reachable(s: Session) {
    exists h :: Proper(h) && Replay(h) == s
  }

  lemma {:induction false} ProperIsWellFormed(h: History)
    requires Proper(h)
    ensures WellFormed(Replay(h)) && Replay(h).spec.id == h.spec.id
    decreases |h.ops|
  {
    if h.ops == [] {
      NewSessionIsWellFormed(h.spec, h.initialInput, h.openedAt);
    } else {
      var last := |h.ops| - 1;
      var before := h.(ops := h.ops[..last]);
      ProperIsWellFormed(before);
      UpdateKeepsWellFormed(Replay(before), h.ops[last].op, h.ops[last].now);
    }
  }

  // ----- The log tells the status -----

  /** The last event of the log fits the status, the run and the input of the session. */
  predicate LastEventTells(s: Session) {
    s.events != [] &&
    var e := s.events[|s.events| - 1];
    match s.status
    case WaitingInput => e.kind == NeedInput
    case Queued =>
      if s.pendingInput.Some? then e.kind == UserInput && e.message == s.pendingInput
      else e.kind == RunQueuedEvent && e.runId == s.activeRun
    case Running => e.kind == RunStarted && e.runId == s.activeRun
    case Failed => e.kind == RunFailedEvent && e.runId == s.lastRun
    case Closing => e.kind in {RunQueuedEvent, RunStarted} && e.runId == s.activeRun
    case Closed => e.kind == SessionClosed
  }

  lemma UpdateTells(s: Session, op: SessionOp, now: Stamp)
    requires WellFormed(s) && LastEventTells(s) && Admissible(s, op)
    ensures LastEventTells(Update(s, op, now))
  {
    if op.QueueInput? {
      NormalizeResult(Some(op.input));
    }
  }

  /** In every session that proper updates lead to, the last recorded event tells the status. */
  lemma {:induction false} LastEventTellsStatus(h: History)
    requires Proper(h)
    ensures LastEventTells(Replay(h))
    decreases |h.ops|
  {
    if h.ops == [] {
      NormalizeResult(h.initialInput);
      NormalizeResult(Normalize(h.initialInput));
    } else {
      var last := |h.ops| - 1;
      var before := h.(ops := h.ops[..last]);
      LastEventTellsStatus(before);
      ProperIsWellFormed(before);
      UpdateTells(Replay(before), h.ops[last].op, h.ops[last].now);
    }
  }

  lemma ReachableIsWellFormed(s: Session)
    requires Reachable(s)
    ensures WellFormed(s)
  {
    var h :| Proper(h) && Replay(h) == s;
    ProperIsWellFormed(h);
  }

  lemma UpdateIsReachable(s: Session, op: SessionOp, now: Stamp)
    requires Reachable(s) && Admissible(s, op)
    ensures Reachable(Update(s, op, now))
  {
    var h :| Proper(h) && Replay(h) == s;
    var g := h.(ops := h.ops + [Timed(op, now)]);
    assert g.(ops := g.ops[..|h.ops|]) == h;
    assert Proper(g) && Replay(g) == Update(s, op, now);
  }

  lemma NewIsReachable(spec: SessionSpec, initialInput: Option<string>, now: Stamp)
    ensures Reachable(NewSession(spec, initialInput, now))
  {
    var h := History(spec, initialInput, now, []);
    assert Proper(h) && Replay(h) == NewSession(spec, initialInput, now);
  }

  /** Every session in the list is reachable. */
  ghost predicate AllReachable(ws: seq<Write>) {
    forall i :: 0 <= i < |ws| && ws[i].PutSession? ==> Reachable(ws[i].session)
  }

  lemma PairReachable(s: Session, r: Run, runOp: RunOp, sessionOp: SessionOp, now: Stamp)
    requires Reachable(s) && Admissible(s, sessionOp)
    ensures AllReachable(Pair(s, r, runOp, sessionOp, now))
  {
    UpdateIsReachable(s, sessionOp, now);
  }

  lemma FailPairReachable(s: Session, r: Run, code: Option<int>, detail: string, now: Stamp)
    requires Reachable(s) && s.activeRun == Some(r.id)
    ensures AllReachable(FailPair(s, r, code, detail, now))
  {
    PairReachable(s, r, MarkRunFailed(code, Some(detail)), SessionOp.MarkFailed(r.id, Some(detail)), now);
  }

  lemma EnsureRunStartedReachable(s: Session, r: Run, obs: Observation, now: Stamp)
    requires Reachable(s) && s.activeRun == Some(r.id)
    ensures AllReachable(EnsureRunStarted(s, r, obs, now))
  {
    FailPairReachable(s, r, None, obs.text, now);
  }

  lemma FinishRunReachable(s: Session, r: Run, code: Option<int>, unexpected: string, now: Stamp)
    requires Reachable(s) && s.activeRun == Some(r.id)
    ensures AllReachable(FinishRun(s, r, code, unexpected, now))
  {
    match ShutdownIntent(s, r) {
      case CloseSessionAfterRun =>
        PairReachable(s, r, MarkCancelled(code, Some(SESSION_CLOSED)),
                      SessionOp.MarkCancelledClosed(r.id, Some(SESSION_CLOSED)), now);
      case CancelRun =>
        PairReachable(s, r, MarkCancelled(code, Some(RUN_CANCELLED)),
                      SessionOp.MarkCancelledWaitingInput(r.id, Some(RUN_CANCELLED)), now);
      case NoShutdown =>
        if code == Some(0) {
          PairReachable(s, r, MarkSucceeded(code, Some(RUN_COMPLETED)),
                        SessionOp.MarkWaitingInput(r.id, Some(RUN_COMPLETED)), now);
        } else {
          FailPairReachable(s, r, code, unexpected, now);
        }
    }
  }

  lemma ObserveRunningReachable(s: Session, r: Run, obs: Observation, now: Stamp)
    requires Reachable(s) && s.activeRun == Some(r.id) && r.workload.Some?
    ensures AllReachable(ObserveRunning(s, r, obs, now))
  {
    if s.status != Closing {
      PairReachable(s, r, MarkRunning(r.workload.value, Some(obs.text)),
                    SessionOp.MarkRunRunning(r.id, Some(obs.text)), now);
    }
  }

  lemma ReconcileRunReachable(s: Session, r: Run, obs: Observation, now: Stamp)
    requires Reachable(s) && s.activeRun == Some(r.id)
    ensures AllReachable(ReconcileRun(s, r, obs, now))
  {
    if r.workload.None? {
      EnsureRunStartedReachable(s, r, obs, now);
    } else if obs.phase.Some? && obs.phase.value.Exited? {
      FinishRunReachable(s, r, Some(obs.phase.value.code), obs.text, now);
    } else if obs.phase == Some(M.WorkloadPhase.Stopped) {
      FinishRunReachable(s, r, None, STOPPED_UNEXPECTEDLY, now);
    } else {
      FailPairReachable(s, r, None, obs.text, now);
      ObserveRunningReachable(s, r, obs, now);
    }
  }

  lemma RepairReachable(s: Session, run: Uuid, now: Stamp)
    requires Reachable(s) && s.activeRun == Some(run)
    ensures Reachable(RepairMissingRun(s, run, now))
  {
    if s.status == Closing {
      UpdateIsReachable(s, SessionOp.MarkCancelledClosed(run, Some(SESSION_CLOSED)), now);
    } else if s.statusDetail == Some(CANCEL_REQUESTED) {
      UpdateIsReachable(s, SessionOp.MarkCancelledWaitingInput(run, Some(RUN_CANCELLED)), now);
    } else {
      UpdateIsReachable(s, SessionOp.MarkFailed(run, Some(METADATA_DISAPPEARED)), now);
    }
  }

  lemma CreateRunReachable(s: Session, obs: Observation, now: Stamp)
    requires Reachable(s) && Admissible(s, SessionOp.MarkRunQueued(obs.newRun))
    ensures AllReachable(CreateRun(s, obs, now))
  {
    UpdateIsReachable(s, SessionOp.MarkRunQueued(obs.newRun), now);
    var queued := Update(s, SessionOp.MarkRunQueued(obs.newRun), now);
    EnsureRunStartedReachable(queued, NewRun(obs.newRun, s.spec.id, s.pendingInput, now), obs, now);
  }

  lemma ReconcileReachable(s: Session, run: Option<Run>, obs: Observation, now: Stamp)
    requires Reachable(s) && (run.Some? ==> s.activeRun == Some(run.value.id))
    ensures AllReachable(ReconcileSession(s, run, obs, now))
  {
    if s.activeRun.Some? {
      if run.Some? {
        ReconcileRunReachable(s, run.value, obs, now);
      } else {
        RepairReachable(s, s.activeRun.value, now);
      }
    } else if s.pendingInput.Some? && s.status != Closed {
      CreateRunReachable(s, obs, now);
    }
  }

  lemma CancelReachable(s: Session, run: Option<Run>, now: Stamp)
    requires Reachable(s) && (run.Some? ==> s.activeRun == Some(run.value.id))
    ensures AllReachable(Writes(CancelSession(Some(s), run, now)))
  {
    if s.status != Closed && s.status != Closing {
      if s.activeRun.None? {
        if s.pendingInput.Some? {
          UpdateIsReachable(s, SessionOp.CancelPendingInput(Some(INPUT_CANCELLED)), now);
        }
      } else if run.Some? && run.value.workload.Some? {
        PairReachable(s, run.value, RequestCancel(Some(CANCEL_REQUESTED)),
                      SessionOp.MarkCancelRequested(run.value.id, Some(CANCEL_REQUESTED)), now);
      } else if run.Some? {
        PairReachable(s, run.value, MarkCancelled(None, Some(CANCELLED_BEFORE_START)),
                      SessionOp.MarkCancelledWaitingInput(run.value.id, Some(CANCELLED_BEFORE_START)), now);
      }
    }
  }

  lemma CloseReachable(s: Session, run: Option<Run>, now: Stamp)
    requires Reachable(s) && (run.Some? ==> s.activeRun == Some(run.value.id))
    ensures AllReachable(Writes(CloseSession(Some(s), run, now)))
  {
    if s.status != Closed {
      if s.activeRun.None? {
        UpdateIsReachable(s, SessionOp.Close(Some(SESSION_CLOSED)), now);
      } else if run.Some? && run.value.workload.Some? {
        PairReachable(s, run.value, RequestCancel(Some(CLOSE_REQUESTED)),
                      SessionOp.RequestClose(Some(CLOSE_REQUESTED)), now);
      } else if run.Some? {
        PairReachable(s, run.value, MarkCancelled(None, Some(CLOSED_BEFORE_START)),
                      SessionOp.MarkCancelledClosed(run.value.id, Some(SESSION_CLOSED)), now);
      }
    }
  }

  lemma InputReachable(s: Session, input: string, now: Stamp)
    requires Reachable(s)
    ensures AllReachable(Writes(SubmitInput(Some(s), input, now)))
  {
    if SubmitInput(Some(s), input, now).Done? {
      NormalizeResult(Some(input));
      UpdateIsReachable(s, SessionOp.QueueInput(NormalizeText(input).value), now);
    }
  }

  /** Whatever session value a request reads, however stale, and whatever record it finds for the
      active run, it writes only reachable session values. */
  lemma HandleWritesReachable(q: Request, session: Option<Session>, run: Option<Run>, now: Stamp)
    requires session.Some? ==> Reachable(session.value)
    requires run.Some? ==> session.Some? && session.value.activeRun == Some(run.value.id)
    ensures AllReachable(Writes(Handle(q, session, run, now)))
  {
    match q {
      case Submit(spec, initialInput) => NewIsReachable(spec, initialInput, now);
      case Input(text) => if session.Some? { InputReachable(session.value, text, now); }
      case Cancel => if session.Some? { CancelReachable(session.value, run, now); }
      case CloseRequest => if session.Some? { CloseReachable(session.value, run, now); }
      case Delete(_) =>
      case Reconcile(obs) => if session.Some? { ReconcileReachable(session.value, run, obs, now); }
    }
  }

  /** One step of a run with stale reads: the request reads any value written so far. */
  datatype StaleStep = StaleStep(q: Request, read: Option<nat>, run: Option<Run>, now: Stamp)

  function SessionsIn(ws: seq<Write>): seq<Session> {
    if ws == [] then []
    else (if ws[0].PutSession? then [ws[0].session] else []) + SessionsIn(ws[1..])
  }

  function Reads(written: seq<Session>, step: StaleStep): Option<Session> {
    if step.read.Some? && step.read.value < |written| then Some(written[step.read.value]) else None
  }

  /** The active run is looked up by its identifier. */
  predicate LooksUp(written: seq<Session>, step: StaleStep) {
    step.run.Some? ==>
      Reads(written, step).Some? && Reads(written, step).value.activeRun == Some(step.run.value.id)
  }

  /** All session values written by a run of such steps. */
  function Written(steps: seq<StaleStep>): seq<Session> {
    if steps == [] then []
    else
      var before := Written(steps[..|steps| - 1]);
      var step := steps[|steps| - 1];
      if !LooksUp(before, step) then before
      else before + SessionsIn(Writes(Handle(step.q, Reads(before, step), step.run, step.now)))
  }

  lemma {:induction false} SessionsInAreWritten(ws: seq<Write>)
    requires AllReachable(ws)
    ensures forall s :: s in SessionsIn(ws) ==> Reachable(s)
  {
    if ws != [] {
      assert forall i :: 0 <= i < |ws[1..]| ==> ws[1..][i] == ws[i + 1];
      SessionsInAreWritten(ws[1..]);
    }
  }

  /** Under any interleaving of requests that read stale values, every session value ever written
      is reachable, hence well-formed. */
  lemma {:induction false} EveryValueWrittenIsWellFormed(steps: seq<StaleStep>)
    ensures forall s :: s in Written(steps) ==> Reachable(s) && WellFormed(s)
  {
    if steps != [] {
      var before, step := Written(steps[..|steps| - 1]), steps[|steps| - 1];
      EveryValueWrittenIsWellFormed(steps[..|steps| - 1]);
      if LooksUp(before, step) {
        HandleWritesReachable(step.q, Reads(before, step), step.run, step.now);
        SessionsInAreWritten(Writes(Handle(step.q, Reads(before, step), step.run, step.now)));
      }
      forall s | s in Written(steps) ensures Reachable(s) && WellFormed(s) {
        if s !in before {
          ReachableIsWellFormed(s);
        }
      }
    }
  }
}

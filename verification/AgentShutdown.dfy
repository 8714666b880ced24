/** Which requests a session accepts, how a run ends, and that a run asked to stop never succeeds
    (src/agents/manager.rs). */
module AgentShutdown {
  import opened Basics
  import opened Text
  import opened AgentTypes
  import opened AgentController
  import opened AgentLifecycle

  // ----- Requests -----

  predicate HasStatus(session: Option<Session>, statuses: set<SessionStatus>) {
    session.Some? && session.value.status in statuses
  }

  /** In every state a run of requests can reach: input is taken exactly when it is not blank and the
      session is idle, cancelling works exactly while something is queued or running, closing always
      works, and deleting exactly once closed. */
  lemma RequestsAcceptedExactlyWhen(sys: System, text: string, runs: seq<Uuid>, now: Stamp)
    requires Inv(sys)
    ensures SubmitInput(sys.store.session, text, now).Done? <==>
              NormalizeText(text).Some? && HasStatus(sys.store.session, {WaitingInput, SessionStatus.Failed})
    ensures CancelSession(sys.store.session, ActiveRun(sys.store), now).Done? <==>
              HasStatus(sys.store.session, {Queued, SessionStatus.Running})
    ensures CloseSession(sys.store.session, ActiveRun(sys.store), now).Done? <==> sys.store.session.Some?
    ensures DeleteSession(sys.store.session, runs).Done? <==> HasStatus(sys.store.session, {Closed})
  {
  }

  // ----- How a run ends -----

  /** The run and the session as one reconciliation leaves them. */
  datatype Left = Left(run: Run, session: Session)

  function AfterRun(st: Store, r: Run): Option<Left> {
    if r.id in st.runs && st.session.Some? then Some(Left(st.runs[r.id], st.session.value)) else None
  }

  lemma AfterPair(st: Store, s: Session, r: Run, runOp: RunOp, sessionOp: SessionOp, now: Stamp)
    requires UpdateRun(r, runOp, now).id == r.id
    ensures AfterRun(PutAll(st, Pair(s, r, runOp, sessionOp, now)), r)
            == Some(Left(UpdateRun(r, runOp, now), Update(s, sessionOp, now)))
  {
    PutTwo(st, PutRun(UpdateRun(r, runOp, now)), PutSession(Update(s, sessionOp, now)));
  }

  lemma AfterFail(st: Store, s: Session, r: Run, code: Option<int>, detail: string, now: Stamp)
    ensures var left := AfterRun(PutAll(st, FailPair(s, r, code, detail, now)), r);
            left.Some? && left.value.run.status == RunFailed && left.value.session.status == SessionStatus.Failed
  {
    AfterPair(st, s, r, MarkRunFailed(code, Some(detail)), SessionOp.MarkFailed(r.id, Some(detail)), now);
  }

  /** The workload is gone: it exited, or it was stopped. */
  predicate WorkloadGone(obs: Observation) {
    obs.phase.Some? && (obs.phase.value.Exited? || obs.phase.value.Stopped?)
  }

  predicate ExitedCleanly(obs: Observation) {
    obs.phase.Some? && obs.phase.value.Exited? && obs.phase.value.code == 0
  }

  /** The statuses in which run and session are left once the workload is gone. */
  predicate FinishedBy(left: Left, intent: Intent, clean: bool) {
    match intent
    case CloseSessionAfterRun => left.run.status == RunCancelledStatus && left.session.status == Closed
    case CancelRun => left.run.status == RunCancelledStatus && left.session.status == WaitingInput
    case NoShutdown =>
      if clean then left.run.status == RunSucceeded && left.session.status == WaitingInput
      else left.run.status == RunFailed && left.session.status == SessionStatus.Failed
  }

  lemma AfterFinish(st: Store, s: Session, r: Run, code: Option<int>, unexpected: string, now: Stamp)
    ensures var left := AfterRun(PutAll(st, FinishRun(s, r, code, unexpected, now)), r);
            left.Some? && FinishedBy(left.value, ShutdownIntent(s, r), code == Some(0))
  {
    match ShutdownIntent(s, r) {
      case CloseSessionAfterRun =>
        AfterPair(st, s, r, MarkCancelled(code, Some(SESSION_CLOSED)),
                  SessionOp.MarkCancelledClosed(r.id, Some(SESSION_CLOSED)), now);
      case CancelRun =>
        AfterPair(st, s, r, MarkCancelled(code, Some(RUN_CANCELLED)),
                  SessionOp.MarkCancelledWaitingInput(r.id, Some(RUN_CANCELLED)), now);
      case NoShutdown =>
        if code == Some(0) {
          AfterPair(st, s, r, MarkSucceeded(code, Some(RUN_COMPLETED)),
                    SessionOp.MarkWaitingInput(r.id, Some(RUN_COMPLETED)), now);
        } else {
          AfterFail(st, s, r, code, unexpected, now);
        }
    }
  }

  /** A start never ends a run except in failure. */
  lemma AfterStart(st: Store, s: Session, r: Run, obs: Observation, now: Stamp)
    requires Live(st, s, r)
    ensures var left := AfterRun(PutAll(st, EnsureRunStarted(s, r, obs, now)), r);
            left.Some? && (RunIsTerminal(left.value.run) ==> left.value.run.status == RunFailed)
  {
    StartSettled(st, s, r, obs, now);
    if r.workload.None? {
      if obs.progressExpired || (obs.admission.Ready? && obs.start.StartFailed?) {
        AfterFail(st, s, r, None, obs.text, now);
      } else {
        StartWithoutFailure(st, s, r, obs, now);
      }
    }
  }

  lemma StartWithoutFailure(st: Store, s: Session, r: Run, obs: Observation, now: Stamp)
    requires Live(st, s, r) && r.workload.None?
    requires !obs.progressExpired && !(obs.admission.Ready? && obs.start.StartFailed?)
    ensures var left := AfterRun(PutAll(st, EnsureRunStarted(s, r, obs, now)), r);
            left.Some? && !RunIsTerminal(left.value.run)
  {
    if obs.admission.NotReady? {
      PutOne(st, PutRun(UpdateRun(r, MarkPendingDetail(Some(obs.admission.detail)), now)));
    } else if obs.admission.Ready? && obs.start.Started? {
      PutOne(st, PutRun(UpdateRun(r, BindWorkload(obs.start.workload, Some(obs.text)), now)));
    } else if obs.admission.Ready? && obs.start.Retryable? {
      PutOne(st, PutRun(UpdateRun(r, RetryLater(obs.start.reason), now)));
    }
  }

  lemma AfterRunning(st: Store, s: Session, r: Run, obs: Observation, now: Stamp)
    requires Live(st, s, r) && r.workload.Some?
    ensures var left := AfterRun(PutAll(st, ObserveRunning(s, r, obs, now)), r);
            left.Some? && !RunIsTerminal(left.value.run)
  {
    if ObserveRunning(s, r, obs, now) != [] {
      AfterPair(st, s, r, MarkRunning(r.workload.value, Some(obs.text)), SessionOp.MarkRunRunning(r.id, Some(obs.text)), now);
    }
  }

  /** Once the workload is gone, the exit code and the shutdown that was asked for decide how run and
      session are left. In every other case the run goes on or fails. */
  lemma RunEndsExactlyWhen(st: Store, s: Session, r: Run, obs: Observation, now: Stamp)
    requires Live(st, s, r)
    ensures var left := AfterRun(PutAll(st, ReconcileRun(s, r, obs, now)), r);
            && left.Some?
            && (r.workload.Some? && WorkloadGone(obs) ==>
                  FinishedBy(left.value, ShutdownIntent(s, r), ExitedCleanly(obs)))
            && (r.workload.None? || !WorkloadGone(obs) ==>
                  (RunIsTerminal(left.value.run) ==> left.value.run.status == RunFailed))
  {
    var ws := ReconcileRun(s, r, obs, now);
    assert !RunIsTerminal(r);
    if r.workload.None? {
      assert ws == EnsureRunStarted(s, r, obs, now);
      AfterStart(st, s, r, obs, now);
    } else if obs.phase.Some? && obs.phase.value.Exited? {
      assert ws == FinishRun(s, r, Some(obs.phase.value.code), obs.text, now);
      AfterFinish(st, s, r, Some(obs.phase.value.code), obs.text, now);
    } else if obs.phase.Some? && obs.phase.value.Stopped? {
      assert ws == FinishRun(s, r, None, STOPPED_UNEXPECTEDLY, now);
      AfterFinish(st, s, r, None, STOPPED_UNEXPECTEDLY, now);
    } else if obs.phase.Some? && (obs.phase.value.Running? || obs.phase.value.Paused?) {
      assert ws == ObserveRunning(s, r, obs, now);
      AfterRunning(st, s, r, obs, now);
    } else {
      ReconcileOther(s, r, obs, now);
      AfterFail(st, s, r, None, obs.text, now);
    }
  }

  // ----- A run asked to stop -----

  /** The session's active run has a workload and has been asked to stop. */
  predicate AskedToStop(st: Store, id: Uuid) {
    && st.session.Some? && st.session.value.activeRun == Some(id)
    && id in st.runs && st.runs[id].id == id && st.runs[id].workload.Some?
    && ShutdownIntent(st.session.value, st.runs[id]) != NoShutdown
  }

  ghost predicate Stopping(sys: System, id: Uuid) {
    Inv(sys) && AskedToStop(sys.store, id)
  }

  predicate Unsuccessful(st: Store, id: Uuid) {
    id in st.runs && st.runs[id].status in {RunCancelledStatus, RunFailed}
  }

  /** Asking a launched run to stop, as a cancel and as a close. */
  lemma CancelAsks(st: Store, s: Session, r: Run, now: Stamp)
    requires Live(st, s, r) && r.workload.Some? && s.status != Closing
    ensures AskedToStop(PutAll(st, Writes(CancelSession(Some(s), Some(r), now))), r.id)
  {
    NormalizeResult(Some(CANCEL_REQUESTED));
    var runOp := RequestCancel(Some(CANCEL_REQUESTED));
    var sessionOp := SessionOp.MarkCancelRequested(r.id, Some(CANCEL_REQUESTED));
    assert CancelSession(Some(s), Some(r), now) == Done(Pair(s, r, runOp, sessionOp, now));
    AfterPair(st, s, r, runOp, sessionOp, now);
  }

  lemma CloseAsks(st: Store, s: Session, r: Run, now: Stamp)
    requires Live(st, s, r) && r.workload.Some?
    ensures AskedToStop(PutAll(st, Writes(CloseSession(Some(s), Some(r), now))), r.id)
  {
    var runOp, sessionOp := RequestCancel(Some(CLOSE_REQUESTED)), SessionOp.RequestClose(Some(CLOSE_REQUESTED));
    assert CloseSession(Some(s), Some(r), now) == Done(Pair(s, r, runOp, sessionOp, now));
    AfterPair(st, s, r, runOp, sessionOp, now);
  }

  lemma LiveRun(sys: System, id: Uuid)
    requires Inv(sys) && sys.store.session.Some? && sys.store.session.value.activeRun == Some(id)
    ensures id in sys.store.runs && sys.store.runs[id].id == id
    ensures Live(sys.store, sys.store.session.value, sys.store.runs[id])
  {
  }

  /** A cancel or close of a launched run asks it to stop; one that is closing already has been. */
  lemma AskingStops(sys: System, q: Request, now: Stamp, id: Uuid)
    requires Inv(sys) && sys.store.session.Some? && sys.store.session.value.activeRun == Some(id)
    requires sys.store.runs[id].workload.Some? && (q.Cancel? || q.CloseRequest?)
    ensures Stopping(Step(sys, q, now), id)
  {
    var st := sys.store;
    LiveRun(sys, id);
    StepKeeps(sys, q, now);
    if q.CloseRequest? {
      CloseAsks(st, st.session.value, st.runs[id], now);
    } else if st.session.value.status != Closing {
      CancelAsks(st, st.session.value, st.runs[id], now);
    }
  }

  lemma ReconcileHonours(st: Store, s: Session, r: Run, obs: Observation, now: Stamp)
    requires Live(st, s, r) && r.workload.Some? && ShutdownIntent(s, r) != NoShutdown
    ensures var after := PutAll(st, ReconcileRun(s, r, obs, now));
            after == st || Unsuccessful(after, r.id)
  {
    RunEndsExactlyWhen(st, s, r, obs, now);
    if !WorkloadGone(obs) {
      AfterFail(st, s, r, None, obs.text, now);
      if obs.phase.Some? && (obs.phase.value.Running? || obs.phase.value.Paused?) {
        assert ReconcileRun(s, r, obs, now) == [];
      } else {
        ReconcileOther(s, r, obs, now);
      }
    }
  }

  lemma ReconcileStepHonours(sys: System, obs: Observation, now: Stamp, id: Uuid)
    requires Stopping(sys, id) && obs.newRun !in sys.used
    ensures Stopping(Step(sys, Reconcile(obs), now), id) || Unsuccessful(Step(sys, Reconcile(obs), now).store, id)
  {
    var st := sys.store;
    LiveRun(sys, id);
    StepKeeps(sys, Reconcile(obs), now);
    ReconcileHonours(st, st.session.value, st.runs[id], obs, now);
  }

  lemma StepHonours(sys: System, q: Request, now: Stamp, id: Uuid)
    requires Stopping(sys, id)
    ensures Stopping(Step(sys, q, now), id) || Unsuccessful(Step(sys, q, now).store, id)
  {
    if Enabled(sys, q) {
      match q {
        case Cancel => AskingStops(sys, q, now, id);
        case CloseRequest => AskingStops(sys, q, now, id);
        case Reconcile(obs) => ReconcileStepHonours(sys, obs, now, id);
        case _ => RefusedWhileActive(sys, q, now);
      }
    }
  }

  /** While a run is active nothing is submitted, queued or deleted. */
  lemma RefusedWhileActive(sys: System, q: Request, now: Stamp)
    requires Inv(sys) && sys.store.session.Some? && sys.store.session.value.activeRun.Some? && Enabled(sys, q)
    requires q.Submit? || q.Input? || q.Delete?
    ensures Step(sys, q, now).store == sys.store && Inv(Step(sys, q, now))
  {
    StepKeeps(sys, q, now);
  }

  /** Whatever requests follow, a run that was asked to stop is still stopping, or has ended
      cancelled or failed, or is deleted with its session. */
  lemma {:induction false} ShutdownIsHonoured(sys: System, qs: seq<TimedRequest>, id: Uuid)
    requires Stopping(sys, id)
    ensures var last := RunFrom(sys, qs);
            Inv(last) && (Stopping(last, id) || Unsuccessful(last.store, id) || Gone(last))
  {
    if qs != [] {
      var n := |qs| - 1;
      var before := RunFrom(sys, qs[..n]);
      ShutdownIsHonoured(sys, qs[..n], id);
      StepKeeps(before, qs[n].q, qs[n].now);
      if Gone(before) {
        GoneStays(before, qs[n].q, qs[n].now);
      } else if Stopping(before, id) {
        StepHonours(before, qs[n].q, qs[n].now, id);
      } else {
        EndedStays(before, qs[n].q, qs[n].now, id);
      }
    }
  }

  lemma EndedStays(sys: System, q: Request, now: Stamp, id: Uuid)
    requires Inv(sys) && Unsuccessful(sys.store, id)
    ensures Unsuccessful(Step(sys, q, now).store, id) || Gone(Step(sys, q, now))
  {
    StepKeeps(sys, q, now);
    var after := Step(sys, q, now);
    if !Gone(after) {
      assert RunKept(sys.store.runs[id], after.store.runs[id]);
    }
  }

  /** After a cancel or close of a launched run, that run never succeeds. */
  lemma CancelledRunNeverSucceeds(sys: System, q: Request, now: Stamp, qs: seq<TimedRequest>, id: Uuid)
    requires Inv(sys) && sys.store.session.Some? && sys.store.session.value.activeRun == Some(id)
    requires sys.store.runs[id].workload.Some? && (q.Cancel? || q.CloseRequest?)
    ensures var last := RunFrom(Step(sys, q, now), qs);
            id in last.store.runs ==> last.store.runs[id].status != RunSucceeded
  {
    AskingStops(sys, q, now, id);
    ShutdownIsHonoured(Step(sys, q, now), qs, id);
  }
}

/** What each request leaves in the store, by the fields of the records (src/agents/manager.rs). */
module AgentOutcomes {
  import opened Basics
  import opened Text
  import opened AgentTypes
  import opened AgentController
  import opened AgentLifecycle
  import opened AgentShutdown
  import M = Messages

  // ----- Reconciling an active run -----

  /** The session of a sound state has the run as its active one. */
  ghost predicate Active(sys: System, id: Uuid) {
    Inv(sys) && sys.store.session.Some? && sys.store.session.value.activeRun == Some(id) && id in sys.store.runs
  }

  /** Every other run is as it was, and so is the definition of the session. */
  predicate OnlyRun(st: Store, after: Store, id: Uuid) {
    && after.runs.Keys == st.runs.Keys + {id} && (forall i :: i in st.runs && i != id ==> after.runs[i] == st.runs[i])
    && st.session.Some? && after.session.Some? && after.session.value.spec == st.session.value.spec
  }

  /** The run has ended and the session has let go of it. */
  predicate Ended(after: Store, id: Uuid, run: RunStatus, session: SessionStatus, code: Option<int>, now: Stamp) {
    && id in after.runs && after.runs[id].status == run
    && after.runs[id].exitCode == code && after.runs[id].finishedAt == Some(now)
    && after.session.Some? && after.session.value.status == session
    && after.session.value.activeRun.None? && after.session.value.lastRun == Some(id)
  }

  predicate BothFailed(after: Store, id: Uuid, code: Option<int>, now: Stamp) {
    Ended(after, id, RunFailed, SessionStatus.Failed, code, now)
  }

  /** The run has not ended, and the session is as it was. */
  predicate StillActive(st: Store, after: Store, id: Uuid, workload: Option<Uuid>) {
    after.session == st.session && id in after.runs && !RunIsTerminal(after.runs[id]) && after.runs[id].workload == workload
  }

  lemma PutsPair(st: Store, s: Session, r: Run, runOp: RunOp, sessionOp: SessionOp, now: Stamp)
    ensures PutAll(st, Pair(s, r, runOp, sessionOp, now))
            == Store(Some(Update(s, sessionOp, now)), st.runs[UpdateRun(r, runOp, now).id := UpdateRun(r, runOp, now)])
  {
    PutTwo(st, PutRun(UpdateRun(r, runOp, now)), PutSession(Update(s, sessionOp, now)));
  }

  lemma FailPutsBoth(st: Store, s: Session, r: Run, code: Option<int>, detail: string, now: Stamp)
    requires st.session == Some(s) && r.id in st.runs
    ensures var after := PutAll(st, FailPair(s, r, code, detail, now));
            BothFailed(after, r.id, code, now) && OnlyRun(st, after, r.id)
  {
    PutsPair(st, s, r, MarkRunFailed(code, Some(detail)), SessionOp.MarkFailed(r.id, Some(detail)), now);
  }

  /** An attempt to start a run that has no workload, by what it observes. */
  ghost predicate StartedAs(st: Store, after: Store, id: Uuid, obs: Observation, now: Stamp)
    requires id in st.runs
  {
    if obs.progressExpired then BothFailed(after, id, None, now)
    else match obs.admission
      case AdmissionError => after == st
      case NotReady(detail) =>
        && StillActive(st, after, id, None)
        && after.runs[id].statusDetail in {Some(detail), Normalize(Some(detail))}
      case Ready =>
        match obs.start
        case Started(w) => StillActive(st, after, id, Some(w)) && after.runs[id].status == RunPending
        case NothingStarted => after == st
        case Retryable(reason) =>
          && StillActive(st, after, id, None)
          && after.runs[id].statusDetail == Some(reason) && after.runs[id].phaseVersion == st.runs[id].phaseVersion
        case StartFailed => BothFailed(after, id, None, now)
  }

  lemma StartPuts(st: Store, s: Session, r: Run, obs: Observation, now: Stamp)
    requires Live(st, s, r) && r.workload.None?
    ensures var after := PutAll(st, EnsureRunStarted(s, r, obs, now));
            StartedAs(st, after, r.id, obs, now) && OnlyRun(st, after, r.id)
  {
    FailPutsBoth(st, s, r, None, obs.text, now);
    if !obs.progressExpired {
      if obs.admission.NotReady? {
        PutOne(st, PutRun(UpdateRun(r, MarkPendingDetail(Some(obs.admission.detail)), now)));
      } else if obs.admission.Ready? && obs.start.Started? {
        PutOne(st, PutRun(UpdateRun(r, BindWorkload(obs.start.workload, Some(obs.text)), now)));
      } else if obs.admission.Ready? && obs.start.Retryable? {
        PutOne(st, PutRun(UpdateRun(r, RetryLater(obs.start.reason), now)));
      }
    }
  }

  /** Reconciling a session whose run has no workload yet: a workload that was started is bound to the
      run; while admission waits or nothing could be started run and session go on without one; an
      expired deadline or a failed start fails both. */
  lemma UnboundOutcome(sys: System, obs: Observation, now: Stamp, id: Uuid)
    requires Active(sys, id) && Enabled(sys, Reconcile(obs)) && sys.store.runs[id].workload.None?
    ensures var st, after := sys.store, Step(sys, Reconcile(obs), now).store;
            StartedAs(st, after, id, obs, now) && OnlyRun(st, after, id)
  {
    var st := sys.store;
    LiveRun(sys, id);
    StartPuts(st, st.session.value, st.runs[id], obs, now);
    assert ReconcileRun(st.session.value, st.runs[id], obs, now) == EnsureRunStarted(st.session.value, st.runs[id], obs, now);
  }

  /** A shutdown was asked for: the session is closing or says that cancelling was requested. */
  predicate StopWasAsked(s: Session) {
    s.status == Closing || s.statusDetail == Some(CANCEL_REQUESTED)
  }

  /** How the session and its run are left by a workload that is gone. */
  ghost predicate FinishedAs(st: Store, after: Store, id: Uuid, code: Option<int>, now: Stamp)
    requires st.session.Some?
  {
    var s := st.session.value;
    if s.status == Closing then Ended(after, id, RunCancelledStatus, Closed, code, now)
    else if s.statusDetail == Some(CANCEL_REQUESTED) then Ended(after, id, RunCancelledStatus, WaitingInput, code, now)
    else if code == Some(0) then Ended(after, id, RunSucceeded, WaitingInput, code, now)
    else BothFailed(after, id, code, now)
  }

  /** A look at the workload of a run, by the phase that is seen. */
  ghost predicate FollowedAs(st: Store, after: Store, id: Uuid, obs: Observation, now: Stamp)
    requires st.session.Some? && id in st.runs
  {
    match obs.phase
    case None => BothFailed(after, id, None, now)
    case Some(phase) =>
      match phase
      case Failed => BothFailed(after, id, None, now)
      case Unknown => BothFailed(after, id, None, now)
      case Exited(code) => FinishedAs(st, after, id, Some(code), now)
      case Stopped => FinishedAs(st, after, id, None, now)
      case Stopping => after == st
      case Running => UpAs(st, after, id)
      case Paused => UpAs(st, after, id)
      case _ => if obs.healthExpired then BothFailed(after, id, None, now) else after == st
  }

  /** The workload is up: unless a shutdown was asked for, run and session are running. */
  ghost predicate UpAs(st: Store, after: Store, id: Uuid)
    requires st.session.Some? && id in st.runs
  {
    if StopWasAsked(st.session.value) then after == st
    else
      && id in after.runs && after.runs[id].status == RunRunning && after.runs[id].workload == st.runs[id].workload
      && (st.runs[id].startedAt.Some? ==> after.runs[id].startedAt == st.runs[id].startedAt)
      && (st.runs[id].status != RunRunning ==> after.runs[id].startedAt.Some?)
      && after.session.Some? && after.session.value.status == SessionStatus.Running
      && after.session.value.activeRun == Some(id)
  }

  lemma FinishPuts(st: Store, s: Session, r: Run, code: Option<int>, unexpected: string, now: Stamp)
    requires Live(st, s, r)
    ensures var after := PutAll(st, FinishRun(s, r, code, unexpected, now));
            FinishedAs(st, after, r.id, code, now) && OnlyRun(st, after, r.id)
  {
    if s.status == Closing {
      PutsPair(st, s, r, MarkCancelled(code, Some(SESSION_CLOSED)),
               SessionOp.MarkCancelledClosed(r.id, Some(SESSION_CLOSED)), now);
    } else if s.statusDetail == Some(CANCEL_REQUESTED) {
      PutsPair(st, s, r, MarkCancelled(code, Some(RUN_CANCELLED)),
               SessionOp.MarkCancelledWaitingInput(r.id, Some(RUN_CANCELLED)), now);
    } else if code == Some(0) {
      PutsPair(st, s, r, MarkSucceeded(code, Some(RUN_COMPLETED)), SessionOp.MarkWaitingInput(r.id, Some(RUN_COMPLETED)), now);
    } else {
      FailPutsBoth(st, s, r, code, unexpected, now);
    }
  }

  lemma RunningPuts(st: Store, s: Session, r: Run, obs: Observation, now: Stamp)
    requires Live(st, s, r) && r.workload.Some?
    ensures var after := PutAll(st, ObserveRunning(s, r, obs, now)); UpAs(st, after, r.id) && OnlyRun(st, after, r.id)
  {
    if !StopWasAsked(s) {
      PutsPair(st, s, r, MarkRunning(r.workload.value, Some(obs.text)), SessionOp.MarkRunRunning(r.id, Some(obs.text)), now);
    }
  }

  lemma FollowPuts(st: Store, s: Session, r: Run, obs: Observation, now: Stamp)
    requires Live(st, s, r) && r.workload.Some?
    ensures var after := PutAll(st, ReconcileRun(s, r, obs, now));
            FollowedAs(st, after, r.id, obs, now) && OnlyRun(st, after, r.id)
  {
    var ws := ReconcileRun(s, r, obs, now);
    assert !RunIsTerminal(r);
    FailPutsBoth(st, s, r, None, obs.text, now);
    if obs.phase.Some? && obs.phase.value.Exited? {
      assert ws == FinishRun(s, r, Some(obs.phase.value.code), obs.text, now);
      FinishPuts(st, s, r, Some(obs.phase.value.code), obs.text, now);
    } else if obs.phase.Some? && obs.phase.value.Stopped? {
      assert ws == FinishRun(s, r, None, STOPPED_UNEXPECTEDLY, now);
      FinishPuts(st, s, r, None, STOPPED_UNEXPECTEDLY, now);
    } else if obs.phase.Some? && (obs.phase.value.Running? || obs.phase.value.Paused?) {
      assert ws == ObserveRunning(s, r, obs, now);
      RunningPuts(st, s, r, obs, now);
    }
  }

  /** Reconciling a session whose run has a workload, by the workload's phase and what was asked of the
      session: running when it is up, ended when it is gone, failed when it is lost, late or broken, and
      otherwise as it was. */
  lemma BoundOutcome(sys: System, obs: Observation, now: Stamp, id: Uuid)
    requires Active(sys, id) && Enabled(sys, Reconcile(obs)) && sys.store.runs[id].workload.Some?
    ensures var st, after := sys.store, Step(sys, Reconcile(obs), now).store;
            FollowedAs(st, after, id, obs, now) && OnlyRun(st, after, id)
  {
    LiveRun(sys, id);
    FollowPuts(sys.store, sys.store.session.value, sys.store.runs[id], obs, now);
  }

  // ----- Reconciling a session with no run -----

  /** The store between the creation of a run and its start. */
  ghost predicate Created(st: Store, mid: Store, run: Uuid, now: Stamp)
    requires st.session.Some?
  {
    && mid.session.Some? && mid.session.value.status == Queued && mid.session.value.activeRun == Some(run)
    && mid.session.value.lastRun == Some(run) && mid.session.value.pendingInput.None?
    && run in mid.runs && mid.runs[run].workload.None? && mid.runs[run].status == RunPending
    && mid.runs[run].prompt == st.session.value.pendingInput && mid.runs[run].sessionId == st.session.value.spec.id
    && mid.runs[run].createdAt == now && mid.runs[run].exitCode.None? && OnlyRun(st, mid, run)
  }

  /** Reconciling a session with a pending input and no run makes a run of it and tries to start that
      run; a session with neither is left alone. */
  lemma IdleOutcome(sys: System, obs: Observation, now: Stamp)
    requires Inv(sys) && Enabled(sys, Reconcile(obs)) && sys.store.session.Some? && sys.store.session.value.activeRun.None?
    ensures var st, after := sys.store, Step(sys, Reconcile(obs), now).store;
            && (st.session.value.pendingInput.None? ==> after == st)
            && (st.session.value.pendingInput.Some? ==>
                  exists mid :: Created(st, mid, obs.newRun, now) && StartedAs(mid, after, obs.newRun, obs, now)
                                && OnlyRun(mid, after, obs.newRun))
  {
    var st := sys.store;
    var s := st.session.value;
    if s.pendingInput.Some? {
      var r := NewRun(obs.newRun, s.spec.id, s.pendingInput, now);
      var queued := Update(s, SessionOp.MarkRunQueued(obs.newRun), now);
      var two := [PutRun(r), PutSession(queued)];
      var mid := PutAll(st, two);
      NormalizeResult(s.pendingInput);
      QueueCreated(st, s, obs.newRun, now);
      PutTwo(st, PutRun(r), PutSession(queued));
      assert Created(st, mid, obs.newRun, now);
      PutAllAppend(st, two, EnsureRunStarted(queued, r, obs, now));
      StartPuts(mid, queued, r, obs, now);
      assert Step(sys, Reconcile(obs), now).store == PutAll(mid, EnsureRunStarted(queued, r, obs, now));
    }
  }

  // ----- Operator requests -----

  /** An accepted cancel: a launched run is asked to stop and stays, a run without a workload is
      cancelled, and with no run the pending input is dropped; either way the session takes input again. */
  lemma CancelOutcome(sys: System, now: Stamp)
    requires Inv(sys) && HasStatus(sys.store.session, {Queued, SessionStatus.Running})
    ensures var st, after := sys.store, Step(sys, Cancel, now).store;
            var s := st.session.value;
            && after.session.Some? && after.session.value.pendingInput.None? && after.session.value.spec == s.spec
            && (s.activeRun.None? ==> after.runs == st.runs && after.session.value.status == WaitingInput)
            && (s.activeRun.Some? && st.runs[s.activeRun.value].workload.None? ==>
                  Ended(after, s.activeRun.value, RunCancelledStatus, WaitingInput, None, now)
                  && OnlyRun(st, after, s.activeRun.value))
            && (s.activeRun.Some? && st.runs[s.activeRun.value].workload.Some? ==>
                  AskedWith(st, after, s.activeRun.value, s.status, CANCEL_REQUESTED))
  {
    var st := sys.store;
    var s := st.session.value;
    if s.activeRun.None? {
      PutOne(st, PutSession(Update(s, SessionOp.CancelPendingInput(Some(INPUT_CANCELLED)), now)));
    } else {
      LiveRun(sys, s.activeRun.value);
      CancelPuts(st, s, st.runs[s.activeRun.value], now);
    }
  }

  /** The run goes on as it was, with its workload, and the session carries the request. */
  predicate AskedWith(st: Store, after: Store, id: Uuid, status: SessionStatus, detail: string) {
    && OnlyRun(st, after, id) && id in st.runs
    && after.runs[id].status == st.runs[id].status && after.runs[id].workload == st.runs[id].workload
    && after.runs[id].exitCode == st.runs[id].exitCode && after.runs[id].statusDetail == Some(detail)
    && after.session.value.status == status && after.session.value.statusDetail == Some(detail)
    && after.session.value.activeRun == Some(id)
  }

  lemma CancelPuts(st: Store, s: Session, r: Run, now: Stamp)
    requires Live(st, s, r) && s.status in {Queued, SessionStatus.Running}
    ensures var after := PutAll(st, Writes(CancelSession(Some(s), Some(r), now)));
            && after.session.Some? && after.session.value.pendingInput.None? && OnlyRun(st, after, r.id)
            && (r.workload.None? ==> Ended(after, r.id, RunCancelledStatus, WaitingInput, None, now))
            && (r.workload.Some? ==> AskedWith(st, after, r.id, s.status, CANCEL_REQUESTED))
  {
    NormalizeResult(Some(CANCEL_REQUESTED));
    if r.workload.Some? {
      PutsPair(st, s, r, RequestCancel(Some(CANCEL_REQUESTED)), SessionOp.MarkCancelRequested(r.id, Some(CANCEL_REQUESTED)), now);
    } else {
      PutsPair(st, s, r, MarkCancelled(None, Some(CANCELLED_BEFORE_START)),
               SessionOp.MarkCancelledWaitingInput(r.id, Some(CANCELLED_BEFORE_START)), now);
    }
  }

  /** A close: a launched run is asked to stop and the session is closing until it has; otherwise the
      session is closed at once, and its run, if any, cancelled. A closed session is left alone. */
  lemma CloseOutcome(sys: System, now: Stamp)
    requires Inv(sys) && sys.store.session.Some?
    ensures var st, after := sys.store, Step(sys, CloseRequest, now).store;
            var s := st.session.value;
            && after.session.Some? && after.session.value.spec == s.spec && after.session.value.pendingInput.None?
            && (s.status == Closed ==> after == st)
            && (s.activeRun.None? ==> after.runs == st.runs && after.session.value.status == Closed)
            && (s.activeRun.Some? && st.runs[s.activeRun.value].workload.None? ==>
                  Ended(after, s.activeRun.value, RunCancelledStatus, Closed, None, now)
                  && OnlyRun(st, after, s.activeRun.value))
            && (s.activeRun.Some? && st.runs[s.activeRun.value].workload.Some? ==>
                  AskedWith(st, after, s.activeRun.value, Closing, CLOSE_REQUESTED))
  {
    var st := sys.store;
    var s := st.session.value;
    if s.status != Closed {
      if s.activeRun.None? {
        PutOne(st, PutSession(Update(s, SessionOp.Close(Some(SESSION_CLOSED)), now)));
      } else {
        LiveRun(sys, s.activeRun.value);
        ClosePuts(st, s, st.runs[s.activeRun.value], now);
      }
    }
  }

  lemma ClosePuts(st: Store, s: Session, r: Run, now: Stamp)
    requires Live(st, s, r)
    ensures var after := PutAll(st, Writes(CloseSession(Some(s), Some(r), now)));
            && after.session.Some? && after.session.value.pendingInput.None? && OnlyRun(st, after, r.id)
            && (r.workload.None? ==> Ended(after, r.id, RunCancelledStatus, Closed, None, now))
            && (r.workload.Some? ==> AskedWith(st, after, r.id, Closing, CLOSE_REQUESTED))
  {
    NormalizeResult(Some(CLOSE_REQUESTED));
    if r.workload.Some? {
      PutsPair(st, s, r, RequestCancel(Some(CLOSE_REQUESTED)), SessionOp.RequestClose(Some(CLOSE_REQUESTED)), now);
    } else {
      PutsPair(st, s, r, MarkCancelled(None, Some(CLOSED_BEFORE_START)),
               SessionOp.MarkCancelledClosed(r.id, Some(SESSION_CLOSED)), now);
    }
  }

  /** Deleting a closed session leaves nothing of it, its runs included. */
  lemma DeleteOutcome(sys: System, runs: seq<Uuid>, now: Stamp)
    requires Inv(sys) && Enabled(sys, Delete(runs)) && HasStatus(sys.store.session, {Closed})
    ensures Step(sys, Delete(runs), now).store == Store(None, map[])
  {
    var st := sys.store;
    var id := st.session.value.spec.id;
    assert id !in runs by {
      assert id in runs ==> id in (set i | i in runs);
    }
    RemoveRuns(st, runs);
    PutAllAppend(st, Removals(runs), [Remove(id)]);
    PutOne(PutAll(st, Removals(runs)), Remove(id));
  }

  /** An accepted input is queued, trimmed, for the next run. */
  lemma InputOutcome(sys: System, text: string, now: Stamp)
    requires Inv(sys) && NormalizeText(text).Some? && HasStatus(sys.store.session, {WaitingInput, SessionStatus.Failed})
    ensures var st, after := sys.store, Step(sys, Input(text), now).store;
            && after.runs == st.runs && after.session.Some?
            && after.session.value.pendingInput == NormalizeText(text) && after.session.value.status == Queued
            && after.session.value.activeRun.None? && after.session.value.spec == st.session.value.spec
  {
    var s := sys.store.session.value;
    PutOne(sys.store, PutSession(Update(s, SessionOp.QueueInput(NormalizeText(text).value), now)));
  }

  /** A submitted session has its definition, no run, and its first input queued if there is one. */
  lemma SubmitOutcome(sys: System, spec: SessionSpec, initialInput: Option<string>, now: Stamp)
    requires Inv(sys) && Enabled(sys, Submit(spec, initialInput))
    ensures var after := Step(sys, Submit(spec, initialInput), now).store;
            && after.session.Some? && after.session.value.activeRun.None?
            && after.session.value.spec == spec.(isolationProfile := Normalize(spec.isolationProfile), createdAt := now)
            && after.session.value.pendingInput == Normalize(initialInput)
            && after.session.value.status == (if Normalize(initialInput).Some? then Queued else WaitingInput)
  {
    PutOne(sys.store, PutSession(NewSession(spec, initialInput, now)));
  }

  /** Why a request is refused: the reason follows from the input and the status, and a refused request
      changes nothing. */
  lemma RefusalsSayWhy(sys: System, text: string, runs: seq<Uuid>, now: Stamp)
    requires Inv(sys)
    ensures var session, run := sys.store.session, ActiveRun(sys.store);
            && (NormalizeText(text).None? ==> SubmitInput(session, text, now) == Rejected(EmptyInput))
            && (NormalizeText(text).Some? ==>
                  && (session.None? ==> SubmitInput(session, text, now) == Rejected(SessionNotFound))
                  && (HasStatus(session, {Closed}) ==> SubmitInput(session, text, now) == Rejected(SessionIsClosed))
                  && (HasStatus(session, {Queued, SessionStatus.Running, Closing}) ==>
                        SubmitInput(session, text, now) == Rejected(RunAlreadyActive)))
            && (session.None? ==> CancelSession(session, run, now) == Rejected(SessionNotFound)
                                  && CloseSession(session, run, now) == Rejected(SessionNotFound)
                                  && DeleteSession(session, runs) == Rejected(SessionNotFound))
            && (HasStatus(session, {Closed}) ==> CancelSession(session, run, now) == Rejected(SessionIsClosed))
            && (HasStatus(session, {Closing}) ==> CancelSession(session, run, now) == Rejected(SessionIsClosing))
            && (HasStatus(session, {WaitingInput, SessionStatus.Failed}) ==>
                  CancelSession(session, run, now) == Rejected(NothingToCancel))
            && (session.Some? && session.value.status != Closed ==> DeleteSession(session, runs) == Rejected(SessionNotClosed))
    ensures SubmitInput(sys.store.session, text, now).Rejected? ==> Step(sys, Input(text), now).store == sys.store
    ensures CancelSession(sys.store.session, ActiveRun(sys.store), now).Rejected? ==> Step(sys, Cancel, now).store == sys.store
    ensures DeleteSession(sys.store.session, runs).Rejected? ==> Step(sys, Delete(runs), now).store == sys.store
  {
  }

  /** A session whose active run record is gone is repaired: closed if it was closing, waiting for input
      if cancelling was requested, and failed otherwise. */
  lemma RepairOutcome(st: Store, obs: Observation, now: Stamp)
    requires st.session.Some? && st.session.value.activeRun.Some? && ActiveRun(st).None?
    ensures var s := st.session.value;
            var after := PutAll(st, Writes(Handle(Reconcile(obs), st.session, ActiveRun(st), now)));
            && after.runs == st.runs && after.session.Some? && after.session.value.activeRun.None?
            && after.session.value.lastRun == s.activeRun && after.session.value.spec == s.spec
            && after.session.value.status ==
                 (if s.status == Closing then Closed
                  else if s.statusDetail == Some(CANCEL_REQUESTED) then WaitingInput else SessionStatus.Failed)
  {
    PutOne(st, PutSession(RepairMissingRun(st.session.value, st.session.value.activeRun.value, now)));
  }
}

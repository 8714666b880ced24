/** The controller over one session's stored records: each operation clones records, updates the
    clones and stores them, in the order of the source (src/agents/manager.rs). */
module AgentManager {
  import opened Basics
  import opened Text
  import opened AgentTypes
  import C = AgentController
  import opened AgentLifecycle

  /** The store after the writes of an outcome. */
  function After(st: Store, o: C.Outcome): Store {
    PutAll(st, C.Writes(o))
  }

  function Rejection(o: C.Outcome): Option<C.Rejection> {
    if o.Rejected? then Some(o.why) else None
  }

  class AgentManager {
    var session: Option<Session>
    var runs: map<Uuid, Run>
    /** The run of requests this controller has served, as the lifecycle theorems see it. */
    ghost var sys: System

    /** The stored records are those of the run served so far, and that run is sound. */
    ghost predicate Valid()
      reads this
    {
      Inv(sys) && sys.store == State()
    }

    constructor ()
      ensures Valid() && sys == NOTHING
    {
      session, runs, sys := None, map[], NOTHING;
    }

    function State(): Store
      reads this
    {
      Store(session, runs)
    }

    method ApplyRun(r: Run)
      modifies `session, `runs
      ensures State() == Put(old(State()), C.PutRun(r))
    {
      runs := runs[r.id := r];
    }

    method ApplySession(s: Session)
      modifies `session, `runs
      ensures State() == Put(old(State()), C.PutSession(s))
    {
      session := Some(s);
    }

    method ApplyRemove(id: Uuid)
      modifies `session, `runs
      ensures State() == Put(old(State()), C.Remove(id))
    {
      if session.Some? && session.value.spec.id == id {
        session := None;
      } else {
        runs := runs - {id};
      }
    }

    method PersistRunAndSession(r: Run, s: Session)
      modifies `session, `runs
      ensures State() == PutAll(old(State()), [C.PutRun(r), C.PutSession(s)])
    {
      PutTwo(State(), C.PutRun(r), C.PutSession(s));
      ApplyRun(r);
      ApplySession(s);
    }

    method StoreSession(s: Session)
      modifies `session, `runs
      ensures State() == PutAll(old(State()), [C.PutSession(s)])
    {
      PutOne(State(), C.PutSession(s));
      ApplySession(s);
    }

    method StoreRun(r: Run)
      modifies `session, `runs
      ensures State() == PutAll(old(State()), [C.PutRun(r)])
    {
      PutOne(State(), C.PutRun(r));
      ApplyRun(r);
    }

    /** `definition` carries the identifier generated for the session. */
    method SubmitSession(definition: SessionSpec, initialInput: Option<string>, now: Stamp)
      modifies `session, `runs
      ensures State() == After(old(State()), C.Handle(C.Submit(definition, initialInput), None, None, now))
    {
      var record := new AgentSession.Open(definition, initialInput, now);
      StoreSession(record.Value());
    }

    method SubmitInput(text: string, now: Stamp) returns (error: Option<C.Rejection>)
      modifies `session, `runs
      ensures var o := C.SubmitInput(old(session), text, now);
              State() == After(old(State()), o) && error == Rejection(o)
    {
      var input := NormalizeText(text);
      if input.None? {
        return Some(C.EmptyInput);
      }
      if session.None? {
        return Some(C.SessionNotFound);
      }
      var current := session.value;
      if current.status == Closed {
        return Some(C.SessionIsClosed);
      }
      if current.activeRun.Some? || current.status == Queued || current.status == SessionStatus.Running {
        return Some(C.RunAlreadyActive);
      }
      var next := new AgentSession(current);
      next.QueueInput(input.value, now);
      StoreSession(next.Value());
      return None;
    }

    method CancelSession(now: Stamp) returns (error: Option<C.Rejection>)
      modifies `session, `runs
      ensures var o := C.CancelSession(old(session), ActiveRun(old(State())), now);
              State() == After(old(State()), o) && error == Rejection(o)
    {
      if session.None? {
        return Some(C.SessionNotFound);
      }
      var current := session.value;
      if current.status == Closed {
        return Some(C.SessionIsClosed);
      }
      if current.status == Closing {
        return Some(C.SessionIsClosing);
      }
      if current.activeRun.Some? {
        if current.activeRun.value !in runs {
          return Some(C.RunNotFound);
        }
        CancelSessionRun(current, runs[current.activeRun.value], now);
        return None;
      }
      if current.pendingInput.Some? {
        var idle := new AgentSession(current);
        idle.CancelPendingInput(Some(C.INPUT_CANCELLED), now);
        StoreSession(idle.Value());
        return None;
      }
      return Some(C.NothingToCancel);
    }

    method CancelSessionRun(s: Session, r: Run, now: Stamp)
      modifies `session, `runs
      ensures State() == PutAll(old(State()),
                if r.workload.Some?
                then C.Pair(s, r, RequestCancel(Some(C.CANCEL_REQUESTED)),
                            SessionOp.MarkCancelRequested(r.id, Some(C.CANCEL_REQUESTED)), now)
                else C.Pair(s, r, MarkCancelled(None, Some(C.CANCELLED_BEFORE_START)),
                            SessionOp.MarkCancelledWaitingInput(r.id, Some(C.CANCELLED_BEFORE_START)), now))
    {
      var run := new AgentRun(r);
      var next := new AgentSession(s);
      if r.workload.Some? {
        run.RequestCancel(Some(C.CANCEL_REQUESTED), now);
        next.MarkCancelRequested(r.id, Some(C.CANCEL_REQUESTED), now);
      } else {
        run.MarkCancelled(None, Some(C.CANCELLED_BEFORE_START), now);
        next.MarkCancelledWaitingInput(r.id, Some(C.CANCELLED_BEFORE_START), now);
      }
      PersistRunAndSession(run.Value(), next.Value());
    }

    method CloseSession(now: Stamp) returns (error: Option<C.Rejection>)
      modifies `session, `runs
      ensures var o := C.CloseSession(old(session), ActiveRun(old(State())), now);
              State() == After(old(State()), o) && error == Rejection(o)
    {
      if session.None? {
        return Some(C.SessionNotFound);
      }
      var current := session.value;
      if current.status == Closed {
        return None;
      }
      if current.activeRun.Some? {
        if current.activeRun.value !in runs {
          return Some(C.RunNotFound);
        }
        CloseSessionRun(current, runs[current.activeRun.value], now);
        return None;
      }
      var closed := new AgentSession(current);
      closed.Close(Some(C.SESSION_CLOSED), now);
      StoreSession(closed.Value());
      return None;
    }

    method CloseSessionRun(s: Session, r: Run, now: Stamp)
      modifies `session, `runs
      ensures State() == PutAll(old(State()),
                if r.workload.Some?
                then C.Pair(s, r, RequestCancel(Some(C.CLOSE_REQUESTED)), SessionOp.RequestClose(Some(C.CLOSE_REQUESTED)), now)
                else C.Pair(s, r, MarkCancelled(None, Some(C.CLOSED_BEFORE_START)),
                            SessionOp.MarkCancelledClosed(r.id, Some(C.SESSION_CLOSED)), now))
    {
      var run := new AgentRun(r);
      var next := new AgentSession(s);
      if r.workload.Some? {
        run.RequestCancel(Some(C.CLOSE_REQUESTED), now);
        next.RequestClose(Some(C.CLOSE_REQUESTED), now);
      } else {
        run.MarkCancelled(None, Some(C.CLOSED_BEFORE_START), now);
        next.MarkCancelledClosed(r.id, Some(C.SESSION_CLOSED), now);
      }
      PersistRunAndSession(run.Value(), next.Value());
    }

    /** `listed` is the registry's list of the session's runs. */
    method DeleteSession(listed: seq<Uuid>) returns (error: Option<C.Rejection>)
      modifies `session, `runs
      ensures var o := C.DeleteSession(old(session), listed);
              State() == After(old(State()), o) && error == Rejection(o)
    {
      if session.None? {
        return Some(C.SessionNotFound);
      }
      if session.value.status != Closed {
        return Some(C.SessionNotClosed);
      }
      ghost var before := State();
      var id := session.value.spec.id;
      var i := 0;
      assert Removals(listed)[..0] == [];
      while i < |listed|
        invariant 0 <= i <= |listed|
        invariant State() == PutAll(before, Removals(listed)[..i])
      {
        assert Removals(listed)[..i + 1] == Removals(listed)[..i] + [C.Remove(listed[i])];
        PutAllAppend(before, Removals(listed)[..i], [C.Remove(listed[i])]);
        PutOne(State(), C.Remove(listed[i]));
        ApplyRemove(listed[i]);
        i := i + 1;
      }
      assert Removals(listed)[..i] == Removals(listed);
      PutAllAppend(before, Removals(listed), [C.Remove(id)]);
      PutOne(State(), C.Remove(id));
      ApplyRemove(id);
      return None;
    }

    method Fail(s: Session, r: Run, code: Option<int>, detail: string, now: Stamp)
      modifies `session, `runs
      ensures State() == PutAll(old(State()), C.FailPair(s, r, code, detail, now))
    {
      var run := new AgentRun(r);
      var next := new AgentSession(s);
      run.MarkFailed(code, Some(detail), now);
      next.MarkFailed(r.id, Some(detail), now);
      PersistRunAndSession(run.Value(), next.Value());
    }

    method EnsureRunStarted(s: Session, r: Run, obs: C.Observation, now: Stamp)
      modifies `session, `runs
      ensures State() == PutAll(old(State()), C.EnsureRunStarted(s, r, obs, now))
    {
      if r.workload.Some? {
        return;
      }
      if obs.progressExpired {
        Fail(s, r, None, obs.text, now);
        return;
      }
      var run := new AgentRun(r);
      match obs.admission {
        case AdmissionError =>
        case NotReady(detail) =>
          if r.statusDetail != Some(detail) {
            run.MarkPendingDetail(Some(detail), now);
            StoreRun(run.Value());
          }
        case Ready =>
          match obs.start {
            case Started(w) =>
              run.BindWorkload(w, Some(obs.text), now);
              StoreRun(run.Value());
            case NothingStarted =>
            case Retryable(reason) =>
              run.statusDetail := Some(reason);
              run.updatedAt := now;
              StoreRun(run.Value());
            case StartFailed => Fail(s, r, None, obs.text, now);
          }
      }
    }

    method FinishRun(s: Session, r: Run, code: Option<int>, unexpected: string, now: Stamp)
      modifies `session, `runs
      ensures State() == PutAll(old(State()), C.FinishRun(s, r, code, unexpected, now))
    {
      var run := new AgentRun(r);
      var next := new AgentSession(s);
      match C.ShutdownIntent(s, r) {
        case CloseSessionAfterRun =>
          run.MarkCancelled(code, Some(C.SESSION_CLOSED), now);
          next.MarkCancelledClosed(r.id, Some(C.SESSION_CLOSED), now);
        case CancelRun =>
          run.MarkCancelled(code, Some(C.RUN_CANCELLED), now);
          next.MarkCancelledWaitingInput(r.id, Some(C.RUN_CANCELLED), now);
        case NoShutdown =>
          if code == Some(0) {
            run.MarkSucceeded(code, Some(C.RUN_COMPLETED), now);
            next.MarkWaitingInput(r.id, Some(C.RUN_COMPLETED), now);
          } else {
            run.MarkFailed(code, Some(unexpected), now);
            next.MarkFailed(r.id, Some(unexpected), now);
          }
      }
      PersistRunAndSession(run.Value(), next.Value());
    }

    method ObserveRunning(s: Session, r: Run, obs: C.Observation, now: Stamp)
      requires r.workload.Some?
      modifies `session, `runs
      ensures State() == PutAll(old(State()), C.ObserveRunning(s, r, obs, now))
    {
      if C.ShutdownIntent(s, r) != C.NoShutdown {
        return;
      }
      if r.status != RunRunning || s.status != SessionStatus.Running {
        var run := new AgentRun(r);
        var next := new AgentSession(s);
        run.MarkRunning(r.workload.value, Some(obs.text), now);
        next.MarkRunRunning(r.id, Some(obs.text), now);
        PersistRunAndSession(run.Value(), next.Value());
      }
    }

    method ReconcileRun(s: Session, r: Run, obs: C.Observation, now: Stamp)
      modifies `session, `runs
      ensures State() == PutAll(old(State()), C.ReconcileRun(s, r, obs, now))
    {
      if RunIsTerminal(r) {
        return;
      }
      if r.workload.None? {
        EnsureRunStarted(s, r, obs, now);
        return;
      }
      if obs.phase.None? {
        Fail(s, r, None, obs.text, now);
        return;
      }
      match obs.phase.value {
        case Pending => if obs.healthExpired { Fail(s, r, None, obs.text, now); }
        case Pulling => if obs.healthExpired { Fail(s, r, None, obs.text, now); }
        case Creating => if obs.healthExpired { Fail(s, r, None, obs.text, now); }
        case VolumeUnavailable => if obs.healthExpired { Fail(s, r, None, obs.text, now); }
        case Running => ObserveRunning(s, r, obs, now);
        case Paused => ObserveRunning(s, r, obs, now);
        case Exited(code) => FinishRun(s, r, Some(code), obs.text, now);
        case Stopping =>
        case Stopped => FinishRun(s, r, None, C.STOPPED_UNEXPECTEDLY, now);
        case Failed => Fail(s, r, None, obs.text, now);
        case Unknown => Fail(s, r, None, obs.text, now);
      }
    }

    method CreateRunForSession(s: Session, obs: C.Observation, now: Stamp)
      modifies `session, `runs
      ensures State() == PutAll(old(State()), C.CreateRun(s, obs, now))
    {
      ghost var before := State();
      var r := NewRun(obs.newRun, s.spec.id, s.pendingInput, now);
      var queued := new AgentSession(s);
      queued.MarkRunQueued(obs.newRun, now);
      PersistRunAndSession(r, queued.Value());
      PutAllAppend(before, [C.PutRun(r), C.PutSession(queued.Value())], C.EnsureRunStarted(queued.Value(), r, obs, now));
      EnsureRunStarted(queued.Value(), r, obs, now);
    }

    method ReconcileSession(obs: C.Observation, now: Stamp)
      modifies `session, `runs
      ensures State() == After(old(State()), C.Handle(C.Reconcile(obs), old(session), ActiveRun(old(State())), now))
    {
      if session.None? {
        return;
      }
      var current := session.value;
      if current.activeRun.Some? {
        var id := current.activeRun.value;
        if id !in runs {
          var next := new AgentSession(current);
          if current.status == Closing {
            next.MarkCancelledClosed(id, Some(C.SESSION_CLOSED), now);
          } else if current.statusDetail == Some(C.CANCEL_REQUESTED) {
            next.MarkCancelledWaitingInput(id, Some(C.RUN_CANCELLED), now);
          } else {
            next.MarkFailed(id, Some(C.METADATA_DISAPPEARED), now);
          }
          StoreSession(next.Value());
          return;
        }
        ReconcileRun(current, runs[id], obs, now);
        return;
      }
      if current.pendingInput.Some? && current.status != Closed {
        CreateRunForSession(current, obs, now);
      }
    }

    // ----- Serving requests -----

    /** Serves one request with the handler of its kind: one step of the run. */
    method Serve(q: C.Request, now: Stamp) returns (error: Option<C.Rejection>)
      requires Valid() && Enabled(sys, q)
      modifies this
      ensures Valid() && sys == Step(old(sys), q, now)
      ensures error == Rejection(C.Handle(q, old(session), ActiveRun(old(State())), now))
      ensures Kept(old(State()), State()) || Gone(sys)
    {
      StepKeeps(sys, q, now);
      error := None;
      match q {
        case Submit(spec, initialInput) => SubmitSession(spec, initialInput, now);
        case Input(text) => error := SubmitInput(text, now);
        case Cancel => error := CancelSession(now);
        case CloseRequest => error := CloseSession(now);
        case Delete(listed) => error := DeleteSession(listed);
        case Reconcile(obs) => ReconcileSession(obs, now);
      }
      sys := Step(sys, q, now);
    }

    /** Serves any list of requests, in order. What the lifecycle theorems say of runs of requests
        holds of the stored records: the run is sound, and unless the session was deleted no run is
        lost, ended runs and a closed session are as they were, and workloads stay bound. */
    method ServeAll(qs: seq<TimedRequest>)
      requires Valid() && AllEnabled(sys, qs)
      modifies this
      ensures Valid() && sys == RunFrom(old(sys), qs)
      ensures Kept(old(State()), State()) || State() == Store(None, map[])
      ensures sys.accepted == Texts(sys.settled) + PendingIn(session)
    {
      ghost var start := sys;
      assert qs[..0] == [];
      for i := 0 to |qs|
        invariant Valid() && sys == RunFrom(start, qs[..i])
      {
        assert qs[..i + 1][..i] == qs[..i];
        var _ := Serve(qs[i].q, qs[i].now);
      }
      assert qs[..|qs|] == qs;
      EndedStaysEnded(start, qs);
    }
  }

  /** Every request of the list is enabled when its turn comes. */
  ghost predicate AllEnabled(sys: System, qs: seq<TimedRequest>) {
    forall i :: 0 <= i < |qs| ==> Enabled(RunFrom(sys, qs[..i]), qs[i].q)
  }
}

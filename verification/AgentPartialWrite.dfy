/** A run record and its session record are written one after the other. This module says what
    becomes of a session when only the first of the two is written: exactly, when the pair ends a
    run, and also when it creates one (src/agents/manager.rs). */
module AgentPartialWrite {
  import opened Basics
  import opened Text
  import opened AgentTypes
  import opened AgentController
  import opened AgentLifecycle

  /** The session still names `id` as its active run, but that run has ended. */
  ghost predicate HalfEnded(sys: System, id: Uuid) {
    && sys.submitted && sys.store.session.Some? && WellFormed(sys.store.session.value)
    && sys.store.session.value.activeRun == Some(id)
    && id in sys.store.runs && sys.store.runs[id].id == id && RunIsTerminal(sys.store.runs[id])
  }

  /** Writing only the run of a matched pair half-ends the session exactly when the update ends the
      run. */
  lemma HalfPair(sys: System, s: Session, r: Run, runOp: RunOp, sessionOp: SessionOp, now: Stamp)
    requires sys.submitted && Live(sys.store, s, r) && Matched(r, runOp, sessionOp) && Admissible(s, sessionOp)
    ensures var half := sys.(store := PutAll(sys.store, Pair(s, r, runOp, sessionOp, now)[..1]));
            && (HalfEnded(half, r.id) <==> RunIsTerminal(UpdateRun(r, runOp, now)))
            && r.id in half.store.runs && half.store.runs[r.id].workload == r.workload
  {
    var q := UpdateRun(r, runOp, now);
    assert Pair(s, r, runOp, sessionOp, now)[..1] == [PutRun(q)];
    PutOne(sys.store, PutRun(q));
  }

  /** No request frees a half-ended session whose run had a workload. */
  lemma HalfEndedStep(sys: System, id: Uuid, q: Request, now: Stamp)
    requires HalfEnded(sys, id) && sys.store.runs[id].workload.Some?
    ensures var after := Step(sys, q, now);
            HalfEnded(after, id) && after.store.runs[id].workload == sys.store.runs[id].workload
  {
    var st := sys.store;
    var s, r := st.session.value, st.runs[id];
    if Enabled(sys, q) && (q.Cancel? || q.CloseRequest?) && Handle(q, st.session, Some(r), now).Done? {
      var runOp := RequestCancel(Some(if q.Cancel? then CANCEL_REQUESTED else CLOSE_REQUESTED));
      var sessionOp := if q.Cancel? then SessionOp.MarkCancelRequested(id, Some(CANCEL_REQUESTED))
                       else SessionOp.RequestClose(Some(CLOSE_REQUESTED));
      assert Handle(q, st.session, Some(r), now) == Done(Pair(s, r, runOp, sessionOp, now));
      UpdateKeepsWellFormed(s, sessionOp, now);
      PutTwo(st, PutRun(UpdateRun(r, runOp, now)), PutSession(Update(s, sessionOp, now)));
    }
  }

  lemma {:induction false} HalfEndedForever(sys: System, id: Uuid, qs: seq<TimedRequest>)
    requires HalfEnded(sys, id) && sys.store.runs[id].workload.Some?
    ensures var last := RunFrom(sys, qs);
            HalfEnded(last, id) && last.store.runs[id].workload == sys.store.runs[id].workload
  {
    if qs != [] {
      var n := |qs| - 1;
      HalfEndedForever(sys, id, qs[..n]);
      HalfEndedStep(RunFrom(sys, qs[..n]), id, qs[n].q, qs[n].now);
    }
  }

  /** The requests take the session off the run. */
  predicate Releases(sys: System, id: Uuid, qs: seq<TimedRequest>) {
    var last := RunFrom(sys, qs).store.session;
    last.None? || last.value.activeRun != Some(id)
  }

  lemma CloseReleases(sys: System, id: Uuid, now: Stamp)
    requires HalfEnded(sys, id) && sys.store.runs[id].workload.None?
    ensures Releases(sys, id, [TimedRequest(CloseRequest, now)])
  {
    var st := sys.store;
    var s, r := st.session.value, st.runs[id];
    var qs := [TimedRequest(CloseRequest, now)];
    assert qs[..0] == [];
    assert RunFrom(sys, qs) == Step(sys, CloseRequest, now);
    var runOp := MarkCancelled(None, Some(CLOSED_BEFORE_START));
    var sessionOp := SessionOp.MarkCancelledClosed(id, Some(SESSION_CLOSED));
    assert Handle(CloseRequest, st.session, Some(r), now) == Done(Pair(s, r, runOp, sessionOp, now));
    PutTwo(st, PutRun(UpdateRun(r, runOp, now)), PutSession(Update(s, sessionOp, now)));
  }

  /** A half-ended session can still be freed of its run exactly when the run ended before a
      workload was bound to it; otherwise no sequence of requests ever frees it. */
  lemma ReleasedIffUnbound(sys: System, id: Uuid)
    requires HalfEnded(sys, id)
    ensures (exists qs :: Releases(sys, id, qs)) <==> sys.store.runs[id].workload.None?
  {
    if sys.store.runs[id].workload.None? {
      CloseReleases(sys, id, Stamp("", None));
    } else {
      forall qs ensures !Releases(sys, id, qs) {
        HalfEndedForever(sys, id, qs);
      }
    }
  }

  // ----- A run that is created -----

  /** Writing only the new run of a queued input leaves the input pending, so the next reconciliation
      makes a second run of it: two stored runs carry the same input, and the first is live although
      no session names it. */
  lemma HalfCreated(st: Store, s: Session, first: Observation, second: Observation, now: Stamp, later: Stamp)
    requires OneLiveRun(st) && st.session == Some(s) && SoundSession(s)
    requires s.activeRun.None? && s.pendingInput.Some? && s.status != Closed
    requires first.newRun !in st.runs && second.newRun !in st.runs && first.newRun != second.newRun
    ensures var half := PutAll(st, CreateRun(s, first, now)[..1]);
            && half.session == st.session && first.newRun in half.runs
            && ReconcileSession(s, ActiveRun(half), second, later) == CreateRun(s, second, later)
            && var after := PutAll(half, CreateRun(s, second, later)[..2]);
            && first.newRun in after.runs && second.newRun in after.runs
            && after.runs[first.newRun].prompt == after.runs[second.newRun].prompt == s.pendingInput
            && !RunIsTerminal(after.runs[first.newRun])
            && after.session.Some? && after.session.value.activeRun == Some(second.newRun)
  {
    var r, q := NewRun(first.newRun, s.spec.id, s.pendingInput, now), NewRun(second.newRun, s.spec.id, s.pendingInput, later);
    var queued := Update(s, SessionOp.MarkRunQueued(second.newRun), later);
    assert CreateRun(s, first, now)[..1] == [PutRun(r)];
    assert CreateRun(s, second, later)[..2] == [PutRun(q), PutSession(queued)];
    NormalizeResult(s.pendingInput);
    var half := PutAll(st, [PutRun(r)]);
    PutOne(st, PutRun(r));
    PutTwo(half, PutRun(q), PutSession(queued));
  }
}

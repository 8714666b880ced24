/** One agent session under whole runs of the controller, each request one atomic step: every input
    is settled once and in order, one run is live at most, and what has ended stays as it ended
    (src/agents/manager.rs). */
module AgentLifecycle {
  import opened Basics
  import opened Text
  import opened AgentTypes
  import opened AgentController

  /** The stored records of one session: its own and those of its runs. */
  datatype Store = Store(session: Option<Session>, runs: map<Uuid, Run>)

  function Put(st: Store, w: Write): Store {
    match w
    case PutRun(r) => st.(runs := st.runs[r.id := r])
    case PutSession(s) => st.(session := Some(s))
    case Remove(id) =>
      if st.session.Some? && st.session.value.spec.id == id then st.(session := None) else st.(runs := st.runs - {id})
  }

  function PutAll(st: Store, ws: seq<Write>): Store
    decreases |ws|
  {
    if ws == [] then st else PutAll(Put(st, ws[0]), ws[1..])
  }

  /** The stored record of the session's active run. */
  function ActiveRun(st: Store): Option<Run> {
    if st.session.Some? && st.session.value.activeRun.Some? && st.session.value.activeRun.value in st.runs
    then Some(st.runs[st.session.value.activeRun.value]) else None
  }

  // ----- Runs of requests -----

  /** What became of an accepted input. */
  datatype Fate = BecameRun(run: Uuid, prompt: Option<string>) | DroppedInput(text: string)

  /** `used` holds every identifier handed out so far; `accepted` and `settled` are observations of
      the run: the inputs taken in, and what became of them, both in order. */
  datatype System = System(store: Store, submitted: bool, used: set<Uuid>, accepted: seq<string>, settled: seq<Fate>)

  /** Identifiers are new, a session is submitted once, and a deletion lists the stored runs. */
  predicate Enabled(sys: System, q: Request) {
    match q
    case Submit(spec, _) => !sys.submitted && spec.id !in sys.used
    case Reconcile(obs) => obs.newRun !in sys.used
    case Delete(runs) => (set id | id in runs) == sys.store.runs.Keys
    case _ => true
  }

  function AcceptedBy(q: Request, o: Outcome): seq<string> {
    if o.Rejected? then []
    else match q
      case Submit(_, initialInput) => if Normalize(initialInput).Some? then [Normalize(initialInput).value] else []
      case Input(text) => if NormalizeText(text).Some? then [NormalizeText(text).value] else []
      case _ => []
  }

  function PendingIn(session: Option<Session>): seq<string> {
    if session.Some? && session.value.pendingInput.Some? then [session.value.pendingInput.value] else []
  }

  /** A run that came into being took an input; a pending input that a cancel or close removed was
      dropped. */
  function SettledBy(q: Request, before: Store, after: Store): seq<Fate> {
    match q
    case Reconcile(obs) =>
      if obs.newRun in after.runs && obs.newRun !in before.runs then [BecameRun(obs.newRun, after.runs[obs.newRun].prompt)]
      else []
    case Submit(_, _) => []
    case Input(_) => []
    case _ =>
      if PendingIn(before.session) != [] && PendingIn(after.session) == [] then [DroppedInput(PendingIn(before.session)[0])]
      else []
  }

  function IdsIn(q: Request): set<Uuid> {
    match q
    case Submit(spec, _) => {spec.id}
    case Reconcile(obs) => {obs.newRun}
    case _ => {}
  }

  function Step(sys: System, q: Request, now: Stamp): System {
    if !Enabled(sys, q) then sys
    else
      var o := Handle(q, sys.store.session, ActiveRun(sys.store), now);
      var after := PutAll(sys.store, Writes(o));
      System(after, sys.submitted || q.Submit?, sys.used + IdsIn(q), sys.accepted + AcceptedBy(q, o),
             sys.settled + SettledBy(q, sys.store, after))
  }

  const NOTHING := System(Store(None, map[]), false, {}, [], [])

  datatype TimedRequest = TimedRequest(q: Request, now: Stamp)

  function RunFrom(sys: System, qs: seq<TimedRequest>): System {
    if qs == [] then sys
    else
      var last := |qs| - 1;
      Step(RunFrom(sys, qs[..last]), qs[last].q, qs[last].now)
  }

  // ----- The invariant -----

  /** The runs are filed under their identifiers, and the live ones are exactly the active one. */
  ghost predicate OneLiveRun(st: Store) {
    && (forall id :: id in st.runs ==> st.runs[id].id == id)
    && (st.session.None? ==> st.runs == map[])
    && (st.session.Some? ==>
          && (st.session.value.activeRun.Some? ==> st.session.value.activeRun.value in st.runs)
          && (forall id :: id in st.runs ==> (!RunIsTerminal(st.runs[id]) <==> st.session.value.activeRun == Some(id))))
  }

  ghost predicate SoundSession(s: Session) {
    WellFormed(s) && Normal(s.pendingInput)
  }

  /** Every stored identifier has been handed out, and the session's is not a run's. */
  ghost predicate Identified(st: Store, used: set<Uuid>) {
    && st.runs.Keys <= used
    && (st.session.Some? ==> st.session.value.spec.id in used && st.session.value.spec.id !in st.runs)
  }

  function Texts(fates: seq<Fate>): seq<string> {
    seq(|fates|, i requires 0 <= i < |fates| =>
      match fates[i]
      case BecameRun(_, prompt) => if prompt.Some? then prompt.value else ""
      case DroppedInput(text) => text)
  }

  /** The inputs taken in are, in order, the ones settled and then the one still pending. */
  ghost predicate Conserved(sys: System) {
    sys.accepted == Texts(sys.settled) + PendingIn(sys.store.session)
  }

  ghost predicate Inv(sys: System) {
    && OneLiveRun(sys.store)
    && (sys.store.session.Some? ==> SoundSession(sys.store.session.value) && sys.submitted)
    && Identified(sys.store, sys.used)
    && Conserved(sys)
  }

  function LiveRuns(st: Store): set<Uuid> {
    set id | id in st.runs && !RunIsTerminal(st.runs[id])
  }

  // ----- What a step keeps -----

  /** What never changes in a run record: who it belongs to, its prompt, its workload once bound,
      and everything once it has ended. */
  predicate RunKept(a: Run, b: Run) {
    && b.id == a.id && b.sessionId == a.sessionId && b.prompt == a.prompt && b.createdAt == a.createdAt
    && (a.workload.Some? ==> b.workload == a.workload)
    && (RunIsTerminal(a) ==> b == a)
  }

  /** No run is lost or altered beyond that, and a closed session does not change. */
  ghost predicate Kept(a: Store, b: Store) {
    && (forall id :: id in a.runs ==> id in b.runs && RunKept(a.runs[id], b.runs[id]))
    && (a.session.Some? && a.session.value.status == Closed ==> b.session == a.session)
  }

  /** The session and its runs have been deleted. */
  predicate Gone(sys: System) {
    sys.submitted && sys.store == Store(None, map[])
  }

  // ----- Writes of one shape each -----

  lemma PutOne(st: Store, w: Write)
    ensures PutAll(st, [w]) == Put(st, w)
  {
    assert [w][1..] == [];
  }

  lemma PutTwo(st: Store, v: Write, w: Write)
    ensures PutAll(st, [v, w]) == Put(Put(st, v), w)
  {
    assert [v, w][1..] == [w];
    PutOne(Put(st, v), w);
  }

  /** A live run updated in place, still live. */
  lemma UpdateLiveRun(st: Store, r: Run, op: RunOp, now: Stamp)
    requires OneLiveRun(st) && ActiveRun(st) == Some(r)
    requires op.MarkPendingDetail? || op.RetryLater? || (op.BindWorkload? && r.workload.None?)
    ensures var after := PutAll(st, [PutRun(UpdateRun(r, op, now))]);
            OneLiveRun(after) && Kept(st, after) && after.session == st.session && after.runs.Keys == st.runs.Keys
  {
    PutOne(st, PutRun(UpdateRun(r, op, now)));
    assert r.id == st.session.value.activeRun.value;
  }

  /** The session `s` is stored and `r` is its active run. */
  ghost predicate Live(st: Store, s: Session, r: Run) {
    OneLiveRun(st) && st.session == Some(s) && ActiveRun(st) == Some(r) && SoundSession(s)
  }

  /** The run and session updates that go together. */
  predicate Matched(r: Run, runOp: RunOp, sessionOp: SessionOp) {
    match sessionOp
    case MarkFailed(id, _) => id == r.id && runOp.MarkRunFailed?
    case MarkCancelledClosed(id, _) => id == r.id && runOp.MarkCancelled?
    case MarkCancelledWaitingInput(id, _) => id == r.id && runOp.MarkCancelled?
    case MarkWaitingInput(id, _) => id == r.id && runOp.MarkSucceeded?
    case MarkRunRunning(id, _) => id == r.id && runOp.MarkRunning? && r.workload == Some(runOp.workload)
    case MarkCancelRequested(id, _) => id == r.id && runOp.RequestCancel?
    case RequestClose(_) => runOp.RequestCancel?
    case _ => false
  }

  /** A matched pair ends the run exactly when it releases it from the session. */
  lemma MatchedEndsTogether(s: Session, r: Run, runOp: RunOp, sessionOp: SessionOp, now: Stamp)
    requires WellFormed(s) && s.activeRun == Some(r.id) && !RunIsTerminal(r)
    requires Matched(r, runOp, sessionOp) && Admissible(s, sessionOp)
    ensures var t, q := Update(s, sessionOp, now), UpdateRun(r, runOp, now);
            && t.activeRun == (if RunIsTerminal(q) then None else Some(r.id))
            && WellFormed(t) && t.pendingInput.None? && t.spec == s.spec && RunKept(r, q)
  {
  }

  lemma PutPair(st: Store, s: Session, r: Run, q: Run, t: Session)
    requires Live(st, s, r) && RunKept(r, q) && t.activeRun == (if RunIsTerminal(q) then None else Some(r.id))
    requires WellFormed(t) && t.pendingInput.None? && t.spec == s.spec
    ensures PairSettled(st, PutAll(st, [PutRun(q), PutSession(t)]))
  {
    PutTwo(st, PutRun(q), PutSession(t));
  }

  lemma UpdatePair(st: Store, s: Session, r: Run, runOp: RunOp, sessionOp: SessionOp, now: Stamp)
    requires Live(st, s, r) && Matched(r, runOp, sessionOp) && Admissible(s, sessionOp)
    ensures PairSettled(st, PutAll(st, Pair(s, r, runOp, sessionOp, now)))
  {
    MatchedEndsTogether(s, r, runOp, sessionOp, now);
    PutPair(st, s, r, UpdateRun(r, runOp, now), Update(s, sessionOp, now));
  }

  /** The store after a step that wrote no run it did not hold. */
  ghost predicate PairSettled(st: Store, after: Store) {
    && OneLiveRun(after) && Kept(st, after) && after.runs.Keys == st.runs.Keys
    && st.session.Some? && after.session.Some? && SoundSession(after.session.value)
    && after.session.value.spec.id == st.session.value.spec.id
    && PendingIn(st.session) == [] && PendingIn(after.session) == []
  }

  // ----- Reconciliation -----

  lemma FailPairSettled(st: Store, s: Session, r: Run, code: Option<int>, detail: string, now: Stamp)
    requires Live(st, s, r)
    ensures PairSettled(st, PutAll(st, FailPair(s, r, code, detail, now)))
  {
    UpdatePair(st, s, r, MarkRunFailed(code, Some(detail)), SessionOp.MarkFailed(r.id, Some(detail)), now);
  }

  lemma NothingSettled(st: Store)
    requires OneLiveRun(st) && st.session.Some? && st.session.value.activeRun.Some? && SoundSession(st.session.value)
    ensures PairSettled(st, PutAll(st, []))
  {
  }

  lemma UpdateLiveRunSettled(st: Store, r: Run, op: RunOp, now: Stamp)
    requires OneLiveRun(st) && ActiveRun(st) == Some(r) && SoundSession(st.session.value)
    requires op.MarkPendingDetail? || op.RetryLater? || (op.BindWorkload? && r.workload.None?)
    ensures PairSettled(st, PutAll(st, [PutRun(UpdateRun(r, op, now))]))
  {
    UpdateLiveRun(st, r, op, now);
  }

  lemma StartSettled(st: Store, s: Session, r: Run, obs: Observation, now: Stamp)
    requires Live(st, s, r)
    ensures PairSettled(st, PutAll(st, EnsureRunStarted(s, r, obs, now)))
  {
    NothingSettled(st);
    if r.workload.None? {
      if obs.progressExpired || (obs.admission.Ready? && obs.start.StartFailed?) {
        FailPairSettled(st, s, r, None, obs.text, now);
      } else if obs.admission.NotReady? {
        UpdateLiveRunSettled(st, r, MarkPendingDetail(Some(obs.admission.detail)), now);
      } else if obs.admission.Ready? && obs.start.Started? {
        UpdateLiveRunSettled(st, r, BindWorkload(obs.start.workload, Some(obs.text)), now);
      } else if obs.admission.Ready? && obs.start.Retryable? {
        UpdateLiveRunSettled(st, r, RetryLater(obs.start.reason), now);
      }
    }
  }

  lemma FinishSettled(st: Store, s: Session, r: Run, code: Option<int>, unexpected: string, now: Stamp)
    requires Live(st, s, r)
    ensures PairSettled(st, PutAll(st, FinishRun(s, r, code, unexpected, now)))
  {
    match ShutdownIntent(s, r) {
      case CloseSessionAfterRun =>
        UpdatePair(st, s, r, MarkCancelled(code, Some(SESSION_CLOSED)),
                   SessionOp.MarkCancelledClosed(r.id, Some(SESSION_CLOSED)), now);
      case CancelRun =>
        UpdatePair(st, s, r, MarkCancelled(code, Some(RUN_CANCELLED)),
                   SessionOp.MarkCancelledWaitingInput(r.id, Some(RUN_CANCELLED)), now);
      case NoShutdown =>
        if code == Some(0) {
          UpdatePair(st, s, r, MarkSucceeded(code, Some(RUN_COMPLETED)),
                     SessionOp.MarkWaitingInput(r.id, Some(RUN_COMPLETED)), now);
        } else {
          FailPairSettled(st, s, r, code, unexpected, now);
        }
    }
  }

  lemma RunningSettled(st: Store, s: Session, r: Run, obs: Observation, now: Stamp)
    requires Live(st, s, r) && r.workload.Some?
    ensures PairSettled(st, PutAll(st, ObserveRunning(s, r, obs, now)))
  {
    NothingSettled(st);
    if s.status != Closing {
      UpdatePair(st, s, r, MarkRunning(r.workload.value, Some(obs.text)),
                 SessionOp.MarkRunRunning(r.id, Some(obs.text)), now);
    }
  }

  /** A bound run whose workload is neither up nor gone either fails or is left as it is. */
  lemma ReconcileOther(s: Session, r: Run, obs: Observation, now: Stamp)
    requires r.workload.Some? && !RunIsTerminal(r)
    requires obs.phase.Some? ==>
               !obs.phase.value.Exited? && !obs.phase.value.Stopped? && !obs.phase.value.Running? && !obs.phase.value.Paused?
    ensures ReconcileRun(s, r, obs, now) in {[], FailPair(s, r, None, obs.text, now)}
  {
  }

  lemma ReconcileRunSettled(st: Store, s: Session, r: Run, obs: Observation, now: Stamp)
    requires Live(st, s, r)
    ensures PairSettled(st, PutAll(st, ReconcileRun(s, r, obs, now)))
  {
    var ws := ReconcileRun(s, r, obs, now);
    assert !RunIsTerminal(r);
    if r.workload.None? {
      assert ws == EnsureRunStarted(s, r, obs, now);
      StartSettled(st, s, r, obs, now);
    } else if obs.phase.Some? && obs.phase.value.Exited? {
      assert ws == FinishRun(s, r, Some(obs.phase.value.code), obs.text, now);
      FinishSettled(st, s, r, Some(obs.phase.value.code), obs.text, now);
    } else if obs.phase.Some? && obs.phase.value.Stopped? {
      assert ws == FinishRun(s, r, None, STOPPED_UNEXPECTEDLY, now);
      FinishSettled(st, s, r, None, STOPPED_UNEXPECTEDLY, now);
    } else if obs.phase.Some? && (obs.phase.value.Running? || obs.phase.value.Paused?) {
      assert ws == ObserveRunning(s, r, obs, now);
      RunningSettled(st, s, r, obs, now);
    } else {
      ReconcileOther(s, r, obs, now);
      NothingSettled(st);
      FailPairSettled(st, s, r, None, obs.text, now);
    }
  }

  lemma {:induction false} PutAllAppend(st: Store, a: seq<Write>, b: seq<Write>)
    ensures PutAll(st, a + b) == PutAll(PutAll(st, a), b)
    decreases |a|
  {
    if a == [] {
      assert a + b == b;
    } else {
      assert (a + b)[1..] == a[1..] + b;
      PutAllAppend(Put(st, a[0]), a[1..], b);
    }
  }

  /** The store once a queued input has become a run. */
  ghost predicate RunCreated(st: Store, after: Store, run: Uuid, prompt: Option<string>) {
    && OneLiveRun(after) && Kept(st, after) && after.runs.Keys == st.runs.Keys + {run}
    && after.runs[run].prompt == prompt
    && st.session.Some? && after.session.Some? && SoundSession(after.session.value)
    && after.session.value.spec.id == st.session.value.spec.id && PendingIn(after.session) == []
  }

  lemma QueueCreated(st: Store, s: Session, run: Uuid, now: Stamp)
    requires OneLiveRun(st) && st.session == Some(s) && SoundSession(s) && run !in st.runs
    requires s.activeRun.None? && s.pendingInput.Some? && s.status != Closed
    ensures var r := NewRun(run, s.spec.id, s.pendingInput, now);
            var queued := Update(s, SessionOp.MarkRunQueued(run), now);
            var after := PutAll(st, [PutRun(r), PutSession(queued)]);
            RunCreated(st, after, run, s.pendingInput) && after.session == Some(queued) && ActiveRun(after) == Some(r)
  {
    var r, queued := NewRun(run, s.spec.id, s.pendingInput, now), Update(s, SessionOp.MarkRunQueued(run), now);
    NormalizeResult(s.pendingInput);
    UpdateKeepsWellFormed(s, SessionOp.MarkRunQueued(run), now);
    PutTwo(st, PutRun(r), PutSession(queued));
  }

  lemma CreatedThenSettled(st: Store, mid: Store, after: Store, run: Uuid, prompt: Option<string>)
    requires RunCreated(st, mid, run, prompt) && PairSettled(mid, after)
    requires st.session.value.status != Closed
    ensures RunCreated(st, after, run, prompt)
  {
    forall id | id in st.runs ensures id in after.runs && RunKept(st.runs[id], after.runs[id]) {
      assert RunKept(st.runs[id], mid.runs[id]) && RunKept(mid.runs[id], after.runs[id]);
    }
  }

  lemma CreateRunSettled(st: Store, s: Session, obs: Observation, now: Stamp)
    requires OneLiveRun(st) && st.session == Some(s) && SoundSession(s) && obs.newRun !in st.runs
    requires s.activeRun.None? && s.pendingInput.Some? && s.status != Closed
    ensures RunCreated(st, PutAll(st, CreateRun(s, obs, now)), obs.newRun, s.pendingInput)
  {
    var r := NewRun(obs.newRun, s.spec.id, s.pendingInput, now);
    var queued := Update(s, SessionOp.MarkRunQueued(obs.newRun), now);
    var two := [PutRun(r), PutSession(queued)];
    QueueCreated(st, s, obs.newRun, now);
    StartSettled(PutAll(st, two), queued, r, obs, now);
    PutAllAppend(st, two, EnsureRunStarted(queued, r, obs, now));
    CreatedThenSettled(st, PutAll(st, two), PutAll(PutAll(st, two), EnsureRunStarted(queued, r, obs, now)),
                       obs.newRun, s.pendingInput);
  }

  // ----- One step -----

  /** The invariant after a step, and what the step keeps. */
  ghost predicate StepHolds(sys: System, q: Request, now: Stamp) {
    var after := Step(sys, q, now);
    && Inv(after)
    && (Kept(sys.store, after.store) || Gone(after))
    && after.store.runs.Keys <= sys.store.runs.Keys + (if q.Reconcile? then {q.obs.newRun} else {})
  }

  /** A step that settles nothing and takes nothing in. */
  lemma QuietStep(sys: System, q: Request, now: Stamp)
    requires Inv(sys) && Enabled(sys, q) && !q.Submit? && !q.Input?
    requires PairSettled(sys.store, PutAll(sys.store, Writes(Handle(q, sys.store.session, ActiveRun(sys.store), now))))
    ensures StepHolds(sys, q, now)
  {
    var after := Step(sys, q, now);
    assert SettledBy(q, sys.store, after.store) == [];
    assert after.settled == sys.settled && after.accepted == sys.accepted;
  }

  /** A step that writes nothing. */
  lemma IdleStep(sys: System, q: Request, now: Stamp)
    requires Inv(sys) && Enabled(sys, q) && !q.Submit?
    requires Writes(Handle(q, sys.store.session, ActiveRun(sys.store), now)) == []
    ensures StepHolds(sys, q, now)
  {
    var after := Step(sys, q, now);
    assert after.store == sys.store;
    assert SettledBy(q, sys.store, after.store) == [];
    assert AcceptedBy(q, Handle(q, sys.store.session, ActiveRun(sys.store), now)) == [];
    assert after.settled == sys.settled && after.accepted == sys.accepted;
  }

  lemma ReconcileStep(sys: System, obs: Observation, now: Stamp)
    requires Inv(sys) && obs.newRun !in sys.used
    ensures StepHolds(sys, Reconcile(obs), now)
  {
    var st := sys.store;
    if st.session.None? {
      IdleStep(sys, Reconcile(obs), now);
    } else {
      var s := st.session.value;
      if s.activeRun.Some? {
        ReconcileRunSettled(st, s, st.runs[s.activeRun.value], obs, now);
        QuietStep(sys, Reconcile(obs), now);
      } else if s.pendingInput.Some? && s.status != Closed {
        CreateRunSettled(st, s, obs, now);
        CreateStep(sys, s, obs, now);
      } else {
        IdleStep(sys, Reconcile(obs), now);
      }
    }
  }

  lemma CreateStep(sys: System, s: Session, obs: Observation, now: Stamp)
    requires Inv(sys) && obs.newRun !in sys.used && sys.store.session == Some(s)
    requires s.activeRun.None? && s.pendingInput.Some? && s.status != Closed
    requires RunCreated(sys.store, PutAll(sys.store, CreateRun(s, obs, now)), obs.newRun, s.pendingInput)
    ensures StepHolds(sys, Reconcile(obs), now)
  {
    var after := Step(sys, Reconcile(obs), now);
    assert after.store == PutAll(sys.store, CreateRun(s, obs, now));
    assert SettledBy(Reconcile(obs), sys.store, after.store) == [BecameRun(obs.newRun, s.pendingInput)];
    assert Texts(after.settled) == Texts(sys.settled) + [s.pendingInput.value];
    assert after.accepted == sys.accepted;
  }

  /** The session alone is written, with no active run before or after. */
  lemma PutIdleSession(st: Store, s: Session, t: Session)
    requires OneLiveRun(st) && st.session == Some(s) && s.activeRun.None? && s.status != Closed
    requires t.activeRun.None? && SoundSession(t)
    ensures var after := PutAll(st, [PutSession(t)]);
            OneLiveRun(after) && Kept(st, after) && after == st.(session := Some(t))
  {
    PutOne(st, PutSession(t));
  }

  lemma InputStep(sys: System, text: string, now: Stamp)
    requires Inv(sys)
    ensures StepHolds(sys, Input(text), now)
  {
    var st := sys.store;
    if SubmitInput(st.session, text, now).Rejected? {
      IdleStep(sys, Input(text), now);
    } else {
      var s, input := st.session.value, NormalizeText(text).value;
      var t := Update(s, SessionOp.QueueInput(input), now);
      NormalizeResult(Some(text));
      UpdateKeepsWellFormed(s, SessionOp.QueueInput(input), now);
      PutIdleSession(st, s, t);
      var after := Step(sys, Input(text), now);
      assert after.settled == sys.settled;
      assert after.accepted == sys.accepted + [input];
      assert PendingIn(st.session) == [] && PendingIn(after.store.session) == [input];
    }
  }

  /** A cancel or close of a session with no active run drops its pending input. */
  lemma DropStep(sys: System, q: Request, op: SessionOp, now: Stamp)
    requires Inv(sys) && (q.Cancel? || q.CloseRequest?) && (op.CancelPendingInput? || op.Close?)
    requires sys.store.session.Some? && Admissible(sys.store.session.value, op)
    requires Handle(q, sys.store.session, ActiveRun(sys.store), now)
               == Done([PutSession(Update(sys.store.session.value, op, now))])
    ensures StepHolds(sys, q, now)
  {
    var st := sys.store;
    var s := st.session.value;
    UpdateKeepsWellFormed(s, op, now);
    PutIdleSession(st, s, Update(s, op, now));
    var after := Step(sys, q, now);
    assert PendingIn(after.store.session) == [];
    if s.pendingInput.Some? {
      assert SettledBy(q, st, after.store) == [DroppedInput(s.pendingInput.value)];
      assert Texts(after.settled) == Texts(sys.settled) + PendingIn(st.session);
    } else {
      assert SettledBy(q, st, after.store) == [];
      assert after.settled == sys.settled;
    }
    assert after.accepted == sys.accepted;
  }

  lemma CancelStep(sys: System, now: Stamp)
    requires Inv(sys)
    ensures StepHolds(sys, Cancel, now)
  {
    var st := sys.store;
    if CancelSession(st.session, ActiveRun(st), now).Rejected? {
      IdleStep(sys, Cancel, now);
    } else {
      var s := st.session.value;
      if s.activeRun.None? {
        DropStep(sys, Cancel, SessionOp.CancelPendingInput(Some(INPUT_CANCELLED)), now);
      } else {
        var r := st.runs[s.activeRun.value];
        if r.workload.Some? {
          UpdatePair(st, s, r, RequestCancel(Some(CANCEL_REQUESTED)),
                     SessionOp.MarkCancelRequested(r.id, Some(CANCEL_REQUESTED)), now);
        } else {
          UpdatePair(st, s, r, MarkCancelled(None, Some(CANCELLED_BEFORE_START)),
                     SessionOp.MarkCancelledWaitingInput(r.id, Some(CANCELLED_BEFORE_START)), now);
        }
        QuietStep(sys, Cancel, now);
      }
    }
  }

  lemma CloseStep(sys: System, now: Stamp)
    requires Inv(sys)
    ensures StepHolds(sys, CloseRequest, now)
  {
    var st := sys.store;
    if st.session.None? || st.session.value.status == Closed {
      IdleStep(sys, CloseRequest, now);
    } else {
      var s := st.session.value;
      if s.activeRun.None? {
        DropStep(sys, CloseRequest, SessionOp.Close(Some(SESSION_CLOSED)), now);
      } else {
        var r := st.runs[s.activeRun.value];
        if r.workload.Some? {
          UpdatePair(st, s, r, RequestCancel(Some(CLOSE_REQUESTED)), SessionOp.RequestClose(Some(CLOSE_REQUESTED)), now);
        } else {
          UpdatePair(st, s, r, MarkCancelled(None, Some(CLOSED_BEFORE_START)),
                     SessionOp.MarkCancelledClosed(r.id, Some(SESSION_CLOSED)), now);
        }
        QuietStep(sys, CloseRequest, now);
      }
    }
  }

  function Removals(runs: seq<Uuid>): seq<Write> {
    seq(|runs|, i requires 0 <= i < |runs| => Remove(runs[i]))
  }

  lemma {:induction false} RemoveRuns(st: Store, runs: seq<Uuid>)
    requires st.session.Some? && st.session.value.spec.id !in runs
    ensures PutAll(st, Removals(runs)) == st.(runs := st.runs - set id | id in runs)
    decreases |runs|
  {
    if runs == [] {
      assert st.runs - (set id | id in runs) == st.runs;
    } else {
      var next := Put(st, Remove(runs[0]));
      assert Removals(runs)[1..] == Removals(runs[1..]);
      RemoveRuns(next, runs[1..]);
      assert (set id | id in runs) == {runs[0]} + set id | id in runs[1..];
      assert next.runs - (set id | id in runs[1..]) == st.runs - set id | id in runs;
    }
  }

  lemma DeleteStep(sys: System, runs: seq<Uuid>, now: Stamp)
    requires Inv(sys) && Enabled(sys, Delete(runs))
    ensures StepHolds(sys, Delete(runs), now)
  {
    var st := sys.store;
    if DeleteSession(st.session, runs).Rejected? {
      IdleStep(sys, Delete(runs), now);
    } else {
      var id := st.session.value.spec.id;
      assert id !in runs by {
        assert id in runs ==> id in (set i | i in runs);
      }
      RemoveRuns(st, runs);
      PutAllAppend(st, Removals(runs), [Remove(id)]);
      PutOne(PutAll(st, Removals(runs)), Remove(id));
      var after := Step(sys, Delete(runs), now);
      assert after.store.session.None? && after.store.runs == map[];
      assert SettledBy(Delete(runs), st, after.store) == [];
      assert after.settled == sys.settled && after.accepted == sys.accepted;
    }
  }

  lemma SubmitStep(sys: System, spec: SessionSpec, initialInput: Option<string>, now: Stamp)
    requires Inv(sys) && Enabled(sys, Submit(spec, initialInput))
    ensures StepHolds(sys, Submit(spec, initialInput), now)
  {
    var s := NewSession(spec, initialInput, now);
    PutOne(sys.store, PutSession(s));
    NormalizeResult(initialInput);
    NewSessionIsWellFormed(spec, initialInput, now);
    assert s.pendingInput == Normalize(initialInput) && s.activeRun.None? && s.spec.id == spec.id;
    var after := Step(sys, Submit(spec, initialInput), now);
    assert after.settled == sys.settled;
  }

  lemma StepKeeps(sys: System, q: Request, now: Stamp)
    requires Inv(sys)
    ensures StepHolds(sys, q, now)
  {
    if Enabled(sys, q) {
      match q {
        case Submit(spec, initialInput) => SubmitStep(sys, spec, initialInput, now);
        case Input(text) => InputStep(sys, text, now);
        case Cancel => CancelStep(sys, now);
        case CloseRequest => CloseStep(sys, now);
        case Delete(runs) => DeleteStep(sys, runs, now);
        case Reconcile(obs) => ReconcileStep(sys, obs, now);
      }
    }
  }

  // ----- Whole runs -----

  lemma GoneStays(sys: System, q: Request, now: Stamp)
    requires Gone(sys)
    ensures Gone(Step(sys, q, now))
  {
  }

  lemma KeptTransitive(a: Store, b: Store, c: Store)
    requires Kept(a, b) && Kept(b, c)
    ensures Kept(a, c)
  {
    forall id | id in a.runs ensures id in c.runs && RunKept(a.runs[id], c.runs[id]) {
      assert RunKept(a.runs[id], b.runs[id]) && RunKept(b.runs[id], c.runs[id]);
    }
  }

  /** From any sound state, whatever requests follow: the state stays sound, and unless the session
      is deleted every run is still there, ended runs and a closed session are as they were, and a
      bound workload is still bound to its run. */
  lemma {:induction false} EndedStaysEnded(sys: System, qs: seq<TimedRequest>)
    requires Inv(sys)
    ensures var last := RunFrom(sys, qs); Inv(last) && (Kept(sys.store, last.store) || Gone(last))
  {
    if qs != [] {
      var n := |qs| - 1;
      var before := RunFrom(sys, qs[..n]);
      EndedStaysEnded(sys, qs[..n]);
      StepKeeps(before, qs[n].q, qs[n].now);
      if Gone(before) {
        GoneStays(before, qs[n].q, qs[n].now);
      } else if Kept(before.store, RunFrom(sys, qs).store) {
        KeptTransitive(sys.store, before.store, RunFrom(sys, qs).store);
      }
    }
  }

  /** In every run from nothing, the inputs accepted are, in order, those that became the prompt of
      a run or were dropped by a cancel or close, and then the one still pending; and two live runs
      are the same run. */
  lemma InputsAreConserved(qs: seq<TimedRequest>)
    ensures var last := RunFrom(NOTHING, qs);
            && last.accepted == Texts(last.settled) + PendingIn(last.store.session)
            && (forall i, j :: i in LiveRuns(last.store) && j in LiveRuns(last.store) ==> i == j)
  {
    EndedStaysEnded(NOTHING, qs);
  }

  /** Every stored run is one that an input became, with that input as its prompt. */
  ghost predicate Explained(st: Store, settled: seq<Fate>) {
    forall id :: id in st.runs ==> BecameRun(id, st.runs[id].prompt) in settled
  }

  /** No two inputs became the same run. */
  ghost predicate DistinctRuns(settled: seq<Fate>, used: set<Uuid>) {
    && (forall i :: 0 <= i < |settled| && settled[i].BecameRun? ==> settled[i].run in used)
    && (forall i, j :: 0 <= i < j < |settled| && settled[i].BecameRun? && settled[j].BecameRun? ==>
          settled[i].run != settled[j].run)
  }

  lemma DistinctRunsExtend(settled: seq<Fate>, used: set<Uuid>, more: seq<Fate>, used': set<Uuid>)
    requires DistinctRuns(settled, used) && used <= used' && |more| <= 1
    requires more != [] && more[0].BecameRun? ==> more[0].run in used' - used
    ensures DistinctRuns(settled + more, used')
  {
  }

  lemma StepExplains(sys: System, q: Request, now: Stamp)
    requires Inv(sys) && Explained(sys.store, sys.settled)
    ensures Explained(Step(sys, q, now).store, Step(sys, q, now).settled)
  {
    var after := Step(sys, q, now);
    StepKeeps(sys, q, now);
    if Enabled(sys, q) && !Gone(after) {
      forall id | id in after.store.runs ensures BecameRun(id, after.store.runs[id].prompt) in after.settled {
        if id in sys.store.runs {
          assert RunKept(sys.store.runs[id], after.store.runs[id]);
        } else {
          assert SettledBy(q, sys.store, after.store) == [BecameRun(id, after.store.runs[id].prompt)];
        }
      }
    }
  }

  lemma StepDistinct(sys: System, q: Request, now: Stamp)
    requires DistinctRuns(sys.settled, sys.used)
    ensures DistinctRuns(Step(sys, q, now).settled, Step(sys, q, now).used)
  {
    if Enabled(sys, q) {
      var after := Step(sys, q, now);
      DistinctRunsExtend(sys.settled, sys.used, SettledBy(q, sys.store, after.store), after.used);
    }
  }

  /** In every run from nothing, each stored run carries as its prompt the accepted input it was
      created for, and no two inputs share a run. */
  lemma {:induction false} RunsAreExplained(qs: seq<TimedRequest>)
    ensures var last := RunFrom(NOTHING, qs);
            Explained(last.store, last.settled) && DistinctRuns(last.settled, last.used)
  {
    if qs != [] {
      var n := |qs| - 1;
      RunsAreExplained(qs[..n]);
      EndedStaysEnded(NOTHING, qs[..n]);
      StepExplains(RunFrom(NOTHING, qs[..n]), qs[n].q, qs[n].now);
      StepDistinct(RunFrom(NOTHING, qs[..n]), qs[n].q, qs[n].now);
    }
  }
}

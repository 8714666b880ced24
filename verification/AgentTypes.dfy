/** Agent sessions and runs: the durable records and their lifecycle updates
    (src/agents/types.rs). */
module AgentTypes {
  import opened Basics
  import opened Text

  const MAX_AGENT_EVENTS := 64
  const MAX_U64 := 0xFFFF_FFFF_FFFF_FFFF

  /** A saturating increment of a 64-bit counter. */
  function Bump(n: nat): nat {
    if n < MAX_U64 then n + 1 else n
  }

  /** A timestamp text and the instant it parses to, if it does. */
  datatype Stamp = Stamp(text: string, instant: Option<int>)

  datatype EventKind =
    | UserInput | NeedInput | RunQueuedEvent | RunStarted | RunCompleted | RunFailedEvent | RunCancelled
    | ToolCall | ToolResult | CheckpointSaved | SessionOpened | SessionClosed

  datatype Event = Event(sequence: nat, createdAt: Stamp, kind: EventKind, runId: Option<Uuid>,
                         message: Option<string>, toolName: Option<string>)

  datatype SessionStatus = WaitingInput | Queued | Running | Failed | Closing | Closed
  {
    function Rank(): nat {
      match this
      case WaitingInput => 0
      case Queued => 1
      case Running => 2
      case Failed => 3
      case Closing => 4
      case Closed => 5
    }
  }

  datatype Mount = Mount(volumeId: Uuid, volumeName: string, target: string, readOnly: bool)

  /** The definition of a session, fixed at submission. `execution` stands for the execution
      template, platform, isolation mode and the deployment and admission policies. */
  datatype SessionSpec = SessionSpec(
    id: Uuid, name: string, execution: nat, isolationProfile: Option<string>, createdAt: Stamp,
    workspaceMount: Option<Mount>, workingDirectory: Option<string>, workspacePersistent: bool,
    allowedTools: seq<string>, allowNetwork: bool, allowPty: bool, allowWrite: bool,
    checkpointEnabled: bool, checkpointInterval: Option<nat>, checkpointMount: Option<Mount>,
    requireInput: bool, maxTurns: nat, idleTimeout: Option<nat>)

  datatype Session = Session(
    spec: SessionSpec, updatedAt: Stamp, phaseVersion: nat, status: SessionStatus,
    statusDetail: Option<string>, activeRun: Option<Uuid>, lastRun: Option<Uuid>,
    pendingInput: Option<string>, eventSequence: nat, events: seq<Event>)

  // ----- The bounded event log -----

  /** The most recent entries that fit. */
  function KeepRecent(events: seq<Event>): seq<Event> {
    if |events| > MAX_AGENT_EVENTS then events[|events| - MAX_AGENT_EVENTS..] else events
  }

  function NextEvent(s: Session, kind: EventKind, run: Option<Uuid>, message: Option<string>, now: Stamp): Event {
    Event(Bump(s.eventSequence), now, kind, run, Normalize(message), None)
  }

  function Push(s: Session, kind: EventKind, run: Option<Uuid>, message: Option<string>, now: Stamp): Session {
    s.(eventSequence := Bump(s.eventSequence),
       events := KeepRecent(s.events + [NextEvent(s, kind, run, message, now)]))
  }

  // ----- Session updates -----

  datatype SessionOp =
    | QueueInput(input: string)
    | MarkRunQueued(run: Uuid)
    | MarkRunRunning(run: Uuid, detail: Option<string>)
    | MarkWaitingInput(run: Uuid, detail: Option<string>)
    | MarkFailed(run: Uuid, detail: Option<string>)
    | MarkCancelRequested(run: Uuid, detail: Option<string>)
    | MarkCancelledWaitingInput(run: Uuid, detail: Option<string>)
    | MarkCancelledClosed(run: Uuid, detail: Option<string>)
    | CancelPendingInput(detail: Option<string>)
    | RequestClose(detail: Option<string>)
    | Close(detail: Option<string>)

  // Fixed texts.
  const AGENT_RUN_QUEUED: Phrase
  const SANDBOX_RUN_QUEUED: Phrase
  const SANDBOX_RUN_PENDING: Phrase
  const WAITING_FOR_INPUT: Phrase
  const WAITING_FOR_MORE_INPUT: Phrase

  function DecimalDigit(d: nat): char
    requires d < 10
  {
    "0123456789"[d]
  }

  function IdText(id: Uuid): string {
    if id < 10 then [DecimalDigit(id)] else IdText(id / 10) + [DecimalDigit(id % 10)]
  }

  function Update(s: Session, op: SessionOp, now: Stamp): Session {
    var t := s.(phaseVersion := Bump(s.phaseVersion));
    match op
    case QueueInput(input) =>
      var u := t.(status := Queued, statusDetail := Some(AGENT_RUN_QUEUED), pendingInput := Some(input));
      Push(u, UserInput, None, Some(input), now).(updatedAt := now)
    case MarkRunQueued(run) =>
      var u := t.(status := Queued, statusDetail := Some("agent run " + IdText(run) + " queued"),
                  activeRun := Some(run), lastRun := Some(run), pendingInput := None);
      Push(u, RunQueuedEvent, Some(run), Some(SANDBOX_RUN_QUEUED), now).(updatedAt := now)
    case MarkRunRunning(run, detail) =>
      var u := t.(status := Running, statusDetail := Normalize(detail), activeRun := Some(run), lastRun := Some(run));
      Push(u, RunStarted, Some(run), u.statusDetail, now).(updatedAt := now)
    case MarkWaitingInput(run, detail) =>
      var u := t.(status := WaitingInput, statusDetail := Normalize(detail), activeRun := None, lastRun := Some(run));
      Push(Push(u, RunCompleted, Some(run), u.statusDetail, now), NeedInput, None, Some(WAITING_FOR_MORE_INPUT), now).(updatedAt := now)
    case MarkFailed(run, detail) =>
      var u := t.(status := Failed, statusDetail := Normalize(detail), activeRun := None, lastRun := Some(run));
      Push(u, RunFailedEvent, Some(run), u.statusDetail, now).(updatedAt := now)
    case MarkCancelRequested(run, detail) =>
      t.(status := if t.status == Running then Running else Queued, statusDetail := Normalize(detail),
         activeRun := Some(run), lastRun := Some(run), pendingInput := None, updatedAt := now)
    case MarkCancelledWaitingInput(run, detail) =>
      var u := t.(status := WaitingInput, statusDetail := Normalize(detail), activeRun := None, lastRun := Some(run),
                  pendingInput := None);
      Push(Push(u, RunCancelled, Some(run), u.statusDetail, now), NeedInput, None, Some(WAITING_FOR_MORE_INPUT), now).(updatedAt := now)
    case MarkCancelledClosed(run, detail) =>
      var u := t.(status := Closed, statusDetail := Normalize(detail), activeRun := None, lastRun := Some(run),
                  pendingInput := None);
      Push(Push(u, RunCancelled, Some(run), u.statusDetail, now), SessionClosed, None, u.statusDetail, now)
        .(updatedAt := now)
    case CancelPendingInput(detail) =>
      var u := t.(status := WaitingInput, statusDetail := Normalize(detail), activeRun := None, pendingInput := None);
      Push(u, NeedInput, None, Some(WAITING_FOR_MORE_INPUT), now).(updatedAt := now)
    case RequestClose(detail) =>
      t.(status := Closing, statusDetail := Normalize(detail), pendingInput := None, updatedAt := now)
    case Close(detail) =>
      var u := t.(status := Closed, statusDetail := Normalize(detail), activeRun := None, pendingInput := None);
      Push(u, SessionClosed, None, u.statusDetail, now).(updatedAt := now)
  }

  function NewSession(spec: SessionSpec, initialInput: Option<string>, now: Stamp): Session {
    var normal := spec.(isolationProfile := Normalize(spec.isolationProfile), createdAt := now);
    var s := Push(Session(normal, now, 0, WaitingInput, None, None, None, None, 0, []), SessionOpened, None, None, now);
    match Normalize(initialInput)
    case Some(input) => Update(s, QueueInput(input), now)
    case None => Push(s, NeedInput, None, Some(WAITING_FOR_INPUT), now)
  }

  // ----- The record as an object -----

  /** The mutable session record; each method is the field updates of the source. */
  class AgentSession {
    const spec: SessionSpec
    var updatedAt: Stamp
    var phaseVersion: nat
    var status: SessionStatus
    var statusDetail: Option<string>
    var activeRun: Option<Uuid>
    var lastRun: Option<Uuid>
    var pendingInput: Option<string>
    var eventSequence: nat
    var events: seq<Event>

    function Value(): Session
      reads this
    {
      Session(spec, updatedAt, phaseVersion, status, statusDetail, activeRun, lastRun, pendingInput, eventSequence, events)
    }

    /** A clone of a stored value. */
    constructor (s: Session)
      ensures Value() == s
    {
      spec, updatedAt, phaseVersion, status := s.spec, s.updatedAt, s.phaseVersion, s.status;
      statusDetail, activeRun, lastRun := s.statusDetail, s.activeRun, s.lastRun;
      pendingInput, eventSequence, events := s.pendingInput, s.eventSequence, s.events;
    }

    /** A new session, with its first input queued when there is one. */
    constructor Open(definition: SessionSpec, initialInput: Option<string>, now: Stamp)
      ensures Value() == NewSession(definition, initialInput, now)
    {
      spec := definition.(isolationProfile := Normalize(definition.isolationProfile), createdAt := now);
      updatedAt, phaseVersion, status, statusDetail := now, 0, WaitingInput, None;
      activeRun, lastRun, pendingInput, eventSequence, events := None, None, None, 0, [];
      new;
      PushEvent(SessionOpened, None, None, now);
      var input := Normalize(initialInput);
      if input.Some? {
        QueueInput(input.value, now);
      } else {
        PushEvent(NeedInput, None, Some(WAITING_FOR_INPUT), now);
      }
    }

    method PushEvent(kind: EventKind, run: Option<Uuid>, message: Option<string>, now: Stamp)
      modifies this
      ensures Value() == Push(old(Value()), kind, run, message, now)
    {
      eventSequence := Bump(eventSequence);
      events := events + [Event(eventSequence, now, kind, run, Normalize(message), None)];
      if |events| > MAX_AGENT_EVENTS {
        var excess := |events| - MAX_AGENT_EVENTS;
        events := events[excess..];
      }
    }

    /** Two events, one after the other. */
    method PushEvents(first: Note, second: Note, now: Stamp)
      modifies this
      ensures Value() == Push(Push(old(Value()), first.kind, first.run, first.message, now),
                              second.kind, second.run, second.message, now)
    {
      PushEvent(first.kind, first.run, first.message, now);
      PushEvent(second.kind, second.run, second.message, now);
    }

    method QueueInput(input: string, now: Stamp)
      modifies this
      ensures Value() == Update(old(Value()), SessionOp.QueueInput(input), now)
    {
      phaseVersion := Bump(phaseVersion);
      status, statusDetail, pendingInput := Queued, Some(AGENT_RUN_QUEUED), Some(input);
      PushEvent(UserInput, None, Some(input), now);
      updatedAt := now;
    }

    method MarkRunQueued(run: Uuid, now: Stamp)
      modifies this
      ensures Value() == Update(old(Value()), SessionOp.MarkRunQueued(run), now)
    {
      phaseVersion := Bump(phaseVersion);
      status, statusDetail := Queued, Some("agent run " + IdText(run) + " queued");
      activeRun, lastRun, pendingInput := Some(run), Some(run), None;
      PushEvent(RunQueuedEvent, Some(run), Some(SANDBOX_RUN_QUEUED), now);
      updatedAt := now;
    }

    method MarkRunRunning(run: Uuid, detail: Option<string>, now: Stamp)
      modifies this
      ensures Value() == Update(old(Value()), SessionOp.MarkRunRunning(run, detail), now)
    {
      phaseVersion := Bump(phaseVersion);
      status, statusDetail, activeRun, lastRun := Running, Normalize(detail), Some(run), Some(run);
      PushEvent(RunStarted, Some(run), statusDetail, now);
      updatedAt := now;
    }

    method MarkWaitingInput(run: Uuid, detail: Option<string>, now: Stamp)
      modifies this
      ensures Value() == Update(old(Value()), SessionOp.MarkWaitingInput(run, detail), now)
    {
      phaseVersion := Bump(phaseVersion);
      status, statusDetail, activeRun, lastRun := WaitingInput, Normalize(detail), None, Some(run);
      PushEvents(Note(RunCompleted, Some(run), statusDetail), Note(NeedInput, None, Some(WAITING_FOR_MORE_INPUT)), now);
      updatedAt := now;
    }

    method MarkFailed(run: Uuid, detail: Option<string>, now: Stamp)
      modifies this
      ensures Value() == Update(old(Value()), SessionOp.MarkFailed(run, detail), now)
    {
      phaseVersion := Bump(phaseVersion);
      status, statusDetail, activeRun, lastRun := Failed, Normalize(detail), None, Some(run);
      PushEvent(RunFailedEvent, Some(run), statusDetail, now);
      updatedAt := now;
    }

    method MarkCancelRequested(run: Uuid, detail: Option<string>, now: Stamp)
      modifies this
      ensures Value() == Update(old(Value()), SessionOp.MarkCancelRequested(run, detail), now)
    {
      phaseVersion := Bump(phaseVersion);
      if status != Running {
        status := Queued;
      }
      statusDetail, activeRun, lastRun, pendingInput := Normalize(detail), Some(run), Some(run), None;
      updatedAt := now;
    }

    method MarkCancelledWaitingInput(run: Uuid, detail: Option<string>, now: Stamp)
      modifies this
      ensures Value() == Update(old(Value()), SessionOp.MarkCancelledWaitingInput(run, detail), now)
    {
      phaseVersion := Bump(phaseVersion);
      status, statusDetail, activeRun, lastRun, pendingInput := WaitingInput, Normalize(detail), None, Some(run), None;
      PushEvents(Note(RunCancelled, Some(run), statusDetail), Note(NeedInput, None, Some(WAITING_FOR_MORE_INPUT)), now);
      updatedAt := now;
    }

    method MarkCancelledClosed(run: Uuid, detail: Option<string>, now: Stamp)
      modifies this
      ensures Value() == Update(old(Value()), SessionOp.MarkCancelledClosed(run, detail), now)
    {
      phaseVersion := Bump(phaseVersion);
      status, statusDetail, activeRun, lastRun, pendingInput := Closed, Normalize(detail), None, Some(run), None;
      PushEvents(Note(RunCancelled, Some(run), statusDetail), Note(SessionClosed, None, statusDetail), now);
      updatedAt := now;
    }

    method CancelPendingInput(detail: Option<string>, now: Stamp)
      modifies this
      ensures Value() == Update(old(Value()), SessionOp.CancelPendingInput(detail), now)
    {
      phaseVersion := Bump(phaseVersion);
      status, statusDetail, activeRun, pendingInput := WaitingInput, Normalize(detail), None, None;
      PushEvent(NeedInput, None, Some(WAITING_FOR_MORE_INPUT), now);
      updatedAt := now;
    }

    method RequestClose(detail: Option<string>, now: Stamp)
      modifies this
      ensures Value() == Update(old(Value()), SessionOp.RequestClose(detail), now)
    {
      phaseVersion := Bump(phaseVersion);
      status, statusDetail, pendingInput := Closing, Normalize(detail), None;
      updatedAt := now;
    }

    method Close(detail: Option<string>, now: Stamp)
      modifies this
      ensures Value() == Update(old(Value()), SessionOp.Close(detail), now)
    {
      phaseVersion := Bump(phaseVersion);
      status, statusDetail, activeRun, pendingInput := Closed, Normalize(detail), None, None;
      PushEvent(SessionClosed, None, statusDetail, now);
      updatedAt := now;
    }
  }

  // ----- Runs -----

  datatype RunStatus = RunPending | RunRunning | RunSucceeded | RunFailed | RunCancelledStatus
  {
    function Rank(): nat {
      match this
      case RunPending => 0
      case RunRunning => 1
      case RunCancelledStatus => 2
      case RunFailed => 3
      case RunSucceeded => 4
    }
  }

  datatype Run = Run(id: Uuid, sessionId: Uuid, createdAt: Stamp, updatedAt: Stamp, phaseVersion: nat,
                     status: RunStatus, statusDetail: Option<string>, workload: Option<Uuid>,
                     prompt: Option<string>, exitCode: Option<int>, startedAt: Option<Stamp>, finishedAt: Option<Stamp>)

  function NewRun(id: Uuid, sessionId: Uuid, prompt: Option<string>, now: Stamp): Run {
    Run(id, sessionId, now, now, 0, RunPending, Some(SANDBOX_RUN_PENDING), None, Normalize(prompt), None, None, None)
  }

  datatype RunOp =
    | MarkPendingDetail(detail: Option<string>)
    | BindWorkload(workload: Uuid, detail: Option<string>)
    | MarkRunning(workload: Uuid, detail: Option<string>)
    | MarkSucceeded(exitCode: Option<int>, detail: Option<string>)
    | MarkRunFailed(exitCode: Option<int>, detail: Option<string>)
    | RequestCancel(detail: Option<string>)
    | MarkCancelled(exitCode: Option<int>, detail: Option<string>)
    | RetryLater(reason: string)

  function UpdateRun(r: Run, op: RunOp, now: Stamp): Run {
    var t := r.(phaseVersion := Bump(r.phaseVersion), updatedAt := now);
    match op
    case MarkPendingDetail(detail) => t.(status := RunPending, statusDetail := Normalize(detail))
    case BindWorkload(w, detail) => t.(workload := Some(w), status := RunPending, statusDetail := Normalize(detail))
    case MarkRunning(w, detail) =>
      t.(status := RunRunning, statusDetail := Normalize(detail), workload := Some(w),
         startedAt := if t.startedAt.None? then Some(now) else t.startedAt)
    case MarkSucceeded(code, detail) =>
      t.(status := RunSucceeded, statusDetail := Normalize(detail), exitCode := code, finishedAt := Some(now))
    case MarkRunFailed(code, detail) =>
      t.(status := RunFailed, statusDetail := Normalize(detail), exitCode := code, finishedAt := Some(now))
    case RequestCancel(detail) => t.(statusDetail := Normalize(detail))
    case MarkCancelled(code, detail) =>
      t.(status := RunCancelledStatus, statusDetail := Normalize(detail), exitCode := code, finishedAt := Some(now))
    case RetryLater(reason) => r.(statusDetail := Some(reason), updatedAt := now)
  }

  /** The mutable run record. */
  class AgentRun {
    const id: Uuid
    const sessionId: Uuid
    const createdAt: Stamp
    const prompt: Option<string>
    var updatedAt: Stamp
    var phaseVersion: nat
    var status: RunStatus
    var statusDetail: Option<string>
    var workload: Option<Uuid>
    var exitCode: Option<int>
    var startedAt: Option<Stamp>
    var finishedAt: Option<Stamp>

    function Value(): Run
      reads this
    {
      Run(id, sessionId, createdAt, updatedAt, phaseVersion, status, statusDetail, workload, prompt, exitCode,
          startedAt, finishedAt)
    }

    /** A clone of a stored value. */
    constructor (r: Run)
      ensures Value() == r
    {
      id, sessionId, createdAt, prompt, updatedAt := r.id, r.sessionId, r.createdAt, r.prompt, r.updatedAt;
      phaseVersion, status, statusDetail, workload := r.phaseVersion, r.status, r.statusDetail, r.workload;
      exitCode, startedAt, finishedAt := r.exitCode, r.startedAt, r.finishedAt;
    }

    method MarkPendingDetail(detail: Option<string>, now: Stamp)
      modifies this
      ensures Value() == UpdateRun(old(Value()), RunOp.MarkPendingDetail(detail), now)
    {
      phaseVersion := Bump(phaseVersion);
      status, statusDetail := RunPending, Normalize(detail);
      updatedAt := now;
    }

    method BindWorkload(w: Uuid, detail: Option<string>, now: Stamp)
      modifies this
      ensures Value() == UpdateRun(old(Value()), RunOp.BindWorkload(w, detail), now)
    {
      phaseVersion := Bump(phaseVersion);
      workload, status, statusDetail := Some(w), RunPending, Normalize(detail);
      updatedAt := now;
    }

    method MarkRunning(w: Uuid, detail: Option<string>, now: Stamp)
      modifies this
      ensures Value() == UpdateRun(old(Value()), RunOp.MarkRunning(w, detail), now)
    {
      phaseVersion := Bump(phaseVersion);
      status, statusDetail, workload := RunRunning, Normalize(detail), Some(w);
      if startedAt.None? {
        startedAt := Some(now);
      }
      updatedAt := now;
    }

    method MarkSucceeded(code: Option<int>, detail: Option<string>, now: Stamp)
      modifies this
      ensures Value() == UpdateRun(old(Value()), RunOp.MarkSucceeded(code, detail), now)
    {
      phaseVersion := Bump(phaseVersion);
      status, statusDetail, exitCode, finishedAt := RunSucceeded, Normalize(detail), code, Some(now);
      updatedAt := now;
    }

    method MarkFailed(code: Option<int>, detail: Option<string>, now: Stamp)
      modifies this
      ensures Value() == UpdateRun(old(Value()), RunOp.MarkRunFailed(code, detail), now)
    {
      phaseVersion := Bump(phaseVersion);
      status, statusDetail, exitCode, finishedAt := RunFailed, Normalize(detail), code, Some(now);
      updatedAt := now;
    }

    method RequestCancel(detail: Option<string>, now: Stamp)
      modifies this
      ensures Value() == UpdateRun(old(Value()), RunOp.RequestCancel(detail), now)
    {
      phaseVersion := Bump(phaseVersion);
      statusDetail := Normalize(detail);
      updatedAt := now;
    }

    method MarkCancelled(code: Option<int>, detail: Option<string>, now: Stamp)
      modifies this
      ensures Value() == UpdateRun(old(Value()), RunOp.MarkCancelled(code, detail), now)
    {
      phaseVersion := Bump(phaseVersion);
      status, statusDetail, exitCode, finishedAt := RunCancelledStatus, Normalize(detail), code, Some(now);
      updatedAt := now;
    }
  }

  predicate RunIsTerminal(r: Run) {
    r.status.RunSucceeded? || r.status.RunFailed? || r.status.RunCancelledStatus?
  }

  // ----- Well-formed sessions -----

  /** Which statuses carry an active run and which carry a pending input. */
  predicate WellFormed(s: Session) {
    && (s.status.WaitingInput? || s.status.Failed? || s.status.Closed? ==> s.activeRun.None? && s.pendingInput.None?)
    && (s.status.Running? || s.status.Closing? ==> s.activeRun.Some? && s.pendingInput.None?)
    && (s.status.Queued? ==> (s.activeRun.Some? <==> s.pendingInput.None?))
  }

  /** The situation in which the controller makes each update. */
  predicate Admissible(s: Session, op: SessionOp) {
    match op
    case QueueInput(input) =>
      s.activeRun.None? && !s.status.Queued? && !s.status.Running? && !s.status.Closed? && Normal(Some(input))
    case MarkRunQueued(_) => s.activeRun.None? && s.pendingInput.Some? && !s.status.Closed?
    case MarkRunRunning(run, _) => s.activeRun == Some(run) && !s.status.Closing?
    case MarkWaitingInput(run, _) => s.activeRun == Some(run)
    case MarkFailed(run, _) => s.activeRun == Some(run)
    case MarkCancelRequested(run, _) => s.activeRun == Some(run) && !s.status.Closed? && !s.status.Closing?
    case MarkCancelledWaitingInput(run, _) => s.activeRun == Some(run)
    case MarkCancelledClosed(run, _) => s.activeRun == Some(run)
    case CancelPendingInput(_) => s.activeRun.None? && s.pendingInput.Some? && !s.status.Closed?
    case RequestClose(_) => s.activeRun.Some? && !s.status.Closed?
    case Close(_) => s.activeRun.None? && !s.status.Closed?
  }

  lemma UpdateKeepsWellFormed(s: Session, op: SessionOp, now: Stamp)
    requires WellFormed(s) && Admissible(s, op)
    ensures WellFormed(Update(s, op, now)) && Update(s, op, now).spec == s.spec
  {
  }

  lemma NewSessionIsWellFormed(spec: SessionSpec, initialInput: Option<string>, now: Stamp)
    ensures WellFormed(NewSession(spec, initialInput, now))
  {
  }

  // ----- Histories -----

  datatype Timed = Timed(op: SessionOp, now: Stamp)

  datatype History = History(spec: SessionSpec, initialInput: Option<string>, openedAt: Stamp, ops: seq<Timed>)

  function Replay(h: History): Session
    decreases |h.ops|
  {
    if h.ops == [] then NewSession(h.spec, h.initialInput, h.openedAt)
    else
      var last := |h.ops| - 1;
      Update(Replay(h.(ops := h.ops[..last])), h.ops[last].op, h.ops[last].now)
  }

  /** The controller made every update of the history in its proper situation. */
  ghost predicate Proper(h: History)
    decreases |h.ops|
  {
    h.ops == [] ||
    var last := |h.ops| - 1;
    Proper(h.(ops := h.ops[..last])) && Admissible(Replay(h.(ops := h.ops[..last])), h.ops[last].op)
  }

  /** The kinds, runs and messages an update records. */
  datatype Note = Note(kind: EventKind, run: Option<Uuid>, message: Option<string>)

  function Notes(s: Session, op: SessionOp): seq<Note> {
    match op
    case QueueInput(input) => [Note(UserInput, None, Some(input))]
    case MarkRunQueued(run) => [Note(RunQueuedEvent, Some(run), Some(SANDBOX_RUN_QUEUED))]
    case MarkRunRunning(run, detail) => [Note(RunStarted, Some(run), Normalize(detail))]
    case MarkWaitingInput(run, detail) =>
      [Note(RunCompleted, Some(run), Normalize(detail)), Note(NeedInput, None, Some(WAITING_FOR_MORE_INPUT))]
    case MarkFailed(run, detail) => [Note(RunFailedEvent, Some(run), Normalize(detail))]
    case MarkCancelRequested(_, _) => []
    case MarkCancelledWaitingInput(run, detail) =>
      [Note(RunCancelled, Some(run), Normalize(detail)), Note(NeedInput, None, Some(WAITING_FOR_MORE_INPUT))]
    case MarkCancelledClosed(run, detail) =>
      [Note(RunCancelled, Some(run), Normalize(detail)), Note(SessionClosed, None, Normalize(detail))]
    case CancelPendingInput(_) => [Note(NeedInput, None, Some(WAITING_FOR_MORE_INPUT))]
    case RequestClose(_) => []
    case Close(detail) => [Note(SessionClosed, None, Normalize(detail))]
  }

  function NewNotes(initialInput: Option<string>): seq<Note> {
    [Note(SessionOpened, None, None),
     match Normalize(initialInput)
     case Some(input) => Note(UserInput, None, Some(input))
     case None => Note(NeedInput, None, Some(WAITING_FOR_INPUT))]
  }

  /** Notes turned into events numbered from `from`. */
  function Numbered(notes: seq<Note>, from: nat, now: Stamp): seq<Event> {
    seq(|notes|, i requires 0 <= i < |notes| =>
      Event(from + i, now, notes[i].kind, notes[i].run, Normalize(notes[i].message), None))
  }

  /** Everything a session ever recorded, with no bound. */
  function FullLog(h: History): seq<Event>
    decreases |h.ops|
  {
    if h.ops == [] then Numbered(NewNotes(h.initialInput), 1, h.openedAt)
    else
      var last := |h.ops| - 1;
      var before := h.(ops := h.ops[..last]);
      FullLog(before) + Numbered(Notes(Replay(before), h.ops[last].op), |FullLog(before)| + 1, h.ops[last].now)
  }

  /** The session's log is the end of the full log, and its counter the length. */
  ghost predicate LogMatches(s: Session, full: seq<Event>) {
    && s.eventSequence == |full|
    && s.events == KeepRecent(full)
    && (forall i :: 0 <= i < |full| ==> full[i].sequence == i + 1)
  }

  lemma PushMatches(s: Session, full: seq<Event>, note: Note, now: Stamp)
    requires LogMatches(s, full) && |full| < MAX_U64
    ensures LogMatches(Push(s, note.kind, note.run, note.message, now), full + Numbered([note], |full| + 1, now))
  {
    var e := Numbered([note], |full| + 1, now);
    assert e == [NextEvent(s, note.kind, note.run, note.message, now)];
    assert KeepRecent(KeepRecent(full) + e) == KeepRecent(full + e);
  }

  lemma SplitNumbered(a: Note, b: Note, from: nat, now: Stamp)
    ensures Numbered([a, b], from, now) == Numbered([a], from, now) + Numbered([b], from + 1, now)
  {
  }

  function PushNote(s: Session, note: Note, now: Stamp): Session {
    Push(s, note.kind, note.run, note.message, now)
  }

  /** An update pushes exactly its notes, one after the other. */
  lemma UpdatePushesNotes(s: Session, op: SessionOp, now: Stamp)
    ensures var notes, t := Notes(s, op), Update(s, op, now);
            var u := if |notes| == 0 then s
                     else if |notes| == 1 then PushNote(s, notes[0], now)
                     else PushNote(PushNote(s, notes[0], now), notes[1], now);
            |notes| <= 2 && t.eventSequence == u.eventSequence && t.events == u.events
  {
  }

  lemma UpdateMatches(s: Session, full: seq<Event>, op: SessionOp, now: Stamp)
    requires LogMatches(s, full) && |full| + |Notes(s, op)| <= MAX_U64
    ensures LogMatches(Update(s, op, now), full + Numbered(Notes(s, op), |full| + 1, now))
  {
    UpdatePushesNotes(s, op, now);
    NotesMatch(s, full, Notes(s, op), now);
  }

  lemma NotesMatch(s: Session, full: seq<Event>, notes: seq<Note>, now: Stamp)
    requires LogMatches(s, full) && |notes| <= 2 && |full| + |notes| <= MAX_U64
    ensures var u := if |notes| == 0 then s
                     else if |notes| == 1 then PushNote(s, notes[0], now)
                     else PushNote(PushNote(s, notes[0], now), notes[1], now);
            LogMatches(u, full + Numbered(notes, |full| + 1, now))
  {
    if |notes| == 0 {
      assert full + Numbered(notes, |full| + 1, now) == full;
    } else {
      PushMatches(s, full, notes[0], now);
      if |notes| == 1 {
        assert notes == [notes[0]];
      } else {
        var full1 := full + Numbered([notes[0]], |full| + 1, now);
        PushMatches(PushNote(s, notes[0], now), full1, notes[1], now);
        assert notes == [notes[0], notes[1]];
        SplitNumbered(notes[0], notes[1], |full| + 1, now);
        assert full1 + Numbered([notes[1]], |full1| + 1, now) == full + Numbered(notes, |full| + 1, now);
      }
    }
  }

  lemma NewMatches(spec: SessionSpec, initialInput: Option<string>, now: Stamp)
    ensures LogMatches(NewSession(spec, initialInput, now), Numbered(NewNotes(initialInput), 1, now))
  {
    var notes := NewNotes(initialInput);
    var normal := spec.(isolationProfile := Normalize(spec.isolationProfile), createdAt := now);
    var s := Session(normal, now, 0, WaitingInput, None, None, None, None, 0, []);
    PushMatches(s, [], notes[0], now);
    var s1 := Push(s, SessionOpened, None, None, now);
    assert [] + Numbered([notes[0]], 1, now) == Numbered([notes[0]], 1, now);
    PushMatches(s1, Numbered([notes[0]], 1, now), notes[1], now);
    SplitNumbered(notes[0], notes[1], 1, now);
    assert notes == [notes[0], notes[1]];
  }

  /** In every reachable session the stored log is the last 64 events at most of everything ever
      recorded, numbered consecutively, and the counter is the total. */
  lemma {:induction false} LogIsRecentHistory(h: History)
    requires |FullLog(h)| <= MAX_U64
    ensures LogMatches(Replay(h), FullLog(h))
    decreases |h.ops|
  {
    if h.ops == [] {
      NewMatches(h.spec, h.initialInput, h.openedAt);
    } else {
      var last := |h.ops| - 1;
      var before := h.(ops := h.ops[..last]);
      LogIsRecentHistory(before);
      UpdateMatches(Replay(before), FullLog(before), h.ops[last].op, h.ops[last].now);
    }
  }
}

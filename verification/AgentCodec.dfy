/** Agent sessions on the wire (src/agents/service.rs). The wire record holds the fields the writer
    sets; the event counter is not among them. */
module AgentCodec {
  import opened Basics
  import opened Text
  import opened AgentTypes

  /** Identifier data: nothing, sixteen bytes, or bytes of any other length. */
  datatype IdData = NoBytes | SixteenBytes(id: Uuid) | OtherBytes

  datatype WireMount = WireMount(volumeId: IdData, volumeName: string, target: string, readOnly: bool)

  datatype WireEvent = WireEvent(sequence: nat, createdAt: string, kind: EventKind, runId: IdData, message: string,
                                 toolName: string)

  datatype WireSession = WireSession(
    id: IdData, name: string, execution: nat, isolationProfile: string, createdAt: string, updatedAt: string,
    phaseVersion: nat, status: SessionStatus, statusDetail: string, activeRun: IdData, lastRun: IdData,
    pendingInput: string, workspaceMount: WireMount, workingDirectory: string, workspacePersistent: bool,
    allowedTools: seq<string>, allowNetwork: bool, allowPty: bool, allowWrite: bool, checkpointEnabled: bool,
    checkpointInterval: nat, checkpointMount: WireMount, requireInput: bool, maxTurns: nat, idleTimeout: nat,
    events: seq<WireEvent>)

  // ----- Writing -----

  function OrEmpty(o: Option<string>): string {
    if o.Some? then o.value else ""
  }

  function OrZero(o: Option<nat>): nat {
    if o.Some? then o.value else 0
  }

  function WriteId(o: Option<Uuid>): IdData {
    if o.Some? then SixteenBytes(o.value) else NoBytes
  }

  function WriteMount(m: Option<Mount>): WireMount {
    match m
    case Some(Mount(id, name, target, readOnly)) => WireMount(SixteenBytes(id), name, target, readOnly)
    case None => WireMount(NoBytes, "", "", false)
  }

  function WriteEvent(e: Event): WireEvent {
    WireEvent(e.sequence, e.createdAt.text, e.kind, WriteId(e.runId), OrEmpty(e.message), OrEmpty(e.toolName))
  }

  function WriteEvents(events: seq<Event>): seq<WireEvent> {
    seq(|events|, i requires 0 <= i < |events| => WriteEvent(events[i]))
  }

  function Write(s: Session): WireSession {
    var p := s.spec;
    WireSession(
      SixteenBytes(p.id), p.name, p.execution, OrEmpty(p.isolationProfile), p.createdAt.text, s.updatedAt.text,
      s.phaseVersion, s.status, OrEmpty(s.statusDetail), WriteId(s.activeRun), WriteId(s.lastRun),
      OrEmpty(s.pendingInput), WriteMount(p.workspaceMount), OrEmpty(p.workingDirectory), p.workspacePersistent,
      p.allowedTools, p.allowNetwork, p.allowPty, p.allowWrite, p.checkpointEnabled,
      OrZero(p.checkpointInterval), WriteMount(p.checkpointMount), p.requireInput, p.maxTurns, OrZero(p.idleTimeout),
      WriteEvents(s.events))
  }

  method WriteEventList(events: seq<Event>) returns (list: seq<WireEvent>)
    ensures list == WriteEvents(events)
  {
    list := [];
    for i := 0 to |events|
      invariant list == WriteEvents(events[..i])
    {
      list := list + [WriteEvent(events[i])];
    }
  }

  // ----- Reading -----

  function ReadId(data: IdData): Option<Uuid> {
    if data.SixteenBytes? then Some(data.id) else None
  }

  function ReadSeconds(n: nat): Option<nat> {
    if n == 0 then None else Some(n)
  }

  datatype Result<T> = Ok(value: T) | InvalidVolumeId

  /** Identifier data of a wrong length is an error here, and only here. */
  function ReadMount(m: WireMount): Result<Option<Mount>> {
    match m.volumeId
    case NoBytes => Ok(None)
    case OtherBytes => InvalidVolumeId
    case SixteenBytes(id) => Ok(Some(Mount(id, m.volumeName, m.target, m.readOnly)))
  }

  /** The clock, the identifier generator and the timestamp parser at the reader. */
  datatype Reader = Reader(now: Stamp, newId: Uuid, parse: string -> Option<int>)
  {
    function At(text: string): Stamp {
      Stamp(text, parse(text))
    }

    function StampOr(text: string, other: Stamp): Stamp {
      match NormalizeText(text)
      case Some(t) => At(t)
      case None => other
    }
  }

  function ReadEvent(e: WireEvent, rd: Reader): Event {
    Event(e.sequence, rd.At(e.createdAt), e.kind, ReadId(e.runId), NormalizeText(e.message), NormalizeText(e.toolName))
  }

  function ReadEvents(list: seq<WireEvent>, rd: Reader): seq<Event> {
    seq(|list|, i requires 0 <= i < |list| => ReadEvent(list[i], rd))
  }

  function LastSequence(events: seq<Event>): nat {
    if events == [] then 0 else events[|events| - 1].sequence
  }

  function ReadSpec(w: WireSession, rd: Reader, workspace: Option<Mount>, checkpoint: Option<Mount>): SessionSpec {
    SessionSpec(
      if ReadId(w.id).Some? then ReadId(w.id).value else rd.newId, w.name, w.execution, NormalizeText(w.isolationProfile),
      rd.StampOr(w.createdAt, rd.now), workspace, NormalizeText(w.workingDirectory), w.workspacePersistent, w.allowedTools,
      w.allowNetwork, w.allowPty, w.allowWrite, w.checkpointEnabled, ReadSeconds(w.checkpointInterval), checkpoint,
      w.requireInput, w.maxTurns, ReadSeconds(w.idleTimeout))
  }

  /** What a wire record means. */
  function Read(w: WireSession, rd: Reader): Result<Session> {
    match (ReadMount(w.workspaceMount), ReadMount(w.checkpointMount))
    case (Ok(workspace), Ok(checkpoint)) =>
      var spec := ReadSpec(w, rd, workspace, checkpoint);
      var events := ReadEvents(w.events, rd);
      Ok(Session(spec, rd.StampOr(w.updatedAt, spec.createdAt), w.phaseVersion, w.status, NormalizeText(w.statusDetail),
                 ReadId(w.activeRun), ReadId(w.lastRun), NormalizeText(w.pendingInput), LastSequence(events), events))
    case (_, _) => InvalidVolumeId
  }

  method ReadEventList(list: seq<WireEvent>, rd: Reader) returns (events: seq<Event>)
    ensures events == ReadEvents(list, rd)
  {
    events := [];
    for i := 0 to |list|
      invariant events == ReadEvents(list[..i], rd)
    {
      events := events + [ReadEvent(list[i], rd)];
    }
  }

  /** A session opened with what the reader found. Only its definition is used. */
  method OpenSession(spec: SessionSpec, initialInput: Option<string>, now: Stamp) returns (value: Session)
    ensures value.spec == spec.(isolationProfile := Normalize(spec.isolationProfile), createdAt := now)
  {
    value := NewSession(spec, initialInput, now);
  }

  /** The reader opens a session, which records events and a status of its own, and then overwrites
      every field of it that a session accumulates: nothing of the opening shows. */
  method ReadSession(w: WireSession, rd: Reader) returns (r: Result<Session>)
    ensures r == Read(w, rd)
  {
    var workspace := ReadMount(w.workspaceMount);
    if workspace.InvalidVolumeId? {
      return InvalidVolumeId;
    }
    var checkpoint := ReadMount(w.checkpointMount);
    if checkpoint.InvalidVolumeId? {
      return InvalidVolumeId;
    }
    var spec := ReadSpec(w, rd, workspace.value, checkpoint.value);
    var value := OpenSession(spec, NormalizeText(w.pendingInput), rd.now);
    NormalizeResult(Some(w.isolationProfile));
    NormalizeResult(NormalizeText(w.isolationProfile));
    value := value.(spec := value.spec.(createdAt := rd.StampOr(w.createdAt, rd.now)));
    value := value.(updatedAt := rd.StampOr(w.updatedAt, value.spec.createdAt));
    value := value.(phaseVersion := w.phaseVersion);
    value := value.(status := w.status);
    value := value.(statusDetail := NormalizeText(w.statusDetail));
    value := value.(activeRun := ReadId(w.activeRun));
    value := value.(lastRun := ReadId(w.lastRun));
    value := value.(pendingInput := NormalizeText(w.pendingInput));
    var events := ReadEventList(w.events, rd);
    value := value.(events := events);
    value := value.(eventSequence := LastSequence(events));
    return Ok(value);
  }

  // ----- Round trips -----

  /** A timestamp that is written and parsed back to itself. */
  ghost predicate Faithful(s: Stamp, rd: Reader) {
    s == rd.At(s.text)
  }

  ghost predicate FaithfulNormal(s: Stamp, rd: Reader) {
    Faithful(s, rd) && Normal(Some(s.text))
  }

  predicate CanonicalSpec(p: SessionSpec) {
    && Normal(p.isolationProfile) && Normal(p.workingDirectory)
    && p.checkpointInterval != Some(0) && p.idleTimeout != Some(0)
  }

  ghost predicate CanonicalEvent(e: Event, rd: Reader) {
    Faithful(e.createdAt, rd) && Normal(e.message) && Normal(e.toolName)
  }

  ghost predicate CanonicalEvents(events: seq<Event>, rd: Reader) {
    forall i :: 0 <= i < |events| ==> CanonicalEvent(events[i], rd)
  }

  ghost predicate CanonicalState(s: Session, rd: Reader) {
    && FaithfulNormal(s.spec.createdAt, rd) && FaithfulNormal(s.updatedAt, rd)
    && Normal(s.statusDetail) && Normal(s.pendingInput) && CanonicalEvents(s.events, rd)
  }

  /** What the wire can carry. */
  ghost predicate Canonical(s: Session, rd: Reader) {
    CanonicalSpec(s.spec) && CanonicalState(s, rd) && s.eventSequence == LastSequence(s.events)
  }

  lemma TextTrip(o: Option<string>)
    ensures NormalizeText(OrEmpty(o)) == o <==> Normal(o)
  {
    NormalizeResult(o);
  }

  lemma SecondsTrip(o: Option<nat>)
    ensures ReadSeconds(OrZero(o)) == o <==> o != Some(0)
  {
  }

  lemma MountTrip(m: Option<Mount>)
    ensures ReadMount(WriteMount(m)) == Ok(m)
  {
  }

  /** A timestamp comes back exactly when it is trimmed and not empty and parses to itself; the
      fallback is such a timestamp, so it never stands in for another. */
  lemma StampTrip(s: Stamp, other: Stamp, rd: Reader)
    requires Normal(Some(other.text))
    ensures rd.StampOr(s.text, other) == s <==> FaithfulNormal(s, rd)
    ensures Normal(Some(rd.StampOr(s.text, other).text))
  {
    NormalizeResult(Some(s.text));
    NormalizeResult(Some(other.text));
  }

  lemma EventTrip(e: Event, rd: Reader)
    ensures ReadEvent(WriteEvent(e), rd) == e <==> CanonicalEvent(e, rd)
  {
    TextTrip(e.message);
    TextTrip(e.toolName);
  }

  lemma EventsTrip(events: seq<Event>, rd: Reader)
    ensures ReadEvents(WriteEvents(events), rd) == events <==> CanonicalEvents(events, rd)
  {
    var back := ReadEvents(WriteEvents(events), rd);
    assert |back| == |events|;
    forall i | 0 <= i < |events| ensures back[i] == events[i] <==> CanonicalEvent(events[i], rd) {
      EventTrip(events[i], rd);
    }
  }

  lemma SpecTrip(s: Session, rd: Reader)
    requires Normal(Some(rd.now.text))
    ensures ReadSpec(Write(s), rd, s.spec.workspaceMount, s.spec.checkpointMount) == s.spec <==>
              CanonicalSpec(s.spec) && FaithfulNormal(s.spec.createdAt, rd)
  {
    TextTrip(s.spec.isolationProfile);
    TextTrip(s.spec.workingDirectory);
    SecondsTrip(s.spec.checkpointInterval);
    SecondsTrip(s.spec.idleTimeout);
    StampTrip(s.spec.createdAt, rd.now, rd);
  }

  /** Writing a session always reads back without error, and gives the same session exactly when it
      is canonical. */
  lemma RoundTripIff(s: Session, rd: Reader)
    requires Normal(Some(rd.now.text))
    ensures Read(Write(s), rd).Ok?
    ensures Read(Write(s), rd) == Ok(s) <==> Canonical(s, rd)
  {
    MountTrip(s.spec.workspaceMount);
    MountTrip(s.spec.checkpointMount);
    SpecTrip(s, rd);
    StampTrip(s.spec.createdAt, rd.now, rd);
    StampTrip(s.updatedAt, ReadSpec(Write(s), rd, s.spec.workspaceMount, s.spec.checkpointMount).createdAt, rd);
    TextTrip(s.statusDetail);
    TextTrip(s.pendingInput);
    EventsTrip(s.events, rd);
  }

  /** Two settings a session may have that do not survive the wire: timeouts of zero. */
  lemma LossyExample(s: Session, rd: Reader)
    requires Canonical(s, rd) && Normal(Some(rd.now.text))
    ensures Read(Write(s.(spec := s.spec.(idleTimeout := Some(0)))), rd) == Ok(s.(spec := s.spec.(idleTimeout := None)))
    ensures Read(Write(s.(spec := s.spec.(checkpointInterval := Some(0)))), rd)
            == Ok(s.(spec := s.spec.(checkpointInterval := None)))
  {
    WithSpecTrips(s, s.spec.(idleTimeout := None), rd);
    WithSpecTrips(s, s.spec.(checkpointInterval := None), rd);
    ZerosLookAbsent(s);
  }

  lemma WithSpecTrips(s: Session, spec: SessionSpec, rd: Reader)
    requires Canonical(s, rd) && Normal(Some(rd.now.text)) && CanonicalSpec(spec) && spec.createdAt == s.spec.createdAt
    ensures Read(Write(s.(spec := spec)), rd) == Ok(s.(spec := spec))
  {
    RoundTripIff(s.(spec := spec), rd);
  }

  lemma ZerosLookAbsent(s: Session)
    ensures Write(s.(spec := s.spec.(idleTimeout := Some(0)))) == Write(s.(spec := s.spec.(idleTimeout := None)))
    ensures Write(s.(spec := s.spec.(checkpointInterval := Some(0)))) == Write(s.(spec := s.spec.(checkpointInterval := None)))
  {
  }

  // ----- Every reachable session is canonical -----

  lemma PushCanonical(s: Session, kind: EventKind, run: Option<Uuid>, message: Option<string>, now: Stamp, rd: Reader)
    requires CanonicalEvents(s.events, rd) && Faithful(now, rd)
    ensures CanonicalEvents(Push(s, kind, run, message, now).events, rd)
  {
    NormalizeResult(message);
    var e := NextEvent(s, kind, run, message, now);
    assert CanonicalEvents(s.events + [e], rd);
  }

  lemma QueuedTextNormal(run: Uuid)
    ensures Normal(Some("agent run " + IdText(run) + " queued"))
  {
    var t := "agent run " + IdText(run) + " queued";
    assert t[0] == 'a' && t[|t| - 1] == 'd';
  }

  /** Updates keep everything but the log canonical. */
  lemma UpdateTexts(s: Session, op: SessionOp, now: Stamp)
    requires Normal(s.pendingInput) && Admissible(s, op)
    ensures var t := Update(s, op, now);
            Normal(t.statusDetail) && Normal(t.pendingInput) && t.updatedAt == now && t.spec == s.spec
  {
    match op {
      case QueueInput(_) =>
      case MarkRunQueued(run) => QueuedTextNormal(run);
      case MarkRunRunning(_, detail) => NormalizeResult(detail);
      case MarkWaitingInput(_, detail) => NormalizeResult(detail);
      case MarkFailed(_, detail) => NormalizeResult(detail);
      case MarkCancelRequested(_, detail) => NormalizeResult(detail);
      case MarkCancelledWaitingInput(_, detail) => NormalizeResult(detail);
      case MarkCancelledClosed(_, detail) => NormalizeResult(detail);
      case CancelPendingInput(detail) => NormalizeResult(detail);
      case RequestClose(detail) => NormalizeResult(detail);
      case Close(detail) => NormalizeResult(detail);
    }
  }

  lemma UpdateEvents(s: Session, op: SessionOp, now: Stamp, rd: Reader)
    requires CanonicalEvents(s.events, rd) && Faithful(now, rd)
    ensures CanonicalEvents(Update(s, op, now).events, rd)
  {
    UpdatePushesNotes(s, op, now);
    var notes := Notes(s, op);
    if |notes| >= 1 {
      PushCanonical(s, notes[0].kind, notes[0].run, notes[0].message, now, rd);
      if |notes| == 2 {
        PushCanonical(PushNote(s, notes[0], now), notes[1].kind, notes[1].run, notes[1].message, now, rd);
      }
    }
  }

  lemma NewCanonical(spec: SessionSpec, initialInput: Option<string>, now: Stamp, rd: Reader)
    requires FaithfulNormal(now, rd)
    ensures CanonicalSpec(spec) ==> CanonicalSpec(NewSession(spec, initialInput, now).spec)
    ensures CanonicalState(NewSession(spec, initialInput, now), rd)
  {
    NormalizeResult(spec.isolationProfile);
    NormalizeResult(initialInput);
    var normal := spec.(isolationProfile := Normalize(spec.isolationProfile), createdAt := now);
    var s0 := Session(normal, now, 0, WaitingInput, None, None, None, None, 0, []);
    PushCanonical(s0, SessionOpened, None, None, now, rd);
    var s1 := Push(s0, SessionOpened, None, None, now);
    match Normalize(initialInput) {
      case Some(input) =>
        UpdateEvents(s1, SessionOp.QueueInput(input), now, rd);
      case None =>
        PushCanonical(s1, NeedInput, None, Some(WAITING_FOR_INPUT), now, rd);
    }
  }

  /** Every time of the history is a timestamp the reader parses back. */
  ghost predicate FaithfulTimes(h: History, rd: Reader) {
    FaithfulNormal(h.openedAt, rd) && forall i :: 0 <= i < |h.ops| ==> FaithfulNormal(h.ops[i].now, rd)
  }

  lemma {:induction false} HistoryIsCanonical(h: History, rd: Reader)
    requires Proper(h) && FaithfulTimes(h, rd)
    ensures CanonicalState(Replay(h), rd) && (CanonicalSpec(h.spec) ==> CanonicalSpec(Replay(h).spec))
    decreases |h.ops|
  {
    if h.ops == [] {
      NewCanonical(h.spec, h.initialInput, h.openedAt, rd);
    } else {
      var last := |h.ops| - 1;
      var before := h.(ops := h.ops[..last]);
      HistoryIsCanonical(before, rd);
      UpdateTexts(Replay(before), h.ops[last].op, h.ops[last].now);
      UpdateEvents(Replay(before), h.ops[last].op, h.ops[last].now, rd);
    }
  }

  /** The last stored event carries the counter. */
  lemma LogGivesCounter(s: Session, full: seq<Event>)
    requires LogMatches(s, full)
    ensures s.eventSequence == LastSequence(s.events)
  {
    assert full != [] ==> s.events[|s.events| - 1] == full[|full| - 1];
  }

  /** Everything but the definition of a session survives, whatever the definition. */
  lemma LifecycleTrips(s: Session, rd: Reader)
    requires CanonicalState(s, rd) && s.eventSequence == LastSequence(s.events) && Normal(Some(rd.now.text))
    ensures Read(Write(s), rd).Ok? && Read(Write(s), rd).value.(spec := s.spec) == s
  {
    MountTrip(s.spec.workspaceMount);
    MountTrip(s.spec.checkpointMount);
    StampTrip(s.spec.createdAt, rd.now, rd);
    StampTrip(s.updatedAt, ReadSpec(Write(s), rd, s.spec.workspaceMount, s.spec.checkpointMount).createdAt, rd);
    TextTrip(s.statusDetail);
    TextTrip(s.pendingInput);
    EventsTrip(s.events, rd);
  }

  /** The lifecycle of every session the controller can reach reads back whole, its event counter
      included although the wire does not carry it; and so does the session itself if its
      definition is one the wire can carry. */
  lemma ReachableRoundTrips(h: History, rd: Reader)
    requires Proper(h) && FaithfulTimes(h, rd) && Normal(Some(rd.now.text)) && |FullLog(h)| <= MAX_U64
    ensures Read(Write(Replay(h)), rd).Ok? && Read(Write(Replay(h)), rd).value.(spec := Replay(h).spec) == Replay(h)
    ensures CanonicalSpec(h.spec) ==> Read(Write(Replay(h)), rd) == Ok(Replay(h))
  {
    HistoryIsCanonical(h, rd);
    LogIsRecentHistory(h);
    LogGivesCounter(Replay(h), FullLog(h));
    LifecycleTrips(Replay(h), rd);
    if CanonicalSpec(h.spec) {
      CanonicalTrips(Replay(h), rd);
    }
  }

  lemma CanonicalTrips(s: Session, rd: Reader)
    requires CanonicalSpec(s.spec) && CanonicalState(s, rd) && s.eventSequence == LastSequence(s.events)
    requires Normal(Some(rd.now.text))
    ensures Read(Write(s), rd) == Ok(s)
  {
    RoundTripIff(s, rd);
  }

  /** What a reader of the wire record sees under each name. */
  lemma WireShowsSession(s: Session, id: Uuid)
    ensures var w, p := Write(s), s.spec;
            && (w.activeRun == SixteenBytes(id) <==> s.activeRun == Some(id))
            && (w.lastRun == SixteenBytes(id) <==> s.lastRun == Some(id))
            && (w.id == SixteenBytes(id) <==> p.id == id)
            && w.status == s.status && w.phaseVersion == s.phaseVersion
            && (Normal(s.statusDetail) ==> NormalizeText(w.statusDetail) == s.statusDetail)
            && (Normal(s.pendingInput) ==> NormalizeText(w.pendingInput) == s.pendingInput)
            && w.name == p.name && w.createdAt == p.createdAt.text && w.updatedAt == s.updatedAt.text
            && w.workspacePersistent == p.workspacePersistent && w.allowNetwork == p.allowNetwork
            && w.allowPty == p.allowPty && w.allowWrite == p.allowWrite
            && w.checkpointEnabled == p.checkpointEnabled && w.requireInput == p.requireInput && w.maxTurns == p.maxTurns
  {
    TextTrip(s.statusDetail);
    TextTrip(s.pendingInput);
  }
}

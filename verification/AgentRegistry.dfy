/** Choosing one agent record among the concurrent values of a replicated key
    (src/agents/registry.rs). */
module AgentRegistry {
  import opened Basics
  import opened AgentTypes

  datatype Record = SessionRecord(session: Session) | RunRecord(run: Run)

  function SessionKey(s: Session): Key {
    [Num(s.eventSequence), Num(s.phaseVersion), Num(s.status.Rank())] + OptionalKey(s.updatedAt.instant) + [Num(s.spec.id)]
  }

  function RunKey(r: Run): Key {
    [Num(r.phaseVersion), Num(r.status.Rank())] + OptionalKey(r.updatedAt.instant) + [Num(r.id)]
  }

  function CompareSessions(a: Session, b: Session): Ordering {
    CompareKeys(SessionKey(a), SessionKey(b))
  }

  function CompareRuns(a: Run, b: Run): Ordering {
    CompareKeys(RunKey(a), RunKey(b))
  }

  /** Records of different kinds are compared by the text of their timestamps. */
  function CompareRecords(a: Record, b: Record): Ordering {
    match (a, b)
    case (SessionRecord(x), SessionRecord(y)) => CompareSessions(x, y)
    case (RunRecord(x), RunRecord(y)) => CompareRuns(x, y)
    case (SessionRecord(x), RunRecord(y)) => CompareText(x.updatedAt.text, y.updatedAt.text)
    case (RunRecord(x), SessionRecord(y)) => CompareText(x.updatedAt.text, y.updatedAt.text)
  }

  /** The running best after all values. */
  function Pick(values: seq<Record>): Option<Record> {
    if values == [] then None
    else
      var last := |values| - 1;
      var best := Pick(values[..last]);
      if best.None? || CompareRecords(values[last], best.value) == Greater then Some(values[last]) else best
  }

  method SelectBestRecord(values: seq<Record>) returns (best: Option<Record>)
    ensures best == Pick(values)
  {
    best := None;
    for i := 0 to |values|
      invariant best == Pick(values[..i])
    {
      var value := values[i];
      assert values[..i + 1][..i] == values[..i];
      match best {
        case None => best := Some(value);
        case Some(current) =>
          if CompareRecords(value, current) == Greater {
            best := Some(value);
          }
      }
    }
    assert values[..|values|] == values;
  }

  // ----- Snapshots of one kind -----

  ghost predicate OneKind(values: seq<Record>) {
    (forall v :: v in values ==> v.SessionRecord?) || (forall v :: v in values ==> v.RunRecord?)
  }

  function RecordKey(r: Record): Key {
    match r
    case SessionRecord(s) => SessionKey(s)
    case RunRecord(r) => RunKey(r)
  }

  lemma CompareOneKind(a: Record, b: Record)
    requires a.SessionRecord? <==> b.SessionRecord?
    ensures CompareRecords(a, b) == CompareKeys(RecordKey(a), RecordKey(b))
  {
  }

  /** `best` is in the list and no element is greater. */
  ghost predicate IsGreatest(best: Record, values: seq<Record>) {
    best in values && forall v :: v in values ==> CompareKeys(RecordKey(v), RecordKey(best)) != Greater
  }

  lemma GreatestOfTwo(rest: seq<Record>, best: Record, x: Record)
    requires IsGreatest(best, rest)
    ensures IsGreatest(if CompareKeys(RecordKey(x), RecordKey(best)) == Greater then x else best, rest + [x])
  {
    var kx, kb := RecordKey(x), RecordKey(best);
    CompareKeysLaws(kx, kb);
    CompareKeysLaws(kx, kx);
    if CompareKeys(kx, kb) == Greater {
      forall v | v in rest ensures CompareKeys(RecordKey(v), kx) != Greater {
        CompareKeysTransitive(RecordKey(v), kb, kx);
      }
    }
  }

  /** Some stored value is picked, and no stored value is greater. */
  lemma {:induction false} PickIsGreatest(values: seq<Record>)
    requires OneKind(values) && values != []
    ensures Pick(values).Some? && IsGreatest(Pick(values).value, values)
  {
    var last := |values| - 1;
    var rest, x := values[..last], values[last];
    assert values == rest + [x];
    if rest == [] {
      CompareKeysLaws(RecordKey(x), RecordKey(x));
    } else {
      PickIsGreatest(rest);
      assert Pick(rest).value in values && x in values;
      CompareOneKind(x, Pick(rest).value);
      GreatestOfTwo(rest, Pick(rest).value, x);
    }
  }

  /** Replicas that list one snapshot in different orders pick values that compare equal. */
  lemma PickIgnoresOrder(a: seq<Record>, b: seq<Record>)
    requires OneKind(a) && multiset(a) == multiset(b)
    ensures Pick(a).None? <==> Pick(b).None?
    ensures Pick(a).Some? ==> RecordKey(Pick(a).value) == RecordKey(Pick(b).value)
  {
    assert |a| == |multiset(a)| && |b| == |multiset(b)|;
    assert forall v :: v in a <==> v in multiset(a);
    assert forall v :: v in b <==> v in multiset(b);
    if a != [] {
      PickIsGreatest(a);
      PickIsGreatest(b);
      CompareKeysLaws(RecordKey(Pick(a).value), RecordKey(Pick(b).value));
    }
  }

  /** With both kinds in one snapshot the comparison can go round in a circle, and the pick then
      depends on the order. */
  lemma MixedKindsExample(spec: SessionSpec)
    ensures var older := Session(spec, Stamp("c", None), 0, WaitingInput, None, None, None, None, 5, []);
            var newer := Session(spec, Stamp("a", None), 0, WaitingInput, None, None, None, None, 6, []);
            var r := NewRun(0, 0, None, Stamp("b", None));
            var a, b, c := SessionRecord(older), SessionRecord(newer), RunRecord(r);
            && CompareRecords(b, a) == Greater && CompareRecords(a, c) == Greater && CompareRecords(c, b) == Greater
            && Pick([a, b, c]) == Some(c) && Pick([b, c, a]) == Some(a)
  {
    var older := Session(spec, Stamp("c", None), 0, WaitingInput, None, None, None, None, 5, []);
    var newer := Session(spec, Stamp("a", None), 0, WaitingInput, None, None, None, None, 6, []);
    var r := NewRun(0, 0, None, Stamp("b", None));
    var a, b, c := SessionRecord(older), SessionRecord(newer), RunRecord(r);
    assert CompareRecords(b, a) == Greater && CompareRecords(a, c) == Greater && CompareRecords(c, b) == Greater;
    PickThree(a, b, c);
    PickThree(b, c, a);
  }

  lemma PickThree(a: Record, b: Record, c: Record)
    requires CompareRecords(b, a) == Greater && CompareRecords(c, b) == Greater
    ensures Pick([a, b, c]) == Some(c)
  {
    assert [a, b, c][..2] == [a, b] && [a, b][..1] == [a] && [a][..0] == [];
    assert Pick([a]) == Some(a);
    assert Pick([a, b]) == Some(b);
  }

  // ----- Snapshots of both kinds -----

  predicate Beats(a: Record, b: Record) {
    CompareRecords(a, b) == Greater
  }

  function TimeText(r: Record): string {
    match r
    case SessionRecord(s) => s.updatedAt.text
    case RunRecord(r) => r.updatedAt.text
  }

  /** By timestamp text `z` lies between two records of the other kind whose keys are the other way
      round: strictly between if the keys are equal. */
  predicate Straddles(x: Record, y: Record, z: Record) {
    && x.SessionRecord? == y.SessionRecord? != z.SessionRecord?
    && match CompareKeys(RecordKey(x), RecordKey(y))
       case Less =>
         && CompareText(TimeText(y), TimeText(z)) != Greater && CompareText(TimeText(z), TimeText(x)) != Greater
         && CompareText(TimeText(y), TimeText(x)) == Less
       case Equal => CompareText(TimeText(y), TimeText(z)) == Less && CompareText(TimeText(z), TimeText(x)) == Less
       case Greater => false
  }

  ghost predicate HasStraddle(records: set<Record>) {
    exists x, y, z :: x in records && y in records && z in records && Straddles(x, y, z)
  }

  /** Beating does not carry over: `c` beats `b` and `b` beats `a`, yet `c` does not beat `a`. */
  predicate Breaks(a: Record, b: Record, c: Record) {
    Beats(b, a) && Beats(c, b) && !Beats(c, a)
  }

  lemma BeatsOneWay(a: Record, b: Record)
    ensures CompareRecords(b, a) == CompareRecords(a, b).Reverse()
  {
    CompareKeysLaws(RecordKey(a), RecordKey(b));
    CompareTextLaws(TimeText(a), TimeText(b));
  }

  /** Timestamps are totally ordered; these are the consequences for three of them. */
  lemma TextTriple(p: string, q: string, r: string)
    ensures CompareText(q, p) == CompareText(p, q).Reverse()
    ensures CompareText(p, q) != Greater && CompareText(q, r) != Greater ==> CompareText(p, r) != Greater
    ensures CompareText(p, q) != Greater && CompareText(q, r) == Less ==> CompareText(p, r) == Less
    ensures CompareText(p, q) == Less && CompareText(q, r) != Greater ==> CompareText(p, r) == Less
  {
    CompareTextLaws(p, q);
    if CompareText(p, q) != Greater && CompareText(q, r) != Greater {
      CompareTextTransitive(p, q, r);
    }
  }

  lemma OneKindNeverBreaks(a: Record, b: Record, c: Record)
    ensures a.SessionRecord? == b.SessionRecord? == c.SessionRecord? ==> !Breaks(a, b, c)
  {
    CompareKeysLaws(RecordKey(a), RecordKey(b));
    CompareKeysLaws(RecordKey(b), RecordKey(c));
    CompareKeysLaws(RecordKey(a), RecordKey(c));
    if a.SessionRecord? == b.SessionRecord? == c.SessionRecord? && Beats(b, a) && Beats(c, b) {
      CompareKeysTransitive(RecordKey(a), RecordKey(b), RecordKey(c));
    }
  }

  /** A break is a straddle, seen from the record of the odd kind. */
  lemma BreakIsStraddle(a: Record, b: Record, c: Record)
    requires Breaks(a, b, c)
    ensures Straddles(a, b, c) || Straddles(c, a, b) || Straddles(b, c, a)
  {
    OneKindNeverBreaks(a, b, c);
    CompareKeysLaws(RecordKey(a), RecordKey(b));
    CompareKeysLaws(RecordKey(b), RecordKey(c));
    CompareKeysLaws(RecordKey(a), RecordKey(c));
    var p, q, r := TimeText(a), TimeText(b), TimeText(c);
    TextTriple(p, q, r);
    TextTriple(q, r, p);
    TextTriple(r, p, q);
    TextTriple(q, p, r);
    TextTriple(r, q, p);
    TextTriple(p, r, q);
  }

  lemma StraddleIsBreak(x: Record, y: Record, z: Record)
    requires Straddles(x, y, z)
    ensures Breaks(x, y, z) || Breaks(y, z, x) || Breaks(z, x, y)
  {
    CompareKeysLaws(RecordKey(x), RecordKey(y));
    var p, q, r := TimeText(x), TimeText(y), TimeText(z);
    CompareTextLaws(p, r);
    CompareTextLaws(q, r);
    CompareTextLaws(p, q);
  }

  /** The snapshot's pick is stored and beaten by nothing in it. */
  ghost predicate PicksUnbeaten(values: seq<Record>) {
    Pick(values).Some? && Pick(values).value in values && forall v :: v in values ==> !Beats(v, Pick(values).value)
  }

  ghost predicate DrawnFrom(values: seq<Record>, records: set<Record>) {
    values != [] && forall v :: v in values ==> v in records
  }

  lemma {:induction false} UnbrokenPicksUnbeaten(values: seq<Record>, records: set<Record>)
    requires DrawnFrom(values, records)
    requires forall a, b, c :: a in records && b in records && c in records ==> !Breaks(a, b, c)
    ensures PicksUnbeaten(values)
  {
    var last := |values| - 1;
    var rest, x := values[..last], values[last];
    assert values == rest + [x];
    BeatsOneWay(x, x);
    if rest != [] {
      UnbrokenPicksUnbeaten(rest, records);
      var p := Pick(rest).value;
      assert p in records && x in records;
      BeatsOneWay(x, p);
      forall v | v in rest ensures !Beats(v, Pick(values).value) {
        assert v in records && !Breaks(p, x, v);
      }
    }
  }

  lemma BreakPicksBeaten(a: Record, b: Record, c: Record)
    requires Breaks(a, b, c)
    ensures Pick([a, c, b]) == Some(b) && !PicksUnbeaten([a, c, b])
  {
    assert [a, c, b][..2] == [a, c] && [a, c][..1] == [a] && [a][..0] == [];
    assert Pick([a]) == Some(a);
    assert Pick([a, c]) == Some(a);
    assert c in [a, c, b];
  }

  /** Over a set of records, every snapshot picks a record that none of it beats if and only if no
      record lies by timestamp between two of the other kind whose keys are the other way round. */
  lemma PicksUnbeatenIff(records: set<Record>)
    ensures (forall values :: DrawnFrom(values, records) ==> PicksUnbeaten(values)) <==> !HasStraddle(records)
  {
    if HasStraddle(records) {
      var x, y, z :| x in records && y in records && z in records && Straddles(x, y, z);
      StraddleIsBreak(x, y, z);
      var values := if Breaks(x, y, z) then [x, z, y] else if Breaks(y, z, x) then [y, x, z] else [z, y, x];
      if Breaks(x, y, z) {
        BreakPicksBeaten(x, y, z);
      } else if Breaks(y, z, x) {
        BreakPicksBeaten(y, z, x);
      } else {
        BreakPicksBeaten(z, x, y);
      }
      assert DrawnFrom(values, records) && !PicksUnbeaten(values);
    } else {
      forall a, b, c | a in records && b in records && c in records ensures !Breaks(a, b, c) {
        if Breaks(a, b, c) {
          BreakIsStraddle(a, b, c);
        }
      }
      forall values | DrawnFrom(values, records) ensures PicksUnbeaten(values) {
        UnbrokenPicksUnbeaten(values, records);
      }
    }
  }

  /** Then all orders of a snapshot pick records that neither beat nor lose to each other. */
  lemma PicksTie(a: seq<Record>, b: seq<Record>, records: set<Record>)
    requires DrawnFrom(a, records) && multiset(a) == multiset(b) && !HasStraddle(records)
    ensures Pick(a).Some? && Pick(b).Some? && CompareRecords(Pick(a).value, Pick(b).value) == Equal
  {
    assert |a| == |multiset(a)| && |b| == |multiset(b)|;
    assert forall v :: v in a <==> v in multiset(a);
    assert forall v :: v in b <==> v in multiset(b);
    PicksUnbeatenIff(records);
    assert DrawnFrom(b, records);
    BeatsOneWay(Pick(a).value, Pick(b).value);
  }

  // ----- Later values win -----

  /** What an unchanged pair of counters is decided by. */
  function SessionTieKey(s: Session): Key {
    [Num(s.status.Rank())] + OptionalKey(s.updatedAt.instant)
  }

  lemma CountersMove(s: Session, op: SessionOp, now: Stamp)
    ensures var t := Update(s, op, now);
            && t.phaseVersion == Bump(s.phaseVersion) && t.spec == s.spec && t.updatedAt == now
            && t.eventSequence == (if Notes(s, op) == [] then s.eventSequence
                                   else if |Notes(s, op)| == 1 then Bump(s.eventSequence)
                                   else Bump(Bump(s.eventSequence)))
  {
  }

  /** The event counter decides, then the phase counter, then the rest. */
  lemma CompareByParts(t: Session, s: Session)
    ensures CompareSessions(t, s) ==
              if t.eventSequence != s.eventSequence then CompareAtoms(Num(t.eventSequence), Num(s.eventSequence))
              else if t.phaseVersion != s.phaseVersion then CompareAtoms(Num(t.phaseVersion), Num(s.phaseVersion))
              else CompareKeys(SessionTieKey(t) + [Num(t.spec.id)], SessionTieKey(s) + [Num(s.spec.id)])
  {
    var a, b := SessionTieKey(t) + [Num(t.spec.id)], SessionTieKey(s) + [Num(s.spec.id)];
    assert SessionKey(t) == [Num(t.eventSequence)] + ([Num(t.phaseVersion)] + a);
    assert SessionKey(s) == [Num(s.eventSequence)] + ([Num(s.phaseVersion)] + b);
    CompareHead(Num(t.eventSequence), [Num(t.phaseVersion)] + a, Num(s.eventSequence), [Num(s.phaseVersion)] + b);
    CompareHead(Num(t.phaseVersion), a, Num(s.phaseVersion), b);
  }

  lemma CompareUpdated(s: Session, t: Session)
    requires t.spec == s.spec && t.eventSequence >= s.eventSequence && t.phaseVersion >= s.phaseVersion
    ensures CompareSessions(t, s) == Greater <==>
              || t.eventSequence > s.eventSequence || t.phaseVersion > s.phaseVersion
              || CompareKeys(SessionTieKey(t), SessionTieKey(s)) == Greater
  {
    CompareByParts(t, s);
    SameEnd(SessionTieKey(t), SessionTieKey(s), [Num(s.spec.id)]);
  }

  lemma {:induction false} SameEnd(a: Key, b: Key, end: Key)
    requires |a| == |b|
    ensures CompareKeys(a + end, b + end) == CompareKeys(a, b)
  {
    if a == [] {
      assert a + end == end && b + end == end;
      CompareKeysLaws(end, end);
    } else {
      assert (a + end)[1..] == a[1..] + end && (b + end)[1..] == b[1..] + end;
      if a[0] == b[0] {
        SameEnd(a[1..], b[1..], end);
      }
    }
  }

  /** A time that parses, after one that does not or is earlier. */
  predicate Later(a: Stamp, b: Stamp) {
    AfterTime(a.instant, b.instant)
  }

  lemma RankThenTime(m: nat, a: Stamp, n: nat, b: Stamp)
    ensures CompareKeys([Num(m)] + OptionalKey(a.instant), [Num(n)] + OptionalKey(b.instant)) == Greater <==>
              m > n || (m == n && Later(a, b))
  {
    var x, y := OptionalKey(a.instant), OptionalKey(b.instant);
    CompareHead(Num(m), x, Num(n), y);
    assert x == [x[0]] + [x[1]] && y == [y[0]] + [y[1]];
    CompareHead(x[0], [x[1]], y[0], [y[1]]);
    assert [x[1]] == [x[1]] + [] && [y[1]] == [y[1]] + [];
    CompareHead(x[1], [], y[1], []);
  }

  /** The status an update leads to. */
  function TargetStatus(s: Session, op: SessionOp): SessionStatus {
    match op
    case QueueInput(_) => Queued
    case MarkRunQueued(_) => Queued
    case MarkRunRunning(_, _) => Running
    case MarkWaitingInput(_, _) => WaitingInput
    case MarkFailed(_, _) => Failed
    case MarkCancelRequested(_, _) => if s.status == Running then Running else Queued
    case MarkCancelledWaitingInput(_, _) => WaitingInput
    case MarkCancelledClosed(_, _) => Closed
    case CancelPendingInput(_) => WaitingInput
    case RequestClose(_) => Closing
    case Close(_) => Closed
  }

  /** The updates that record no event. */
  predicate RecordsNothing(op: SessionOp) {
    op.MarkCancelRequested? || op.RequestClose?
  }

  /** A session update is strictly greater than the value it was made from exactly when one of its
      counters can still move, or else it leads to a higher status, or to one as high at a later
      time. */
  lemma UpdateIsGreaterIff(s: Session, op: SessionOp, now: Stamp)
    requires s.phaseVersion <= MAX_U64 && s.eventSequence <= MAX_U64
    ensures CompareSessions(Update(s, op, now), s) == Greater <==>
              || s.phaseVersion < MAX_U64
              || (s.eventSequence < MAX_U64 && !RecordsNothing(op))
              || TargetStatus(s, op).Rank() > s.status.Rank()
              || (TargetStatus(s, op).Rank() == s.status.Rank() && Later(now, s.updatedAt))
  {
    CountersMove(s, op, now);
    StatusMoves(s, op, now);
    CompareUpdated(s, Update(s, op, now));
    RankThenTime(TargetStatus(s, op).Rank(), now, s.status.Rank(), s.updatedAt);
  }

  lemma StatusMoves(s: Session, op: SessionOp, now: Stamp)
    ensures Update(s, op, now).status == TargetStatus(s, op)
    ensures Notes(s, op) == [] <==> RecordsNothing(op)
  {
  }

  /** Once both counters are at their limit, a completed run loses to the running value it ended. */
  lemma SaturatedExample(spec: SessionSpec, now: Stamp)
    ensures var s := Session(spec, now, MAX_U64, Running, None, Some(1), Some(1), None, MAX_U64, []);
            CompareSessions(Update(s, SessionOp.MarkWaitingInput(1, None), now), s) == Less
  {
    var s := Session(spec, now, MAX_U64, Running, None, Some(1), Some(1), None, MAX_U64, []);
    var t := Update(s, SessionOp.MarkWaitingInput(1, None), now);
    CountersMove(s, SessionOp.MarkWaitingInput(1, None), now);
    CompareByParts(t, s);
    var end := OptionalKey(now.instant) + [Num(spec.id)];
    assert SessionTieKey(t) + [Num(spec.id)] == [Num(0)] + end && SessionTieKey(s) + [Num(spec.id)] == [Num(2)] + end;
    CompareHead(Num(0), end, Num(2), end);
  }

  /** The status a run update leads to. */
  function TargetRunStatus(r: Run, op: RunOp): RunStatus {
    match op
    case MarkPendingDetail(_) => RunPending
    case BindWorkload(_, _) => RunPending
    case MarkRunning(_, _) => RunRunning
    case MarkSucceeded(_, _) => RunSucceeded
    case MarkRunFailed(_, _) => RunFailed
    case RequestCancel(_) => r.status
    case MarkCancelled(_, _) => RunCancelledStatus
    case RetryLater(_) => r.status
  }

  /** Likewise for a run. A retry moves no counter and no status, so only a later time puts it
      ahead. */
  lemma RunUpdateIsGreaterIff(r: Run, op: RunOp, now: Stamp)
    requires r.phaseVersion <= MAX_U64
    ensures CompareRuns(UpdateRun(r, op, now), r) == Greater <==>
              || (r.phaseVersion < MAX_U64 && !op.RetryLater?)
              || TargetRunStatus(r, op).Rank() > r.status.Rank()
              || (TargetRunStatus(r, op).Rank() == r.status.Rank() && Later(now, r.updatedAt))
  {
    var t := UpdateRun(r, op, now);
    var a, b := RunTieKey(t) + [Num(r.id)], RunTieKey(r) + [Num(r.id)];
    assert RunKey(t) == [Num(t.phaseVersion)] + a && RunKey(r) == [Num(r.phaseVersion)] + b;
    CompareHead(Num(t.phaseVersion), a, Num(r.phaseVersion), b);
    SameEnd(RunTieKey(t), RunTieKey(r), [Num(r.id)]);
    RankThenTime(TargetRunStatus(r, op).Rank(), now, r.status.Rank(), r.updatedAt);
  }

  /** A retry made on a clock behind the stored time loses to the value it was made from, and one
      made at the same time ties with it. */
  lemma StaleRetryExample()
    ensures var r := NewRun(1, 2, None, Stamp("b", Some(5)));
            && CompareRuns(UpdateRun(r, RetryLater("no room"), Stamp("a", Some(4))), r) == Less
            && CompareRuns(UpdateRun(r, RetryLater("no room"), Stamp("b", Some(5))), r) == Equal
  {
    var r := NewRun(1, 2, None, Stamp("b", Some(5)));
    var early, same := UpdateRun(r, RetryLater("no room"), Stamp("a", Some(4))),
                       UpdateRun(r, RetryLater("no room"), Stamp("b", Some(5)));
    assert RunKey(early) == [Num(0), Num(0), Num(1), Num(4), Num(1)];
    assert RunKey(r) == [Num(0), Num(0), Num(1), Num(5), Num(1)] == RunKey(same);
    CompareKeysLaws(RunKey(same), RunKey(r));
    SamePrefix([Num(0), Num(0), Num(1)], [Num(4), Num(1)], [Num(5), Num(1)]);
    assert RunKey(early) == [Num(0), Num(0), Num(1)] + [Num(4), Num(1)];
    assert RunKey(r) == [Num(0), Num(0), Num(1)] + [Num(5), Num(1)];
  }

  lemma {:induction false} SamePrefix(start: Key, a: Key, b: Key)
    ensures CompareKeys(start + a, start + b) == CompareKeys(a, b)
  {
    if start == [] {
      assert start + a == a && start + b == b;
    } else {
      assert start + a == [start[0]] + (start[1..] + a) && start + b == [start[0]] + (start[1..] + b);
      CompareHead(start[0], start[1..] + a, start[0], start[1..] + b);
      SamePrefix(start[1..], a, b);
    }
  }

  function RunTieKey(r: Run): Key {
    [Num(r.status.Rank())] + OptionalKey(r.updatedAt.instant)
  }

  /** A value after a chain of updates. */
  function Descend(s: Session, ops: seq<Timed>): Session {
    if ops == [] then s
    else
      var last := |ops| - 1;
      Update(Descend(s, ops[..last]), ops[last].op, ops[last].now)
  }

  lemma {:induction false} DescendantIsGreater(s: Session, ops: seq<Timed>)
    requires s.phaseVersion + |ops| <= MAX_U64 && s.eventSequence <= MAX_U64
    ensures Descend(s, ops).phaseVersion == s.phaseVersion + |ops| && Descend(s, ops).eventSequence <= MAX_U64
    ensures ops != [] ==> CompareSessions(Descend(s, ops), s) == Greater
  {
    if ops != [] {
      var last := |ops| - 1;
      var before := Descend(s, ops[..last]);
      DescendantIsGreater(s, ops[..last]);
      CountersMove(before, ops[last].op, ops[last].now);
      UpdateIsGreaterIff(before, ops[last].op, ops[last].now);
      var after := Descend(s, ops);
      CompareKeysLaws(SessionKey(after), SessionKey(before));
      CompareKeysLaws(SessionKey(before), SessionKey(s));
      CompareKeysLaws(SessionKey(after), SessionKey(s));
      CompareKeysTransitive(SessionKey(s), SessionKey(before), SessionKey(after));
    }
  }

  /** A snapshot that holds a session value and any later value made from it does not pick the
      earlier one. */
  lemma NoResurrection(values: seq<Record>, s: Session, ops: seq<Timed>)
    requires OneKind(values) && SessionRecord(s) in values && SessionRecord(Descend(s, ops)) in values && ops != []
    requires s.phaseVersion + |ops| <= MAX_U64 && s.eventSequence <= MAX_U64
    ensures Pick(values).Some? && Pick(values).value.SessionRecord?
    ensures CompareSessions(Pick(values).value.session, s) == Greater
  {
    PickIsGreatest(values);
    DescendantIsGreater(s, ops);
    var late, best := SessionKey(Descend(s, ops)), SessionKey(Pick(values).value.session);
    CompareKeysLaws(late, SessionKey(s));
    CompareKeysLaws(best, SessionKey(s));
    CompareKeysTransitive(SessionKey(s), late, best);
  }

  // ----- What is picked, by its fields -----

  /** At equal counters: closed outranks closing, then failed, running, queued and waiting. */
  predicate StatusNotBehind(a: SessionStatus, b: SessionStatus) {
    match b
    case Closed => a.Closed?
    case Closing => a.Closed? || a.Closing?
    case Failed => a.Closed? || a.Closing? || a.Failed?
    case Running => !a.Queued? && !a.WaitingInput?
    case Queued => !a.WaitingInput?
    case WaitingInput => true
  }

  /** At an equal counter: succeeded outranks failed, then cancelled, running and pending. */
  predicate RunStatusNotBehind(a: RunStatus, b: RunStatus) {
    match b
    case RunSucceeded => a.RunSucceeded?
    case RunFailed => a.RunSucceeded? || a.RunFailed?
    case RunCancelledStatus => !a.RunRunning? && !a.RunPending?
    case RunRunning => !a.RunPending?
    case RunPending => true
  }

  /** The event counter decides, then the phase counter, the status, the time and the identifier. */
  predicate SessionNotOlder(a: Session, b: Session) {
    || a.eventSequence > b.eventSequence
    || (a.eventSequence == b.eventSequence &&
        (|| a.phaseVersion > b.phaseVersion
         || (a.phaseVersion == b.phaseVersion && StatusNotBehind(a.status, b.status) &&
             (a.status == b.status ==>
                AfterTime(a.updatedAt.instant, b.updatedAt.instant)
                || (a.updatedAt.instant == b.updatedAt.instant && a.spec.id >= b.spec.id)))))
  }

  predicate RunNotOlder(a: Run, b: Run) {
    || a.phaseVersion > b.phaseVersion
    || (a.phaseVersion == b.phaseVersion && RunStatusNotBehind(a.status, b.status) &&
        (a.status == b.status ==>
           AfterTime(a.updatedAt.instant, b.updatedAt.instant)
           || (a.updatedAt.instant == b.updatedAt.instant && a.id >= b.id)))
  }

  lemma TieFields(m: nat, s: Option<int>, x: nat, n: nat, t: Option<int>, y: nat)
    ensures CompareKeys([Num(m)] + OptionalKey(s) + [Num(x)], [Num(n)] + OptionalKey(t) + [Num(y)]) != Less <==>
              m > n || (m == n && (AfterTime(s, t) || (s == t && x >= y)))
  {
    var a, b := [m] + (TimeFields(s) + [x]), [n] + (TimeFields(t) + [y]);
    assert Nums(a) == [Num(m)] + OptionalKey(s) + [Num(x)] && Nums(b) == [Num(n)] + OptionalKey(t) + [Num(y)];
    NumsCompare(a, b);
    NotBelowHead(m, TimeFields(s) + [x], n, TimeFields(t) + [y]);
    NotBelowTime(s, [x], t, [y]);
  }

  lemma SessionByFields(a: Session, b: Session)
    ensures CompareSessions(a, b) != Less <==> SessionNotOlder(a, b)
  {
    CompareByParts(a, b);
    TieFields(a.status.Rank(), a.updatedAt.instant, a.spec.id, b.status.Rank(), b.updatedAt.instant, b.spec.id);
  }

  lemma RunByFields(a: Run, b: Run)
    ensures CompareRuns(a, b) != Less <==> RunNotOlder(a, b)
  {
    TieFields(a.status.Rank(), a.updatedAt.instant, a.id, b.status.Rank(), b.updatedAt.instant, b.id);
    var x := [Num(a.status.Rank())] + OptionalKey(a.updatedAt.instant) + [Num(a.id)];
    var y := [Num(b.status.Rank())] + OptionalKey(b.updatedAt.instant) + [Num(b.id)];
    assert RunKey(a) == [Num(a.phaseVersion)] + x && RunKey(b) == [Num(b.phaseVersion)] + y;
    CompareHead(Num(a.phaseVersion), x, Num(b.phaseVersion), y);
  }

  /** Of the stored values of a session the one picked is no older than any other, by its own fields; so
      for a run. */
  lemma PickedIsNewest(values: seq<Record>, v: Record)
    requires OneKind(values) && v in values
    ensures Pick(values).Some? && Pick(values).value in values
    ensures v.SessionRecord? ==> Pick(values).value.SessionRecord? && SessionNotOlder(Pick(values).value.session, v.session)
    ensures v.RunRecord? ==> Pick(values).value.RunRecord? && RunNotOlder(Pick(values).value.run, v.run)
  {
    PickIsGreatest(values);
    var p := Pick(values).value;
    CompareKeysLaws(RecordKey(v), RecordKey(p));
    if v.SessionRecord? {
      SessionByFields(p.session, v.session);
    } else {
      RunByFields(p.run, v.run);
    }
  }
}

/** When coalescing keeps the newest update of a slot.

    For tasks it always does. For scheduler digests it does exactly when no two digests with the
    same state enclose a third with another state. */
module Newest {
  import opened Basics
  import opened Messages
  import opened Coalesce

  /** No pending update of the slot is strictly newer than the one that is sent. */
  ghost predicate KeepsNewest(pending: seq<Message>, slot: Slot) {
    forall i, m :: (0 <= i < |Coalesced(pending)| && SlotOf(Coalesced(pending)[i]) == Some(slot)
                    && m in pending && SlotOf(m) == Some(slot))
                   ==> !Newer(Coalesced(pending)[i], m)
  }

  ghost predicate ReplacesTransitively(pending: seq<Message>, slot: Slot) {
    forall a, b, c :: (a in pending && b in pending && c in pending
                       && SlotOf(a) == SlotOf(b) == SlotOf(c) == Some(slot)
                       && Replaces(a, b) && Replaces(b, c)) ==> Replaces(a, c)
  }

  lemma {:induction false} WinnerIsUndominated(pending: seq<Message>, slot: Slot)
    requires ReplacesTransitively(pending, slot)
    ensures Winner(pending, slot).Some? ==>
              forall m :: m in pending && SlotOf(m) == Some(slot) ==> !Newer(Winner(pending, slot).value, m)
  {
    if pending != [] {
      var last := |pending| - 1;
      var before, z := pending[..last], pending[last];
      assert pending == before + [z];
      WinnerIsUndominated(before, slot);
      WinnerIsInSlot(before, slot);
      forall y | y in before && SlotOf(y) == Some(slot) ensures Winner(before, slot).Some? {
        var i :| 0 <= i < |before| && before[i] == y;
        assert Slots(before)[i] == Some(slot);
      }
      if SlotOf(z) == Some(slot) && Winner(before, slot).Some? && Replaces(Winner(before, slot).value, z) {
        var k := Winner(before, slot).value;
        forall y | y in pending && SlotOf(y) == Some(slot) ensures !Newer(z, y) {
          if y in before {
            assert !Newer(k, y);
          }
        }
      }
    }
  }

  lemma TransitiveKeepsNewest(pending: seq<Message>, slot: Slot)
    requires ReplacesTransitively(pending, slot)
    ensures KeepsNewest(pending, slot)
  {
    CoalescedSummarises(pending);
    WinnerIsUndominated(pending, slot);
  }

  // ----- Tasks -----

  lemma CauseOrder(a: Causality, b: Causality)
    ensures CompareKeys(CauseKey(a), CauseKey(b)) != Greater ==> a.taskEpoch <= b.taskEpoch
    ensures a.taskEpoch < b.taskEpoch ==> CompareKeys(CauseKey(a), CauseKey(b)) == Less
  {
    var x, y := CauseKey(a), CauseKey(b);
    assert x[0] == Num(a.taskEpoch) && y[0] == Num(b.taskEpoch);
  }

  /** Comparing with an extra last field refines comparing without it. */
  lemma {:induction false} ExtraFieldRefines(x: Key, y: Key, p: Atom, q: Atom)
    requires |x| == |y|
    ensures CompareKeys(x + [p], y + [q]) == if x == y then CompareKeys([p], [q]) else CompareKeys(x, y)
  {
    if x == [] {
      assert x + [p] == [p] && y + [q] == [q];
    } else {
      assert (x + [p])[1..] == x[1..] + [p] && (y + [q])[1..] == y[1..] + [q];
      assert x == [x[0]] + x[1..] && y == [y[0]] + y[1..];
      ExtraFieldRefines(x[1..], y[1..], p, q);
    }
  }

  function CauseOf(e: WorkloadEvent): Causality
    requires IsUpsert(e)
  {
    e.cause
  }

  /** Between upserts, a replacement never goes back in cause, and any step forward in cause
      is a replacement. */
  lemma UpsertReplacement(a: WorkloadEvent, b: WorkloadEvent)
    requires IsUpsert(a) && IsUpsert(b)
    ensures ReplacesWorkload(a, b) ==> CompareKeys(CauseKey(CauseOf(a)), CauseKey(CauseOf(b))) != Greater
    ensures CompareKeys(CauseKey(CauseOf(a)), CauseKey(CauseOf(b))) == Less ==> ReplacesWorkload(a, b)
    ensures ReplacesWorkload(a, b) && CompareKeys(CauseKey(CauseOf(a)), CauseKey(CauseOf(b))) != Less
            ==> a.UpsertSpec? && b.UpsertSpec? && a.nodeId < b.nodeId
    ensures a.UpsertSpec? && b.UpsertSpec? && a.nodeId < b.nodeId && CauseKey(a.cause) == CauseKey(b.cause)
            ==> ReplacesWorkload(a, b)
  {
    CompareKeysLaws(CauseKey(CauseOf(a)), CauseKey(CauseOf(b)));
    if a.UpsertSpec? && b.UpsertSpec? {
      ExtraFieldRefines(CauseKey(a.cause), CauseKey(b.cause), Num(a.nodeId), Num(b.nodeId));
    }
  }

  lemma UpsertsReplaceTransitively(a: WorkloadEvent, b: WorkloadEvent, c: WorkloadEvent)
    requires IsUpsert(a) && IsUpsert(b) && IsUpsert(c)
    requires ReplacesWorkload(a, b) && ReplacesWorkload(b, c)
    ensures ReplacesWorkload(a, c)
  {
    UpsertReplacement(a, b);
    UpsertReplacement(b, c);
    UpsertReplacement(a, c);
    var x, y, z := CauseKey(CauseOf(a)), CauseKey(CauseOf(b)), CauseKey(CauseOf(c));
    CompareKeysTransitive(x, y, z);
    CompareKeysLaws(x, y);
    CompareKeysLaws(y, z);
  }

  /** The task replacement rule is transitive over specs, statuses, removals, admission groups
      and progress records alike. */
  lemma WorkloadReplacesTransitively(a: WorkloadEvent, b: WorkloadEvent, c: WorkloadEvent)
    requires ReplacesWorkload(a, b) && ReplacesWorkload(b, c)
    ensures ReplacesWorkload(a, c)
  {
    if IsUpsert(a) && IsUpsert(b) && IsUpsert(c) {
      UpsertsReplaceTransitively(a, b, c);
    } else if a.UpsertAdmissionGroup? {
      CompareKeysTransitive([Num(a.phaseRank)] + OptionalKey(a.stamp) + [Num(a.coordinator)],
                            [Num(b.phaseRank)] + OptionalKey(b.stamp) + [Num(b.coordinator)],
                            [Num(c.phaseRank)] + OptionalKey(c.stamp) + [Num(c.coordinator)]);
    } else if a.UpsertServiceProgress? {
      CompareKeysTransitive(OptionalKey(a.stamp) + [Num(a.observed), Num(a.running), Num(a.recordRank)],
                            OptionalKey(b.stamp) + [Num(b.observed), Num(b.running), Num(b.recordRank)],
                            OptionalKey(c.stamp) + [Num(c.observed), Num(c.running), Num(c.recordRank)]);
    } else {
      RemovalReplacesTransitively(a, b, c);
    }
  }

  lemma RemovalReplacesTransitively(a: WorkloadEvent, b: WorkloadEvent, c: WorkloadEvent)
    requires forall e :: e in [a, b, c] ==> IsUpsert(e) || e.RemoveWorkload?
    requires a.RemoveWorkload? || b.RemoveWorkload? || c.RemoveWorkload?
    requires ReplacesWorkload(a, b) && ReplacesWorkload(b, c)
    ensures ReplacesWorkload(a, c)
  {
    assert forall e :: e in [a, b, c] <==> e == a || e == b || e == c;
    if IsUpsert(a) && IsUpsert(b) {
      UpsertReplacement(a, b);
      CauseOrder(CauseOf(a), CauseOf(b));
    } else if IsUpsert(b) && IsUpsert(c) {
      UpsertReplacement(b, c);
      CauseOrder(CauseOf(b), CauseOf(c));
    } else if IsUpsert(a) && IsUpsert(c) {
      CauseOrder(CauseOf(a), CauseOf(c));
      UpsertReplacement(a, c);
    }
  }

  /** For every batch and every task, the update that is sent is not older than any update of
      that task in the batch. */
  lemma TasksKeepNewest(pending: seq<Message>, task: Uuid)
    ensures KeepsNewest(pending, TaskSlot(task))
  {
    forall a, b, c | a in pending && b in pending && c in pending
                     && SlotOf(a) == SlotOf(b) == SlotOf(c) == Some(TaskSlot(task))
                     && Replaces(a, b) && Replaces(b, c)
      ensures Replaces(a, c)
    {
      WorkloadReplacesTransitively(a.workload, b.workload, c.workload);
    }
    TransitiveKeepsNewest(pending, TaskSlot(task));
  }

  // ----- Scheduler digests -----

  function DigestFields(v: DigestValue): seq<int> {
    [v.snapshotVersion, v.updatedAt, v.freeSlots, v.freeCpu, v.freeMemory, v.largestCpu, v.largestMemory, v.freeGpus,
     if v.gpuReady then 1 else 0, v.nodeId]
  }

  /** The snapshot version decides, then the time, then the capacities. */
  ghost predicate Before(a: DigestValue, b: DigestValue) {
    !NotBelow(DigestFields(a), DigestFields(b))
  }

  lemma BeforeByFields(a: DigestValue, b: DigestValue)
    ensures Before(a, b) <==> CompareKeys(DigestKey(a), DigestKey(b)) == Less
  {
    assert Nums(DigestFields(a)) == DigestKey(a) && Nums(DigestFields(b)) == DigestKey(b);
    NumsCompare(DigestFields(a), DigestFields(b));
  }

  /** Two digests with the same state enclose one with another state. */
  ghost predicate Encloses(a: DigestValue, c: DigestValue, b: DigestValue) {
    SameState(a, b) && !SameState(a, c) && Before(a, c) && Before(c, b)
  }

  ghost predicate HasEnclosure(values: set<DigestValue>) {
    exists a, b, c :: a in values && b in values && c in values && Encloses(a, c, b)
  }

  /** Every digest of the node in the batch is a removal or comes from `values`. */
  ghost predicate DigestsFrom(pending: seq<Message>, node: Uuid, values: set<DigestValue>) {
    forall m :: m in pending && SlotOf(m) == Some(DigestSlot(node)) ==>
      m.digest.RemoveDigest? || m.digest.value in values
  }

  lemma WithoutEnclosureTransitive(pending: seq<Message>, node: Uuid, values: set<DigestValue>)
    requires DigestsFrom(pending, node, values) && !HasEnclosure(values)
    ensures ReplacesTransitively(pending, DigestSlot(node))
  {
    forall a, b, c | a in pending && b in pending && c in pending
                     && SlotOf(a) == SlotOf(b) == SlotOf(c) == Some(DigestSlot(node))
                     && Replaces(a, b) && Replaces(b, c)
      ensures Replaces(a, c)
    {
      if c.digest.UpsertDigest? {
        var x, y, z := a.digest.value, b.digest.value, c.digest.value;
        CompareKeysTransitive(DigestKey(x), DigestKey(y), DigestKey(z));
        BeforeByFields(x, y);
        BeforeByFields(y, z);
        assert !Encloses(x, y, z);
      }
    }
  }

  lemma EnclosureReplaces(a: DigestValue, c: DigestValue, b: DigestValue)
    requires Encloses(a, c, b)
    ensures !ReplacesDigest(UpsertDigest(a), UpsertDigest(b)) && ReplacesDigest(UpsertDigest(a), UpsertDigest(c))
    ensures ReplacesDigest(UpsertDigest(c), UpsertDigest(b)) && !ReplacesDigest(UpsertDigest(b), UpsertDigest(c))
  {
    BeforeByFields(a, c);
    BeforeByFields(c, b);
    CompareKeysLaws(DigestKey(c), DigestKey(b));
  }

  lemma EnclosureKeepsStale(a: DigestValue, c: DigestValue, b: DigestValue, node: Uuid)
    requires a.nodeId == b.nodeId == c.nodeId == node && Encloses(a, c, b)
    ensures var pending := [SchedulerDigest(0, UpsertDigest(a)), SchedulerDigest(1, UpsertDigest(b)),
                            SchedulerDigest(2, UpsertDigest(c))];
            Coalesced(pending) == [SchedulerDigest(2, UpsertDigest(c))] && !KeepsNewest(pending, DigestSlot(node))
  {
    var x, y, z := SchedulerDigest(0, UpsertDigest(a)), SchedulerDigest(1, UpsertDigest(b)),
                   SchedulerDigest(2, UpsertDigest(c));
    var pending := [x, y, z];
    EnclosureReplaces(a, c, b);
    calc {
      Coalesced(pending);
    ==
      CoalesceInto(Insert([], x), pending[1..]);
    == { assert Insert([], x) == [x] && pending[1..] == [y, z]; }
      CoalesceInto(Insert([x], y), [y, z][1..]);
    == { assert Insert([x], y) == [x] && [y, z][1..] == [z]; }
      CoalesceInto(Insert([x], z), [z][1..]);
    == { assert Insert([x], z) == [z]; }
      [z];
    }
    assert y in pending && Newer(z, y);
    assert Coalesced(pending)[0] == z;
  }

  /** Over a set of digest values of one node, every batch keeps the newest digest if and only if
      no two values with the same state enclose a third with a different state. */
  lemma DigestsKeepNewestIff(values: set<DigestValue>, node: Uuid)
    requires forall v :: v in values ==> v.nodeId == node
    ensures (forall pending :: DigestsFrom(pending, node, values) ==> KeepsNewest(pending, DigestSlot(node)))
            <==> !HasEnclosure(values)
  {
    if HasEnclosure(values) {
      var a, b, c :| a in values && b in values && c in values && Encloses(a, c, b);
      EnclosureKeepsStale(a, c, b, node);
      var pending := [SchedulerDigest(0, UpsertDigest(a)), SchedulerDigest(1, UpsertDigest(b)),
                      SchedulerDigest(2, UpsertDigest(c))];
      assert DigestsFrom(pending, node, values);
    } else {
      forall pending | DigestsFrom(pending, node, values) ensures KeepsNewest(pending, DigestSlot(node)) {
        WithoutEnclosureTransitive(pending, node, values);
        TransitiveKeepsNewest(pending, DigestSlot(node));
      }
    }
  }

  /** A batch that keeps a stale digest: the same free capacity reported at times 1 and 3, then
      another reported at time 2, which is the one that is kept. */
  lemma StaleDigestExample()
    ensures var a := DigestValue(7, 1, 1, 4, 0, 0, 0, 0, 0, false);
            var b, c := a.(updatedAt := 3), a.(updatedAt := 2, freeSlots := 5);
            var pending := [SchedulerDigest(0, UpsertDigest(a)), SchedulerDigest(1, UpsertDigest(b)),
                            SchedulerDigest(2, UpsertDigest(c))];
            Coalesced(pending) == [SchedulerDigest(2, UpsertDigest(c))] && !KeepsNewest(pending, DigestSlot(7))
  {
    var a := DigestValue(7, 1, 1, 4, 0, 0, 0, 0, 0, false);
    var b, c := a.(updatedAt := 3), a.(updatedAt := 2, freeSlots := 5);
    assert DigestFields(a)[0] == DigestFields(b)[0] == DigestFields(c)[0];
    assert DigestFields(a)[1..][0] == 1 && DigestFields(b)[1..][0] == 3 && DigestFields(c)[1..][0] == 2;
    assert Encloses(a, c, b);
    EnclosureKeepsStale(a, c, b, 7);
  }

  // ----- What is kept, by its fields -----

  /** Of two phases reached at the same epoch, version and time, the first is not behind the second:
      running outranks pulling and creating, then come pending and a missing volume, stopping, stopped,
      paused, and last the failures. */
  predicate NotBehind(a: WorkloadPhase, b: WorkloadPhase) {
    match b
    case Running => a.Running?
    case Pulling => a.Running? || a.Pulling? || a.Creating?
    case Creating => a.Running? || a.Pulling? || a.Creating?
    case Pending => a.Running? || a.Pulling? || a.Creating? || a.Pending? || a.VolumeUnavailable?
    case VolumeUnavailable => a.Running? || a.Pulling? || a.Creating? || a.Pending? || a.VolumeUnavailable?
    case Stopping => !a.Stopped? && !a.Paused? && !a.Failed? && !a.Exited? && !a.Unknown?
    case Stopped => !a.Paused? && !a.Failed? && !a.Exited? && !a.Unknown?
    case Paused => !a.Failed? && !a.Exited? && !a.Unknown?
    case _ => true
  }

  /** The epoch decides, then the phase version, then the time, then the phase. */
  predicate AtLeastAsNew(a: Causality, b: Causality) {
    || a.taskEpoch > b.taskEpoch
    || (a.taskEpoch == b.taskEpoch &&
        (|| a.phaseVersion > b.phaseVersion
         || (a.phaseVersion == b.phaseVersion &&
             (AfterTime(a.stamp, b.stamp) || (a.stamp == b.stamp && NotBehind(a.phase, b.phase))))))
  }

  lemma CauseFields(a: Causality, b: Causality)
    ensures CompareKeys(CauseKey(a), CauseKey(b)) != Less <==> AtLeastAsNew(a, b)
  {
    var x := [a.taskEpoch, a.phaseVersion] + TimeFields(a.stamp) + [PhaseRank(a.phase)];
    var y := [b.taskEpoch, b.phaseVersion] + TimeFields(b.stamp) + [PhaseRank(b.phase)];
    assert Nums(x) == CauseKey(a) && Nums(y) == CauseKey(b);
    NumsCompare(x, y);
    var x', y' := TimeFields(a.stamp) + [PhaseRank(a.phase)], TimeFields(b.stamp) + [PhaseRank(b.phase)];
    assert x == [a.taskEpoch] + ([a.phaseVersion] + x') && y == [b.taskEpoch] + ([b.phaseVersion] + y');
    NotBelowHead(a.taskEpoch, [a.phaseVersion] + x', b.taskEpoch, [b.phaseVersion] + y');
    NotBelowHead(a.phaseVersion, x', b.phaseVersion, y');
    NotBelowTime(a.stamp, [PhaseRank(a.phase)], b.stamp, [PhaseRank(b.phase)]);
  }

  /** The kept event `k` against the event `m` of the same task in the batch. Specs, statuses and
      removals are one family; admission groups and progress records are families of their own. */
  predicate KeptOver(k: WorkloadEvent, m: WorkloadEvent) {
    match (k, m)
    case (RemoveWorkload(_, e), RemoveWorkload(_, e')) => e >= e'
    case (RemoveWorkload(_, e), UpsertSpec(_, c, _, _, _)) => e >= c.taskEpoch
    case (RemoveWorkload(_, e), UpsertStatus(_, c, _, _)) => e >= c.taskEpoch
    case (UpsertSpec(_, c, _, _, _), RemoveWorkload(_, e)) => c.taskEpoch > e
    case (UpsertStatus(_, c, _, _), RemoveWorkload(_, e)) => c.taskEpoch > e
    case (UpsertAdmissionGroup(_, r, t, n, _), UpsertAdmissionGroup(_, r', t', n', _)) =>
      r > r' || (r == r' && (AfterTime(t, t') || (t == t' && n >= n')))
    case (UpsertServiceProgress(_, t, o, n, r), UpsertServiceProgress(_, t', o', n', r')) =>
      AfterTime(t, t') || (t == t' && (o > o' || (o == o' && (n > n' || (n == n' && r >= r')))))
    case (UpsertSpec(_, c, n, _, _), UpsertSpec(_, c', n', _, _)) =>
      AtLeastAsNew(c, c') && (AtLeastAsNew(c', c) ==> n >= n')
    case _ => IsUpsert(k) && IsUpsert(m) ==> AtLeastAsNew(k.cause, m.cause)
  }

  lemma GroupFields(a: WorkloadEvent, b: WorkloadEvent)
    requires a.UpsertAdmissionGroup? && b.UpsertAdmissionGroup? && !ReplacesWorkload(a, b)
    ensures KeptOver(a, b)
  {
    var x := [a.phaseRank] + TimeFields(a.stamp) + [a.coordinator];
    var y := [b.phaseRank] + TimeFields(b.stamp) + [b.coordinator];
    assert Nums(x) == [Num(a.phaseRank)] + OptionalKey(a.stamp) + [Num(a.coordinator)];
    assert Nums(y) == [Num(b.phaseRank)] + OptionalKey(b.stamp) + [Num(b.coordinator)];
    NumsCompare(x, y);
    assert x == [a.phaseRank] + (TimeFields(a.stamp) + [a.coordinator]);
    assert y == [b.phaseRank] + (TimeFields(b.stamp) + [b.coordinator]);
    NotBelowHead(a.phaseRank, TimeFields(a.stamp) + [a.coordinator], b.phaseRank, TimeFields(b.stamp) + [b.coordinator]);
    NotBelowTime(a.stamp, [a.coordinator], b.stamp, [b.coordinator]);
  }

  lemma ProgressFields(a: WorkloadEvent, b: WorkloadEvent)
    requires a.UpsertServiceProgress? && b.UpsertServiceProgress? && !ReplacesWorkload(a, b)
    ensures KeptOver(a, b)
  {
    var x := TimeFields(a.stamp) + [a.observed, a.running, a.recordRank];
    var y := TimeFields(b.stamp) + [b.observed, b.running, b.recordRank];
    assert Nums(x) == OptionalKey(a.stamp) + [Num(a.observed), Num(a.running), Num(a.recordRank)];
    assert Nums(y) == OptionalKey(b.stamp) + [Num(b.observed), Num(b.running), Num(b.recordRank)];
    NumsCompare(x, y);
    NotBelowTime(a.stamp, [a.observed, a.running, a.recordRank], b.stamp, [b.observed, b.running, b.recordRank]);
    assert [a.observed, a.running, a.recordRank] == [a.observed] + ([a.running] + [a.recordRank]);
    assert [b.observed, b.running, b.recordRank] == [b.observed] + ([b.running] + [b.recordRank]);
    NotBelowHead(a.observed, [a.running] + [a.recordRank], b.observed, [b.running] + [b.recordRank]);
    NotBelowHead(a.running, [a.recordRank], b.running, [b.recordRank]);
  }

  lemma UnreplacedFields(k: WorkloadEvent, m: WorkloadEvent)
    requires !ReplacesWorkload(k, m)
    ensures KeptOver(k, m)
  {
    if IsUpsert(k) && IsUpsert(m) {
      UpsertReplacement(k, m);
      CauseFields(k.cause, m.cause);
      CauseFields(m.cause, k.cause);
      CompareKeysLaws(CauseKey(k.cause), CauseKey(m.cause));
    } else if k.UpsertAdmissionGroup? && m.UpsertAdmissionGroup? {
      GroupFields(k, m);
    } else if k.UpsertServiceProgress? && m.UpsertServiceProgress? {
      ProgressFields(k, m);
    }
  }

  /** No two workload events replace each other. */
  lemma ReplacesOneWay(a: WorkloadEvent, b: WorkloadEvent)
    requires ReplacesWorkload(a, b)
    ensures !ReplacesWorkload(b, a)
  {
    if IsUpsert(a) && IsUpsert(b) {
      UpsertReplacement(a, b);
      UpsertReplacement(b, a);
      CompareKeysLaws(CauseKey(CauseOf(a)), CauseKey(CauseOf(b)));
    } else if a.UpsertAdmissionGroup? {
      CompareKeysLaws([Num(a.phaseRank)] + OptionalKey(a.stamp) + [Num(a.coordinator)],
                      [Num(b.phaseRank)] + OptionalKey(b.stamp) + [Num(b.coordinator)]);
    } else if a.UpsertServiceProgress? {
      CompareKeysLaws(OptionalKey(a.stamp) + [Num(a.observed), Num(a.running), Num(a.recordRank)],
                      OptionalKey(b.stamp) + [Num(b.observed), Num(b.running), Num(b.recordRank)]);
    }
  }

  /** Of every batch, one event of each task is kept, and it is kept over every other by its own fields. */
  lemma KeptTaskIsNewest(pending: seq<Message>, m: Message)
    requires m in pending && m.Workload?
    ensures exists i :: 0 <= i < |Coalesced(pending)| && IsKeptFor(Coalesced(pending), i, m, pending)
  {
    var out, slot := Coalesced(pending), TaskSlot(m.workload.id);
    CoalescedSummarises(pending);
    var i := KeptAt(pending, m);
    TasksKeepNewest(pending, m.workload.id);
    assert !Newer(out[i], m);
    if ReplacesWorkload(out[i].workload, m.workload) {
      ReplacesOneWay(out[i].workload, m.workload);
    }
    UnreplacedFields(out[i].workload, m.workload);
    forall j | 0 <= j < |out| && out[j].Workload? && out[j].workload.id == m.workload.id ensures j == i {
      assert SlotOf(out[j]) == Some(slot) == SlotOf(out[i]);
    }
    assert IsKeptFor(out, i, m, pending);
  }

  /** The one workload event of `m`'s task is at `i`, and is kept over `m`. */
  ghost predicate IsKeptFor(out: seq<Message>, i: nat, m: Message, pending: seq<Message>)
    requires i < |out| && m.Workload?
  {
    && out[i] in pending && out[i].Workload? && out[i].workload.id == m.workload.id && KeptOver(out[i].workload, m.workload)
    && forall j :: 0 <= j < |out| && out[j].Workload? && out[j].workload.id == m.workload.id ==> j == i
  }

  /** Where the message kept for `m`'s slot is. */
  lemma KeptAt(pending: seq<Message>, m: Message) returns (i: nat)
    requires m in pending && SlotOf(m).Some?
    ensures i < |Coalesced(pending)| && SlotOf(Coalesced(pending)[i]) == SlotOf(m) && Coalesced(pending)[i] in pending
  {
    var out := Coalesced(pending);
    CoalescedSummarises(pending);
    var k :| 0 <= k < |pending| && pending[k] == m;
    assert Slots(pending)[k] == SlotOf(m);
    FirstOccurrencesKeepsAll(Slots(pending), SlotOf(m));
    i :| 0 <= i < |out| && Slots(out)[i] == SlotOf(m);
    WinnerIsInSlot(pending, SlotOf(m).value);
  }

  // ----- Which kind of event is kept -----

  datatype Family = TaskFamily | GroupFamily | ProgressFamily

  function FamilyOf(e: WorkloadEvent): Family {
    match e
    case UpsertAdmissionGroup(_, _, _, _, _) => GroupFamily
    case UpsertServiceProgress(_, _, _, _, _) => ProgressFamily
    case _ => TaskFamily
  }

  /** The first event of one task in the batch. */
  function FirstOf(pending: seq<Message>, task: Uuid): Option<WorkloadEvent> {
    if pending == [] then None
    else if pending[0].Workload? && pending[0].workload.id == task then Some(pending[0].workload)
    else FirstOf(pending[1..], task)
  }

  lemma {:induction false} FirstOfAppend(before: seq<Message>, m: Message, task: Uuid)
    ensures FirstOf(before + [m], task) ==
              if FirstOf(before, task).Some? then FirstOf(before, task)
              else if m.Workload? && m.workload.id == task then Some(m.workload) else None
  {
    if before == [] {
      assert before + [m] == [m] && [m][1..] == [];
    } else {
      assert (before + [m])[1..] == before[1..] + [m];
      FirstOfAppend(before[1..], m, task);
    }
  }

  lemma {:induction false} WinnerFamily(pending: seq<Message>, task: Uuid)
    ensures Winner(pending, TaskSlot(task)).Some? <==> FirstOf(pending, task).Some?
    ensures Winner(pending, TaskSlot(task)).Some? ==>
              && Winner(pending, TaskSlot(task)).value.Workload?
              && FamilyOf(Winner(pending, TaskSlot(task)).value.workload) == FamilyOf(FirstOf(pending, task).value)
  {
    if pending != [] {
      var before, m := pending[..|pending| - 1], pending[|pending| - 1];
      assert pending == before + [m];
      FirstOfAppend(before, m, task);
      WinnerFamily(before, task);
    }
  }

  /** An event never replaces one of another family, so the family that came first stays. */
  lemma FirstFamilyIsKept(pending: seq<Message>, i: nat)
    requires i < |Coalesced(pending)| && Coalesced(pending)[i].Workload?
    ensures var e := Coalesced(pending)[i].workload;
            FirstOf(pending, e.id).Some? && FamilyOf(e) == FamilyOf(FirstOf(pending, e.id).value)
  {
    CoalescedSummarises(pending);
    WinnerFamily(pending, Coalesced(pending)[i].workload.id);
  }

  // ----- Digests by their fields -----

  /** The one digest of `m`'s node is at `i`. */
  ghost predicate IsDigestFor(out: seq<Message>, i: nat, m: Message)
    requires i < |out| && m.SchedulerDigest?
  {
    && out[i].SchedulerDigest? && NodeOf(out[i].digest) == NodeOf(m.digest)
    && forall j :: 0 <= j < |out| && out[j].SchedulerDigest? && NodeOf(out[j].digest) == NodeOf(m.digest) ==> j == i
  }

  function NodeOf(e: DigestEvent): Uuid {
    if e.UpsertDigest? then e.value.nodeId else e.nodeId
  }

  lemma {:induction false} RemovalWins(pending: seq<Message>, node: Uuid, m: Message)
    requires m in pending && m.SchedulerDigest? && m.digest == RemoveDigest(node)
    ensures Winner(pending, DigestSlot(node)).Some? && Winner(pending, DigestSlot(node)).value.SchedulerDigest?
    ensures Winner(pending, DigestSlot(node)).value.digest.RemoveDigest?
  {
    var before, z := pending[..|pending| - 1], pending[|pending| - 1];
    assert pending == before + [z];
    WinnerIsInSlot(pending, DigestSlot(node));
    WinnerIsInSlot(before, DigestSlot(node));
    if m in before {
      RemovalWins(before, node, m);
    }
  }

  /** Of every batch, one digest event of each node is kept. It is a removal if the batch has one of the
      node; and if no two digests with the same state enclose a third, it is no older by its own fields
      than any digest of the node in another state. */
  lemma KeptDigestIsNewest(pending: seq<Message>, m: Message)
    requires m in pending && m.SchedulerDigest?
    ensures exists i :: 0 <= i < |Coalesced(pending)| && IsDigestFor(Coalesced(pending), i, m)
                        && DigestKeptOver(Coalesced(pending)[i].digest, m.digest, pending)
  {
    var out, node := Coalesced(pending), NodeOf(m.digest);
    CoalescedSummarises(pending);
    var i := KeptAt(pending, m);
    forall j | 0 <= j < |out| && out[j].SchedulerDigest? && NodeOf(out[j].digest) == node ensures j == i {
      assert SlotOf(out[j]) == Some(DigestSlot(node)) == SlotOf(out[i]);
    }
    assert IsDigestFor(out, i, m);
    if m.digest.RemoveDigest? {
      RemovalWins(pending, node, m);
    } else if out[i].digest.UpsertDigest? && !HasEnclosure(DigestsOf(pending, node)) {
      WithoutEnclosureTransitive(pending, node, DigestsOf(pending, node));
      TransitiveKeepsNewest(pending, DigestSlot(node));
      assert !Newer(out[i], m);
      CompareKeysLaws(DigestKey(out[i].digest.value), DigestKey(m.digest.value));
      BeforeByFields(out[i].digest.value, m.digest.value);
    }
  }

  function DigestsOf(pending: seq<Message>, node: Uuid): set<DigestValue> {
    set m | m in pending && m.SchedulerDigest? && m.digest.UpsertDigest? && m.digest.value.nodeId == node :: m.digest.value
  }

  ghost predicate DigestKeptOver(k: DigestEvent, m: DigestEvent, pending: seq<Message>) {
    && (m.RemoveDigest? ==> k.RemoveDigest?)
    && (k.UpsertDigest? && m.UpsertDigest? && !SameState(k.value, m.value) ==>
          HasEnclosure(DigestsOf(pending, m.value.nodeId)) || NotBelow(DigestFields(k.value), DigestFields(m.value)))
  }
}

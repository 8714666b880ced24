/** Coalescing of pending outbound messages (src/gossip/outbound.rs:52-152, with the replacement
    rules of src/workload/model.rs and src/scheduler/digest.rs). */
module Coalesce {
  import opened Basics
  import opened Messages

  // ----- Which update replaces which -----

  function PhaseRank(phase: WorkloadPhase): nat {
    match phase
    case Failed => 0
    case Exited(_) => 0
    case Unknown => 0
    case Paused => 1
    case Stopped => 2
    case Stopping => 3
    case Pending => 4
    case VolumeUnavailable => 4
    case Pulling => 5
    case Creating => 5
    case Running => 6
  }

  function CauseKey(c: Causality): Key {
    [Num(c.taskEpoch), Num(c.phaseVersion)] + OptionalKey(c.stamp) + [Num(PhaseRank(c.phase))]
  }

  predicate IsUpsert(e: WorkloadEvent) {
    e.UpsertSpec? || e.UpsertStatus?
  }

  predicate ReplacesWorkload(current: WorkloadEvent, candidate: WorkloadEvent) {
    match (current, candidate)
    case (RemoveWorkload(_, epoch), RemoveWorkload(_, newEpoch)) => newEpoch > epoch
    case (RemoveWorkload(_, epoch), UpsertSpec(_, cause, _, _, _)) => cause.taskEpoch > epoch
    case (RemoveWorkload(_, epoch), UpsertStatus(_, cause, _, _)) => cause.taskEpoch > epoch
    case (UpsertSpec(_, cause, _, _, _), RemoveWorkload(_, epoch)) => epoch >= cause.taskEpoch
    case (UpsertStatus(_, cause, _, _), RemoveWorkload(_, epoch)) => epoch >= cause.taskEpoch
    case (UpsertSpec(_, c, n, _, _), UpsertSpec(_, c', n', _, _)) =>
      CompareKeys(CauseKey(c) + [Num(n)], CauseKey(c') + [Num(n')]) == Less
    case (UpsertSpec(_, c, _, _, _), UpsertStatus(_, c', _, _)) => CompareKeys(CauseKey(c), CauseKey(c')) == Less
    case (UpsertStatus(_, c, _, _), UpsertSpec(_, c', _, _, _)) => CompareKeys(CauseKey(c), CauseKey(c')) == Less
    case (UpsertStatus(_, c, _, _), UpsertStatus(_, c', _, _)) => CompareKeys(CauseKey(c), CauseKey(c')) == Less
    case (UpsertAdmissionGroup(_, r, t, k, _), UpsertAdmissionGroup(_, r', t', k', _)) =>
      CompareKeys([Num(r)] + OptionalKey(t) + [Num(k)], [Num(r')] + OptionalKey(t') + [Num(k')]) == Less
    case (UpsertServiceProgress(_, t, o, n, r), UpsertServiceProgress(_, t', o', n', r')) =>
      CompareKeys(OptionalKey(t) + [Num(o), Num(n), Num(r)], OptionalKey(t') + [Num(o'), Num(n'), Num(r')]) == Less
    case _ => false
  }

  function DigestKey(v: DigestValue): Key {
    [Num(v.snapshotVersion), Num(v.updatedAt), Num(v.freeSlots), Num(v.freeCpu), Num(v.freeMemory),
     Num(v.largestCpu), Num(v.largestMemory), Num(v.freeGpus), Flag(v.gpuReady), Num(v.nodeId)]
  }

  /** Two digests that differ at most in their timestamp. */
  predicate SameState(a: DigestValue, b: DigestValue) {
    a.(updatedAt := 0) == b.(updatedAt := 0)
  }

  predicate ReplacesDigest(current: DigestEvent, candidate: DigestEvent) {
    match (current, candidate)
    case (_, RemoveDigest(_)) => true
    case (RemoveDigest(_), UpsertDigest(_)) => false
    case (UpsertDigest(a), UpsertDigest(b)) => !SameState(a, b) && CompareKeys(DigestKey(a), DigestKey(b)) == Less
  }

  predicate Replaces(current: Message, candidate: Message) {
    if current.Workload? && candidate.Workload? then ReplacesWorkload(current.workload, candidate.workload)
    else if current.SchedulerDigest? && candidate.SchedulerDigest? then ReplacesDigest(current.digest, candidate.digest)
    else false
  }

  /** `b` is strictly newer than `a`. */
  predicate Newer(a: Message, b: Message) {
    Replaces(a, b) && !Replaces(b, a)
  }

  // ----- The coalesced list -----

  /** What a message is coalesced by: one task, or one node's digest. */
  datatype Slot = TaskSlot(task: Uuid) | DigestSlot(node: Uuid)

  function SlotOf(m: Message): Option<Slot> {
    match m
    case Workload(_, event) => Some(TaskSlot(event.id))
    case SchedulerDigest(_, event) => Some(DigestSlot(DigestNode(event)))
    case _ => None
  }

  function Slots(ms: seq<Message>): seq<Option<Slot>> {
    seq(|ms|, i requires 0 <= i < |ms| => SlotOf(ms[i]))
  }

  /** The position of the first message in the slot, or the length when there is none. */
  function Find(ms: seq<Message>, slot: Slot): (p: nat)
    ensures p <= |ms|
    ensures p < |ms| ==> SlotOf(ms[p]) == Some(slot)
    ensures forall i :: 0 <= i < p ==> SlotOf(ms[i]) != Some(slot)
  {
    if ms == [] || SlotOf(ms[0]) == Some(slot) then 0 else 1 + Find(ms[1..], slot)
  }

  predicate Repeats(out: seq<Message>, m: Message) {
    SlotOf(m).Some? && Find(out, SlotOf(m).value) < |out|
  }

  function Insert(out: seq<Message>, m: Message): seq<Message> {
    if !Repeats(out, m) then out + [m]
    else
      var p := Find(out, SlotOf(m).value);
      if Replaces(out[p], m) then out[p := m] else out
  }

  function CoalesceInto(out: seq<Message>, pending: seq<Message>): seq<Message>
    decreases |pending|
  {
    if pending == [] then out else CoalesceInto(Insert(out, pending[0]), pending[1..])
  }

  function DroppedInto(out: seq<Message>, pending: seq<Message>): nat
    decreases |pending|
  {
    if pending == [] then 0
    else (if Repeats(out, pending[0]) then 1 else 0) + DroppedInto(Insert(out, pending[0]), pending[1..])
  }

  function Coalesced(pending: seq<Message>): seq<Message> {
    CoalesceInto([], pending)
  }

  function Dropped(pending: seq<Message>): nat {
    DroppedInto([], pending)
  }

  /** Each slot at most once. */
  ghost predicate DistinctSlots(ms: seq<Message>) {
    forall i, j :: 0 <= i < j < |ms| && SlotOf(ms[i]).Some? ==> SlotOf(ms[i]) != SlotOf(ms[j])
  }

  /** The two maps give the position of every slot in the list. */
  ghost predicate TracksTasks(positions: map<Uuid, nat>, out: seq<Message>) {
    && (forall t :: t in positions <==> Find(out, TaskSlot(t)) < |out|)
    && (forall t :: t in positions ==> positions[t] == Find(out, TaskSlot(t)))
  }

  ghost predicate TracksDigests(positions: map<Uuid, nat>, out: seq<Message>) {
    && (forall d :: d in positions <==> Find(out, DigestSlot(d)) < |out|)
    && (forall d :: d in positions ==> positions[d] == Find(out, DigestSlot(d)))
  }

  lemma FindAfterReplace(out: seq<Message>, p: nat, m: Message, slot: Slot)
    requires p < |out| && SlotOf(m) == SlotOf(out[p])
    ensures Find(out[p := m], slot) == Find(out, slot)
  {
    assert forall i :: 0 <= i < |out| ==> SlotOf(out[p := m][i]) == SlotOf(out[i]);
  }

  lemma FindAfterAppend(out: seq<Message>, m: Message, slot: Slot)
    ensures Find(out + [m], slot)
            == if Find(out, slot) < |out| then Find(out, slot)
               else if SlotOf(m) == Some(slot) then |out| else |out| + 1
  {
    var p, q := Find(out, slot), Find(out + [m], slot);
    assert forall i :: 0 <= i < |out| ==> SlotOf((out + [m])[i]) == SlotOf(out[i]);
    assert SlotOf((out + [m])[|out|]) == SlotOf(m);
  }

  lemma TracksAfterReplace(tasks: map<Uuid, nat>, digests: map<Uuid, nat>, out: seq<Message>, p: nat, m: Message)
    requires TracksTasks(tasks, out) && TracksDigests(digests, out)
    requires p < |out| && SlotOf(m) == SlotOf(out[p])
    ensures TracksTasks(tasks, out[p := m]) && TracksDigests(digests, out[p := m])
  {
    forall t { FindAfterReplace(out, p, m, TaskSlot(t)); }
    forall d { FindAfterReplace(out, p, m, DigestSlot(d)); }
  }

  lemma TracksAfterAppend(tasks: map<Uuid, nat>, digests: map<Uuid, nat>, out: seq<Message>, m: Message)
    requires TracksTasks(tasks, out) && TracksDigests(digests, out) && !Repeats(out, m)
    ensures TracksTasks(if m.Workload? then tasks[m.workload.id := |out|] else tasks, out + [m])
    ensures TracksDigests(if m.SchedulerDigest? then digests[DigestNode(m.digest) := |out|] else digests, out + [m])
  {
    forall t { FindAfterAppend(out, m, TaskSlot(t)); }
    forall d { FindAfterAppend(out, m, DigestSlot(d)); }
  }

  /** The source's loop: one growing list and two position maps. */
  method CoalescePending(pending: seq<Message>) returns (coalesced: seq<Message>, dropped: nat)
    ensures coalesced == Coalesced(pending) && dropped == Dropped(pending)
  {
    coalesced, dropped := [], 0;
    var tasks: map<Uuid, nat> := map[];
    var digests: map<Uuid, nat> := map[];
    for n := 0 to |pending|
      invariant TracksTasks(tasks, coalesced) && TracksDigests(digests, coalesced)
      invariant CoalesceInto(coalesced, pending[n..]) == Coalesced(pending)
      invariant dropped + DroppedInto(coalesced, pending[n..]) == Dropped(pending)
    {
      assert pending[n..] == [pending[n]] + pending[n + 1..];
      var repeated;
      coalesced, repeated, tasks, digests := CoalesceOne(coalesced, pending[n], tasks, digests);
      if repeated {
        dropped := dropped + 1;
      }
    }
    assert pending[|pending|..] == [];
  }

  /** One turn of the loop. */
  method CoalesceOne(out: seq<Message>, message: Message, tasks: map<Uuid, nat>, digests: map<Uuid, nat>)
    returns (coalesced: seq<Message>, repeated: bool, tasks': map<Uuid, nat>, digests': map<Uuid, nat>)
    requires TracksTasks(tasks, out) && TracksDigests(digests, out)
    ensures coalesced == Insert(out, message) && repeated == Repeats(out, message)
    ensures TracksTasks(tasks', coalesced) && TracksDigests(digests', coalesced)
  {
    coalesced, repeated, tasks', digests' := out, false, tasks, digests;
    if message.Workload? {
      var task := message.workload.id;
      if task in tasks {
        repeated := true;
        if Replaces(out[tasks[task]], message) {
          coalesced := out[tasks[task] := message];
          TracksAfterReplace(tasks, digests, out, tasks[task], message);
        }
        return;
      }
      tasks' := tasks[task := |out|];
    } else if message.SchedulerDigest? {
      var node := DigestNode(message.digest);
      if node in digests {
        repeated := true;
        if Replaces(out[digests[node]], message) {
          coalesced := out[digests[node] := message];
          TracksAfterReplace(tasks, digests, out, digests[node], message);
        }
        return;
      }
      digests' := digests[node := |out|];
    }
    coalesced := out + [message];
    TracksAfterAppend(tasks, digests, out, message);
  }

  // ----- Coalescing is incremental -----

  lemma {:induction false} CoalesceAppend(out: seq<Message>, a: seq<Message>, b: seq<Message>)
    ensures CoalesceInto(out, a + b) == CoalesceInto(CoalesceInto(out, a), b)
    ensures DroppedInto(out, a + b) == DroppedInto(out, a) + DroppedInto(CoalesceInto(out, a), b)
    decreases |a|
  {
    if a == [] {
      assert a + b == b;
    } else {
      assert (a + b)[1..] == a[1..] + b;
      CoalesceAppend(Insert(out, a[0]), a[1..], b);
    }
  }

  lemma {:induction false} CoalesceKeepsDistinct(out: seq<Message>, pending: seq<Message>)
    requires DistinctSlots(out)
    ensures DistinctSlots(CoalesceInto(out, pending))
    decreases |pending|
  {
    if pending != [] {
      CoalesceKeepsDistinct(Insert(out, pending[0]), pending[1..]);
    }
  }

  lemma {:induction false} CoalesceDistinctIsIdentity(out: seq<Message>, rest: seq<Message>)
    requires DistinctSlots(out + rest)
    ensures CoalesceInto(out, rest) == out + rest && DroppedInto(out, rest) == 0
    decreases |rest|
  {
    if rest != [] {
      var all := out + rest;
      assert all[|out|] == rest[0];
      assert forall i :: 0 <= i < |out| ==> all[i] == out[i];
      assert out + rest == (out + [rest[0]]) + rest[1..];
      CoalesceDistinctIsIdentity(out + [rest[0]], rest[1..]);
    }
  }

  /** Coalescing what was already coalesced together with later messages gives the same list as
      coalescing everything at once, and the drop counts add up. */
  lemma CoalescingIsIncremental(a: seq<Message>, b: seq<Message>)
    ensures Coalesced(a + b) == Coalesced(Coalesced(a) + b)
    ensures Dropped(a + b) == Dropped(a) + Dropped(Coalesced(a) + b)
  {
    CoalesceAppend([], a, b);
    CoalesceAppend([], Coalesced(a), b);
    CoalesceKeepsDistinct([], a);
    assert [] + Coalesced(a) == Coalesced(a);
    CoalesceDistinctIsIdentity([], Coalesced(a));
  }

  // ----- What the coalesced list contains -----

  /** Keeps the first occurrence of every slot and every unslotted position. */
  function FirstOccurrences(slots: seq<Option<Slot>>): seq<Option<Slot>> {
    if slots == [] then []
    else
      var last := |slots| - 1;
      var before := FirstOccurrences(slots[..last]);
      if slots[last].Some? && slots[last] in before then before else before + [slots[last]]
  }

  function Unslotted(ms: seq<Message>): seq<Message> {
    if ms == [] then []
    else
      var last := |ms| - 1;
      Unslotted(ms[..last]) + if SlotOf(ms[last]).None? then [ms[last]] else []
  }

  /** The message left standing when the updates of one slot arrive in order. */
  function Winner(pending: seq<Message>, slot: Slot): Option<Message> {
    if pending == [] then None
    else
      var last := |pending| - 1;
      var m, best := pending[last], Winner(pending[..last], slot);
      if SlotOf(m) != Some(slot) then best
      else if best.None? || Replaces(best.value, m) then Some(m)
      else best
  }

  /** These three facts determine the coalesced list. */
  ghost predicate Summarises(out: seq<Message>, pending: seq<Message>) {
    && Slots(out) == FirstOccurrences(Slots(pending))
    && Unslotted(out) == Unslotted(pending)
    && (forall i :: 0 <= i < |out| && SlotOf(out[i]).Some? ==> Some(out[i]) == Winner(pending, SlotOf(out[i]).value))
  }

  lemma CoalesceLast(pending: seq<Message>)
    requires pending != []
    ensures Coalesced(pending) == Insert(Coalesced(pending[..|pending| - 1]), pending[|pending| - 1])
    ensures Dropped(pending) == Dropped(pending[..|pending| - 1])
                                + if Repeats(Coalesced(pending[..|pending| - 1]), pending[|pending| - 1]) then 1 else 0
  {
    var before, m := pending[..|pending| - 1], pending[|pending| - 1];
    assert pending == before + [m];
    CoalesceAppend([], before, [m]);
    assert [m][1..] == [];
  }

  lemma {:induction false} UnslottedOfUpdate(ms: seq<Message>, p: nat, m: Message)
    requires p < |ms| && SlotOf(ms[p]).Some? && SlotOf(m).Some?
    ensures Unslotted(ms[p := m]) == Unslotted(ms)
  {
    var last := |ms| - 1;
    if p < last {
      assert ms[p := m][..last] == ms[..last][p := m];
      UnslottedOfUpdate(ms[..last], p, m);
    } else {
      assert ms[p := m][..last] == ms[..last];
    }
  }

  lemma SlotPresentMeansRepeat(out: seq<Message>, m: Message)
    ensures Repeats(out, m) <==> SlotOf(m).Some? && SlotOf(m) in Slots(out)
  {
    if SlotOf(m).Some? {
      var p := Find(out, SlotOf(m).value);
      if p < |out| { assert Slots(out)[p] == SlotOf(m); }
    }
  }

  lemma OneMoreSlot(before: seq<Message>, m: Message)
    ensures var first := FirstOccurrences(Slots(before));
            FirstOccurrences(Slots(before + [m])) ==
              if SlotOf(m).Some? && SlotOf(m) in first then first else first + [SlotOf(m)]
    ensures Unslotted(before + [m]) == Unslotted(before) + if SlotOf(m).None? then [m] else []
  {
    assert Slots(before + [m])[..|before|] == Slots(before);
    assert (before + [m])[..|before|] == before;
  }

  lemma OneMoreWinner(before: seq<Message>, m: Message, slot: Slot)
    ensures var best := Winner(before, slot);
            Winner(before + [m], slot) ==
              if SlotOf(m) != Some(slot) then best
              else if best.None? || Replaces(best.value, m) then Some(m) else best
  {
    assert (before + [m])[..|before|] == before;
  }

  /** Every kept update is its slot's winner. */
  ghost predicate KeepsWinners(out: seq<Message>, pending: seq<Message>) {
    forall i :: 0 <= i < |out| && SlotOf(out[i]).Some? ==> Some(out[i]) == Winner(pending, SlotOf(out[i]).value)
  }

  lemma AppendKeepsWinners(out: seq<Message>, before: seq<Message>, m: Message)
    requires Summarises(out, before) && !Repeats(out, m)
    ensures KeepsWinners(out + [m], before + [m])
  {
    SlotPresentMeansRepeat(out, m);
    var next := out + [m];
    forall i | 0 <= i < |next| && SlotOf(next[i]).Some?
      ensures Some(next[i]) == Winner(before + [m], SlotOf(next[i]).value)
    {
      OneMoreWinner(before, m, SlotOf(next[i]).value);
      if i < |out| {
        assert Slots(out)[i] == SlotOf(out[i]);
      } else {
        NoWinnerWhenAbsent(out, before, SlotOf(m).value);
      }
    }
  }

  lemma ReplaceKeepsWinners(out: seq<Message>, before: seq<Message>, m: Message)
    requires Summarises(out, before) && DistinctSlots(out) && Repeats(out, m)
    ensures KeepsWinners(Insert(out, m), before + [m])
  {
    var next, p := Insert(out, m), Find(out, SlotOf(m).value);
    forall i | 0 <= i < |next| && SlotOf(next[i]).Some?
      ensures Some(next[i]) == Winner(before + [m], SlotOf(next[i]).value)
    {
      OneMoreWinner(before, m, SlotOf(next[i]).value);
      assert SlotOf(next[i]) == SlotOf(out[i]);
      assert i != p ==> SlotOf(out[i]) != SlotOf(out[p]);
    }
  }

  lemma AppendSummarises(out: seq<Message>, before: seq<Message>, m: Message)
    requires Summarises(out, before) && !Repeats(out, m)
    ensures Summarises(out + [m], before + [m])
  {
    OneMoreSlot(before, m);
    OneMoreSlot(out, m);
    SlotPresentMeansRepeat(out, m);
    AppendKeepsWinners(out, before, m);
    assert Slots(out + [m]) == Slots(out) + [SlotOf(m)];
  }

  lemma ReplaceSummarises(out: seq<Message>, before: seq<Message>, m: Message)
    requires Summarises(out, before) && DistinctSlots(out) && Repeats(out, m)
    ensures Summarises(Insert(out, m), before + [m])
  {
    OneMoreSlot(before, m);
    SlotPresentMeansRepeat(out, m);
    ReplaceKeepsWinners(out, before, m);
    assert Slots(Insert(out, m)) == Slots(out);
    UnslottedOfUpdate(out, Find(out, SlotOf(m).value), m);
  }

  lemma InsertSummarises(out: seq<Message>, before: seq<Message>, m: Message)
    requires Summarises(out, before) && DistinctSlots(out)
    ensures Summarises(Insert(out, m), before + [m])
  {
    if Repeats(out, m) {
      ReplaceSummarises(out, before, m);
    } else {
      AppendSummarises(out, before, m);
    }
  }

  lemma NoWinnerWhenAbsent(out: seq<Message>, before: seq<Message>, slot: Slot)
    requires Slots(out) == FirstOccurrences(Slots(before)) && Some(slot) !in Slots(out)
    ensures Winner(before, slot).None?
  {
    FirstOccurrencesKeepsAll(Slots(before), Some(slot));
    WinnerIsInSlot(before, slot);
  }

  lemma {:induction false} FirstOccurrencesKeepsAll(slots: seq<Option<Slot>>, slot: Option<Slot>)
    ensures slot in FirstOccurrences(slots) <==> slot in slots
  {
    if slots != [] {
      var last := |slots| - 1;
      FirstOccurrencesKeepsAll(slots[..last], slot);
      FirstOccurrencesKeepsAll(slots[..last], slots[last]);
      assert slots == slots[..last] + [slots[last]];
    }
  }

  lemma {:induction false} WinnerIsInSlot(pending: seq<Message>, slot: Slot)
    ensures Winner(pending, slot).Some? ==>
              Winner(pending, slot).value in pending && SlotOf(Winner(pending, slot).value) == Some(slot)
    ensures Winner(pending, slot).Some? <==> Some(slot) in Slots(pending)
  {
    if pending != [] {
      var last := |pending| - 1;
      WinnerIsInSlot(pending[..last], slot);
      assert pending == pending[..last] + [pending[last]];
      assert Slots(pending) == Slots(pending[..last]) + [SlotOf(pending[last])];
    }
  }

  /** The coalesced list keeps every slot once at its first position, keeps all other messages in
      order, and holds for each slot the message that won in arrival order. Nothing is lost from
      the count. */
  lemma {:induction false} CoalescedSummarises(pending: seq<Message>)
    ensures Summarises(Coalesced(pending), pending)
    ensures DistinctSlots(Coalesced(pending))
    ensures |Coalesced(pending)| + Dropped(pending) == |pending|
  {
    if pending != [] {
      var before, m := pending[..|pending| - 1], pending[|pending| - 1];
      CoalescedSummarises(before);
      CoalesceLast(pending);
      assert pending == before + [m];
      InsertSummarises(Coalesced(before), before, m);
      CoalesceKeepsDistinct([], pending);
    }
  }
}

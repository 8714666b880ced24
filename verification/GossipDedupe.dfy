/** Dedupe state tied to the active cluster view (src/gossip/dedupe.rs). */
module GossipDedupe {
  import opened Basics
  import opened SeenCache

  /** 100 000 identifiers, ten minutes in milliseconds. */
  const GOSSIP_BOUNDS := Bounds(100_000, 600_000)

  /** One record call, inbound or outbound, under the view active at that moment. */
  datatype ViewCall = ViewCall(view: ViewId, call: Call)

  datatype DedupeState = DedupeState(lastActiveView: ViewId, order: seq<Entry>)

  function Rotate(s: DedupeState, view: ViewId): DedupeState {
    if s.lastActiveView == view then s else DedupeState(view, [])
  }

  datatype DedupeOutcome = DedupeOutcome(accepted: bool, state: DedupeState)

  function RecordInView(s: DedupeState, c: ViewCall): DedupeOutcome {
    var rotated := Rotate(s, c.view);
    var r := RecordCall(rotated.order, c.call, GOSSIP_BOUNDS);
    DedupeOutcome(r.accepted, DedupeState(c.view, r.order))
  }

  class GossipDedupeState {
    var lastActiveView: ViewId
    var seen: BoundedSeenCache

    ghost predicate Valid()
      reads this, seen
    {
      seen.Valid() && seen.bounds == GOSSIP_BOUNDS
    }

    ghost function State(): DedupeState
      reads this, seen
    {
      DedupeState(lastActiveView, seen.order)
    }

    constructor (activeView: ViewId)
      ensures Valid() && fresh(seen) && State() == DedupeState(activeView, [])
    {
      lastActiveView := activeView;
      seen := new BoundedSeenCache(GOSSIP_BOUNDS.maxEntries, GOSSIP_BOUNDS.ttl);
    }

    method RotateIfViewChanged(activeView: ViewId)
      requires Valid()
      modifies this
      ensures Valid() && (seen == old(seen) || fresh(seen))
      ensures seen == old(seen) ==> seen.order == old(seen.order)
      ensures State() == Rotate(old(State()), activeView)
    {
      if lastActiveView == activeView {
        return;
      }
      lastActiveView := activeView;
      seen := new BoundedSeenCache(GOSSIP_BOUNDS.maxEntries, GOSSIP_BOUNDS.ttl);
    }

    method RecordInbound(activeView: ViewId, id: Uuid, now: nat) returns (accepted: bool)
      requires Valid()
      modifies this, seen
      ensures Valid() && (seen == old(seen) || fresh(seen))
      ensures DedupeOutcome(accepted, State())
              == RecordInView(old(State()), ViewCall(activeView, Call(id, now)))
    {
      RotateIfViewChanged(activeView);
      accepted := seen.Record(id, now);
    }

    method RecordOutbound(activeView: ViewId, id: Uuid, now: nat)
      requires Valid()
      modifies this, seen
      ensures Valid() && (seen == old(seen) || fresh(seen))
      ensures State() == RecordInView(old(State()), ViewCall(activeView, Call(id, now))).state
    {
      RotateIfViewChanged(activeView);
      var _ := seen.Record(id, now);
    }
  }

  // ----- Whole histories -----

  function ReplayViews(start: ViewId, history: seq<ViewCall>): DedupeState {
    if history == [] then DedupeState(start, [])
    else
      var last := |history| - 1;
      RecordInView(ReplayViews(start, history[..last]), history[last]).state
  }

  /** The calls of the longest unbroken run under `view` at the end of the history. */
  function SinceViewChange(history: seq<ViewCall>, view: ViewId): seq<Call> {
    if history == [] || history[|history| - 1].view != view then []
    else SinceViewChange(history[..|history| - 1], view) + [history[|history| - 1].call]
  }

  ghost predicate NondecreasingViewTimes(history: seq<ViewCall>) {
    forall i, j :: 0 <= i < j < |history| ==> history[i].call.now <= history[j].call.now
  }

  /** Only the calls since the last change of view are left in the cache. */
  lemma {:induction false} RotationForgets(start: ViewId, history: seq<ViewCall>, view: ViewId)
    ensures Rotate(ReplayViews(start, history), view).order
            == Replay(SinceViewChange(history, view), GOSSIP_BOUNDS)
  {
    if history != [] {
      var last := |history| - 1;
      var before := history[..last];
      if history[last].view == view {
        RotationForgets(start, before, view);
        var calls := SinceViewChange(before, view);
        assert (calls + [history[last].call])[..|calls|] == calls;
      }
    }
  }

  lemma {:induction false} SinceViewChangeTimes(history: seq<ViewCall>, view: ViewId, now: nat)
    requires NondecreasingViewTimes(history)
    requires forall i :: 0 <= i < |history| ==> history[i].call.now <= now
    ensures NondecreasingTimes(SinceViewChange(history, view))
    ensures forall i :: 0 <= i < |SinceViewChange(history, view)|
              ==> SinceViewChange(history, view)[i].now <= now
  {
    if history != [] && history[|history| - 1].view == view {
      SinceViewChangeTimes(history[..|history| - 1], view, history[|history| - 1].call.now);
    }
  }

  /** From any starting view and after any history, a call is a duplicate exactly when its
      identifier is inside the sliding window of the calls made since the view last changed. */
  lemma DuplicateOnlyWithinView(start: ViewId, history: seq<ViewCall>, c: ViewCall)
    requires NondecreasingViewTimes(history + [c])
    ensures RecordInView(ReplayViews(start, history), c).accepted
            <==> !Remembered(Accepted(SinceViewChange(history, c.view), GOSSIP_BOUNDS), c.call, GOSSIP_BOUNDS)
  {
    var all := history + [c];
    assert forall i :: 0 <= i < |history| ==> history[i] == all[i];
    assert all[|history|] == c;
    RotationForgets(start, history, c.view);
    SinceViewChangeTimes(history, c.view, c.call.now);
    SlidingWindow(SinceViewChange(history, c.view), c.call, GOSSIP_BOUNDS);
  }
}

/** The bounded cache of recently seen identifiers (src/dedupe.rs).

    `BoundedSeenCache` is the mutable object. `RecordCall` on a queue of entries is the value it
    computes, and `SlidingWindow` states what that value means for every sequence of calls. */
module SeenCache {
  import opened Basics

  datatype Entry = Entry(id: Uuid, at: nat)

  /** One call to `record`, with the clock reading it takes. */
  datatype Call = Call(id: Uuid, now: nat)

  datatype Bounds = Bounds(maxEntries: nat, ttl: nat)

  /** Elapsed time; a reading from the future counts as no time at all. */
  function Age(now: nat, at: nat): nat {
    if now >= at then now - at else 0
  }

  function Ids(order: seq<Entry>): set<Uuid> {
    set e | e in order :: e.id
  }

  ghost predicate DistinctIds(order: seq<Entry>) {
    forall i, j :: 0 <= i < j < |order| ==> order[i].id != order[j].id
  }

  // ----- The value computed by one call -----

  /** How many entries at the front are expired. */
  function ExpiredCount(order: seq<Entry>, now: nat, ttl: nat): (n: nat)
    ensures n <= |order|
    ensures n < |order| ==> Age(now, order[n].at) < ttl
    ensures forall i :: 0 <= i < n ==> Age(now, order[i].at) >= ttl
  {
    if order == [] || Age(now, order[0].at) < ttl then 0
    else
      var n := 1 + ExpiredCount(order[1..], now, ttl);
      assert forall i :: 0 < i < n ==> order[i] == order[1..][i - 1];
      n
  }

  function DropExpired(order: seq<Entry>, now: nat, ttl: nat): seq<Entry> {
    order[ExpiredCount(order, now, ttl)..]
  }

  function DropOverflow(order: seq<Entry>, maxEntries: nat): seq<Entry> {
    if |order| > maxEntries then order[|order| - maxEntries..] else order
  }

  datatype Outcome = Outcome(accepted: bool, order: seq<Entry>)

  function RecordCall(order: seq<Entry>, call: Call, bounds: Bounds): Outcome {
    var young := DropExpired(order, call.now, bounds.ttl);
    if call.id in Ids(young) then
      Outcome(false, young)
    else
      Outcome(true, DropOverflow(young + [Entry(call.id, call.now)], bounds.maxEntries))
  }

  // ----- The object -----

  class BoundedSeenCache {
    const bounds: Bounds
    var seen: set<Uuid>
    var order: seq<Entry>

    ghost predicate Consistent()
      reads this
    {
      && bounds.maxEntries >= 1
      && DistinctIds(order)
      && seen == Ids(order)
    }

    ghost predicate Valid()
      reads this
    {
      Consistent() && |order| <= bounds.maxEntries
    }

    constructor (maxEntries: nat, ttl: nat)
      ensures Valid() && order == []
      ensures bounds == Bounds(if maxEntries == 0 then 1 else maxEntries, ttl)
    {
      bounds := Bounds(if maxEntries == 0 then 1 else maxEntries, ttl);
      seen := {};
      order := [];
    }

    method Record(id: Uuid, now: nat) returns (accepted: bool)
      requires Valid()
      modifies this
      ensures Valid()
      ensures Outcome(accepted, order) == RecordCall(old(order), Call(id, now), bounds)
    {
      EvictExpired(now);
      if id in seen {
        return false;
      }
      seen := seen + {id};
      order := order + [Entry(id, now)];
      EvictOverCapacity();
      return true;
    }

    method EvictExpired(now: nat)
      requires Consistent()
      modifies this
      ensures Consistent()
      ensures order == DropExpired(old(order), now, bounds.ttl)
    {
      ghost var gone := 0;
      while order != []
        invariant Consistent()
        invariant gone <= |old(order)| && order == old(order)[gone..]
        invariant forall i :: 0 <= i < gone ==> Age(now, old(order)[i].at) >= bounds.ttl
        decreases |order|
      {
        var front := order[0];
        if Age(now, front.at) < bounds.ttl {
          break;
        }
        PopFront();
        gone := gone + 1;
      }
    }

    method EvictOverCapacity()
      requires Consistent()
      modifies this
      ensures Valid()
      ensures order == DropOverflow(old(order), bounds.maxEntries)
    {
      DistinctSize(order);
      while |seen| > bounds.maxEntries
        invariant Consistent() && |seen| == |order|
        invariant DropOverflow(order, bounds.maxEntries) == DropOverflow(old(order), bounds.maxEntries)
        decreases |order|
      {
        PopFront();
        DistinctSize(order);
      }
    }

    /** Removes the oldest entry from the queue and from the set. */
    method PopFront()
      requires Consistent() && order != []
      modifies this
      ensures Consistent()
      ensures order == old(order)[1..]
    {
      var front := order[0];
      assert order == [front] + order[1..];
      order := order[1..];
      seen := seen - {front.id};
    }
  }

  /** With distinct identifiers the set and the queue have the same size. */
  lemma {:induction false} DistinctSize(order: seq<Entry>)
    requires DistinctIds(order)
    ensures |Ids(order)| == |order|
  {
    if order == [] {
      assert Ids(order) == {};
    } else {
      DistinctSize(order[1..]);
      assert order == [order[0]] + order[1..];
      assert Ids(order) == {order[0].id} + Ids(order[1..]);
    }
  }

  // ----- Whole histories -----

  /** The queue after a history of calls on a new cache. */
  function Replay(history: seq<Call>, bounds: Bounds): seq<Entry> {
    if history == [] then []
    else
      var last := |history| - 1;
      RecordCall(Replay(history[..last], bounds), history[last], bounds).order
  }

  ghost predicate NondecreasingTimes(history: seq<Call>) {
    forall i, j :: 0 <= i < j < |history| ==> history[i].now <= history[j].now
  }

  /** An earlier acceptance of the identifier is younger than the TTL and fewer than
      `maxEntries` acceptances followed it. No cache is involved in this definition. */
  ghost predicate Remembered(accepted: seq<Entry>, call: Call, bounds: Bounds) {
    exists i :: 0 <= i < |accepted| && accepted[i].id == call.id
                && Age(call.now, accepted[i].at) < bounds.ttl
                && |accepted| - 1 - i < bounds.maxEntries
  }

  /** The acceptances of a history, defined by the window alone. */
  ghost function Accepted(history: seq<Call>, bounds: Bounds): seq<Entry> {
    if history == [] then []
    else
      var last := |history| - 1;
      var before := Accepted(history[..last], bounds);
      if Remembered(before, history[last], bounds) then before
      else before + [Entry(history[last].id, history[last].now)]
  }

  /** The queue holds the latest acceptances; whatever was dropped is old or far back. */
  ghost predicate IsWindow(order: seq<Entry>, accepted: seq<Entry>, now: nat, bounds: Bounds) {
    && |order| <= |accepted| && order == accepted[|accepted| - |order|..]
    && |order| <= bounds.maxEntries
    && (forall i :: 0 <= i < |accepted| - |order| ==>
          Age(now, accepted[i].at) >= bounds.ttl || |accepted| - i > bounds.maxEntries)
    && (forall i, j :: 0 <= i < j < |accepted| ==> accepted[i].at <= accepted[j].at)
    && (forall i :: 0 <= i < |accepted| ==> accepted[i].at <= now)
  }

  /** Expiry leaves a window at the later time. */
  lemma WindowAfterExpiry(order: seq<Entry>, accepted: seq<Entry>, was: nat, now: nat, bounds: Bounds)
    requires IsWindow(order, accepted, was, bounds) && was <= now
    ensures IsWindow(DropExpired(order, now, bounds.ttl), accepted, now, bounds)
  {
    var skip := |accepted| - |order|;
    var young := DropExpired(order, now, bounds.ttl);
    forall i | 0 <= i < |accepted| - |young|
      ensures Age(now, accepted[i].at) >= bounds.ttl || |accepted| - i > bounds.maxEntries
    {
      if i >= skip { assert accepted[i] == order[i - skip]; }
    }
  }

  /** In a queue ordered by time, whatever survives expiry is young. */
  lemma SurvivorsAreYoung(order: seq<Entry>, now: nat, ttl: nat)
    requires forall i, j :: 0 <= i < j < |order| ==> order[i].at <= order[j].at
    ensures forall e :: e in DropExpired(order, now, ttl) ==> Age(now, e.at) < ttl
  {
    var n := ExpiredCount(order, now, ttl);
    forall i | n <= i < |order| ensures Age(now, order[i].at) < ttl {
      assert order[n].at <= order[i].at;
    }
  }

  /** When the queue is exactly the acceptances inside the window, membership is the window test. */
  lemma WindowMembership(young: seq<Entry>, accepted: seq<Entry>, skip: nat, call: Call, bounds: Bounds)
    requires skip <= |accepted| && young == accepted[skip..] && |young| <= bounds.maxEntries
    requires forall i :: 0 <= i < skip ==>
               Age(call.now, accepted[i].at) >= bounds.ttl || |accepted| - i > bounds.maxEntries
    requires forall e :: e in young ==> Age(call.now, e.at) < bounds.ttl
    ensures call.id in Ids(young) <==> Remembered(accepted, call, bounds)
  {
    if call.id in Ids(young) {
      var k :| 0 <= k < |young| && young[k].id == call.id;
      assert accepted[skip + k] == young[k];
      assert young[k] in young;
    }
    if Remembered(accepted, call, bounds) {
      var i :| 0 <= i < |accepted| && accepted[i].id == call.id
               && Age(call.now, accepted[i].at) < bounds.ttl
               && |accepted| - 1 - i < bounds.maxEntries;
      assert young[i - skip] == accepted[i];
    }
  }

  /** One call on a window answers by the window. */
  lemma WindowAnswers(order: seq<Entry>, accepted: seq<Entry>, was: nat, call: Call, bounds: Bounds)
    requires IsWindow(order, accepted, was, bounds) && was <= call.now
    ensures RecordCall(order, call, bounds).accepted <==> !Remembered(accepted, call, bounds)
  {
    var young := DropExpired(order, call.now, bounds.ttl);
    WindowAfterExpiry(order, accepted, was, call.now, bounds);
    SurvivorsAreYoung(order, call.now, bounds.ttl);
    WindowMembership(young, accepted, |accepted| - |young|, call, bounds);
  }

  /** Appending an acceptance and evicting over capacity leaves a window. */
  lemma WindowAfterAccept(order: seq<Entry>, accepted: seq<Entry>, e: Entry, bounds: Bounds)
    requires bounds.maxEntries >= 1 && IsWindow(order, accepted, e.at, bounds)
    ensures IsWindow(DropOverflow(order + [e], bounds.maxEntries), accepted + [e], e.at, bounds)
  {
    var all := accepted + [e];
    var kept := DropOverflow(order + [e], bounds.maxEntries);
    assert order + [e] == all[|accepted| - |order|..];
    forall i | 0 <= i < |all| - |kept|
      ensures Age(e.at, all[i].at) >= bounds.ttl || |all| - i > bounds.maxEntries
    {
      if i < |accepted| - |order| { assert all[i] == accepted[i]; }
    }
  }

  lemma {:induction false} ReplayIsWindow(history: seq<Call>, bounds: Bounds)
    requires bounds.maxEntries >= 1 && NondecreasingTimes(history)
    ensures IsWindow(Replay(history, bounds), Accepted(history, bounds),
                     if history == [] then 0 else history[|history| - 1].now, bounds)
  {
    if history != [] {
      var last := |history| - 1;
      var before := history[..last];
      ReplayIsWindow(before, bounds);
      var was := if before == [] then 0 else before[last - 1].now;
      var order, accepted, call := Replay(before, bounds), Accepted(before, bounds), history[last];
      WindowAnswers(order, accepted, was, call, bounds);
      WindowAfterExpiry(order, accepted, was, call.now, bounds);
      WindowAfterAccept(DropExpired(order, call.now, bounds.ttl), accepted, Entry(call.id, call.now), bounds);
    }
  }

  /** After any history of calls at nondecreasing times, the next call is rejected exactly when
      an earlier acceptance of its identifier is still inside the time and capacity window. */
  lemma SlidingWindow(history: seq<Call>, call: Call, bounds: Bounds)
    requires bounds.maxEntries >= 1 && NondecreasingTimes(history + [call])
    ensures RecordCall(Replay(history, bounds), call, bounds).accepted
            <==> !Remembered(Accepted(history, bounds), call, bounds)
    ensures |Replay(history + [call], bounds)| <= bounds.maxEntries
  {
    var all := history + [call];
    assert forall i :: 0 <= i < |history| ==> history[i] == all[i];
    ReplayIsWindow(history, bounds);
    ReplayIsWindow(all, bounds);
    var was := if history == [] then 0 else history[|history| - 1].now;
    assert history != [] ==> all[|history| - 1].now <= all[|history|].now;
    WindowAnswers(Replay(history, bounds), Accepted(history, bounds), was, call, bounds);
  }
}

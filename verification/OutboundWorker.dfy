/** The outbound gossip worker loop (src/gossip/outbound.rs:204-476). */
module OutboundWorker {
  import opened Basics
  import opened Messages
  import opened SeenCache
  import opened GossipDedupe
  import opened Coalesce
  import opened Fanout
  import opened Lists
  import opened Dispatch

  const DEFAULT_FANOUT := 5

  /** The peer populations the surrounding node offers at one tick. */
  datatype Peers = Peers(scoped: seq<Peer>, warm: seq<Peer>, unscoped: seq<Peer>)

  datatype Limits = Limits(selfId: Uuid, fanout: Option<nat>, dispatchMax: nat, rpcMax: nat)

  type Results = (Plane, Uuid, nat, nat) -> SendResult

  // ----- One tick -----

  /** The peers one plane is sent to, and the cursor afterwards. A fanout of zero means everyone. */
  function ChoosePeers(plane: Plane, peers: Peers, fanout: Option<nat>, cursor: nat): Selection {
    var n := if fanout.Some? then fanout.value else DEFAULT_FANOUT;
    match plane
    case ViewScoped => if n == 0 then Selection(peers.scoped, cursor) else Select(peers.warm, n, cursor)
    case GlobalMetadata => if n == 0 then Selection(peers.unscoped, cursor) else Select(peers.unscoped, n, cursor)
  }

  function PlaneResults(results: Results, plane: Plane): (Uuid, nat, nat) -> SendResult {
    (peer: Uuid, batch: nat, chunk: nat) => results(plane, peer, batch, chunk)
  }

  datatype Dispatched = Dispatched(rpcs: seq<Rpc>, cursor: nat)

  /** One plane's dispatch; an empty plane leaves even the cursor alone. */
  function DispatchOn(plane: Plane, pending: seq<Message>, peers: Peers, limits: Limits, cursor: nat, results: Results)
    : Dispatched
    requires limits.dispatchMax > 0 && limits.rpcMax > 0
  {
    if pending == [] then Dispatched([], cursor)
    else
      var chosen := ChoosePeers(plane, peers, limits.fanout, cursor);
      Dispatched(PlaneLog(Chunks(pending, limits.dispatchMax), chosen.peers, limits.selfId, limits.rpcMax,
                          PlaneResults(results, plane), 0), chosen.cursor)
  }

  // ----- The worker as a value -----

  /** `handed` lists, tick by tick, what was taken from the buffer and handed to coalescing and
      dispatch; `acked` lists the acknowledged flush waiters. */
  datatype Worker = Worker(queue: seq<Message>, buffer: seq<Message>, waiters: seq<nat>,
                           handed: seq<seq<Message>>, acked: seq<nat>)

  datatype Event = Enqueue(message: Message) | Receive | FlushRequest(waiter: nat) | Tick

  const IDLE := Worker([], [], [], [], [])

  function Step(w: Worker, e: Event): Worker {
    match e
    case Enqueue(m) => w.(queue := w.queue + [m])
    case Receive => if w.queue == [] then w else w.(queue := w.queue[1..], buffer := w.buffer + [w.queue[0]])
    case FlushRequest(waiter) => w.(queue := [], buffer := w.buffer + w.queue, waiters := w.waiters + [waiter])
    case Tick => w.(buffer := [], waiters := [], handed := w.handed + [w.buffer], acked := w.acked + w.waiters)
  }

  function Run(events: seq<Event>): Worker {
    if events == [] then IDLE else Step(Run(events[..|events| - 1]), events[|events| - 1])
  }

  /** The active view and the clock as read for one message. */
  datatype Reading = Reading(activeView: ViewId, now: nat)

  /** The calls that register a list of messages. */
  function Calls(ms: seq<Message>, readings: seq<Reading>): seq<ViewCall>
    requires |readings| == |ms|
  {
    seq(|ms|, i requires 0 <= i < |ms| => ViewCall(readings[i].activeView, Call(ms[i].id, readings[i].now)))
  }

  function Registered(s: DedupeState, c: ViewCall): DedupeState {
    RecordInView(s, c).state
  }

  lemma NextCall<S>(register: (S, ViewCall) -> S, before: S, ms: seq<Message>, readings: seq<Reading>, k: nat)
    requires k < |ms| == |readings|
    ensures Fold(register, before, Calls(ms, readings)[..k + 1])
            == register(Fold(register, before, Calls(ms, readings)[..k]),
                        ViewCall(readings[k].activeView, Call(ms[k].id, readings[k].now)))
  {
    FoldNext(register, before, Calls(ms, readings), k);
  }

  lemma NextMessage(ms: seq<Message>, buffered: seq<Message>, k: nat)
    requires k < |ms|
    ensures ms[k..][0] == ms[k] && ms[k..][1..] == ms[k + 1..]
    ensures buffered + ms[..k] + [ms[k]] == buffered + ms[..k + 1]
  {
  }

  // ----- The worker as an object -----

  class OutboundWorker {
    const limits: Limits
    const dedupe: GossipDedupeState
    var queue: seq<Message>
    var buffer: seq<Message>
    var flushWaiters: seq<nat>
    var fanoutCursor: nat
    ghost var handed: seq<seq<Message>>
    ghost var acked: seq<nat>

    ghost predicate Valid()
      reads this, dedupe, dedupe.seen
    {
      dedupe.Valid() && limits.dispatchMax > 0 && limits.rpcMax > 0
    }

    ghost function State(): Worker
      reads this
    {
      Worker(queue, buffer, flushWaiters, handed, acked)
    }

    constructor (limits: Limits, activeView: ViewId, seed: nat)
      requires limits.dispatchMax > 0 && limits.rpcMax > 0
      ensures Valid() && fresh(dedupe) && fresh(dedupe.seen) && State() == IDLE && this.limits == limits
    {
      this.limits := limits;
      dedupe := new GossipDedupeState(activeView);
      queue, buffer, flushWaiters, handed, acked := [], [], [], [], [];
      fanoutCursor := seed;
    }

    /** A producer puts a message on the channel. */
    method OnEnqueue(m: Message)
      requires Valid()
      modifies this
      ensures Valid() && State() == Step(old(State()), Enqueue(m)) && fanoutCursor == old(fanoutCursor)
    {
      queue := queue + [m];
    }

    /** The loop takes one message: it is registered as seen before it can be sent. */
    method OnReceive(activeView: ViewId, now: nat)
      requires Valid() && queue != []
      modifies this, dedupe, dedupe.seen
      ensures Valid() && (dedupe.seen == old(dedupe.seen) || fresh(dedupe.seen))
      ensures State() == Step(old(State()), Receive) && fanoutCursor == old(fanoutCursor)
      ensures dedupe.State() == Registered(old(dedupe.State()), ViewCall(activeView, Call(old(queue)[0].id, now)))
    {
      RegisterHead(activeView, now);
    }

    /** Takes everything on the channel, one message at a time. */
    method Drain(readings: seq<Reading>)
      requires Valid() && |readings| == |queue|
      modifies `queue, `buffer, dedupe, dedupe.seen
      ensures Valid() && (dedupe.seen == old(dedupe.seen) || fresh(dedupe.seen))
      ensures queue == [] && buffer == old(buffer) + old(queue)
      ensures dedupe.State() == Fold(Registered, old(dedupe.State()), Calls(old(queue), readings))
    {
      ghost var all, buffered, before := queue, buffer, dedupe.State();
      var k := 0;
      while queue != []
        invariant Valid() && (dedupe.seen == old(dedupe.seen) || fresh(dedupe.seen))
        invariant k <= |readings| && Taken(k, all, readings, buffered, before)
        decreases |queue|
      {
        TakeNext(k, all, readings, buffered, before);
        k := k + 1;
      }
      assert all[..k] == all && Calls(all, readings)[..k] == Calls(all, readings);
    }

    /** The first `k` messages of the channel have been registered and buffered. */
    ghost predicate Taken(k: nat, all: seq<Message>, readings: seq<Reading>, buffered: seq<Message>, before: DedupeState)
      reads this, dedupe, dedupe.seen
    {
      && k <= |all| == |readings| && queue == all[k..] && buffer == buffered + all[..k]
      && dedupe.State() == Fold(Registered, before, Calls(all, readings)[..k])
    }

    method TakeNext(k: nat, ghost all: seq<Message>, readings: seq<Reading>, ghost buffered: seq<Message>,
                    ghost before: DedupeState)
      requires Valid() && queue != [] && k <= |readings| && Taken(k, all, readings, buffered, before)
      modifies `queue, `buffer, dedupe, dedupe.seen
      ensures Valid() && (dedupe.seen == old(dedupe.seen) || fresh(dedupe.seen))
      ensures k < |readings| && |queue| == old(|queue|) - 1 && Taken(k + 1, all, readings, buffered, before)
    {
      NextCall(Registered, before, all, readings, k);
      NextMessage(all, buffered, k);
      RegisterHead(readings[k].activeView, readings[k].now);
    }

    /** One message is registered as seen, and then buffered. */
    method RegisterHead(activeView: ViewId, now: nat)
      requires Valid() && queue != []
      modifies `queue, `buffer, dedupe, dedupe.seen
      ensures Valid() && (dedupe.seen == old(dedupe.seen) || fresh(dedupe.seen))
      ensures queue == old(queue)[1..] && buffer == old(buffer) + [old(queue)[0]]
      ensures dedupe.State() == Registered(old(dedupe.State()), ViewCall(activeView, Call(old(queue)[0].id, now)))
    {
      var m := queue[0];
      dedupe.RecordOutbound(activeView, m.id, now);
      queue, buffer := queue[1..], buffer + [m];
    }

    /** A flush drains the channel first, so it cannot overtake what was queued before it. */
    method OnFlush(waiter: nat, readings: seq<Reading>)
      requires Valid() && |readings| == |queue|
      modifies this, dedupe, dedupe.seen
      ensures Valid() && (dedupe.seen == old(dedupe.seen) || fresh(dedupe.seen))
      ensures State() == Step(old(State()), FlushRequest(waiter)) && fanoutCursor == old(fanoutCursor)
      ensures dedupe.State() == Fold(Registered, old(dedupe.State()), Calls(old(queue), readings))
    {
      Drain(readings);
      flushWaiters := flushWaiters + [waiter];
    }

    /** Coalesces, splits by plane, dispatches both planes and acknowledges every flush waiter. */
    method OnTick(peers: Peers, results: Results) returns (rpcs: seq<Rpc>, acknowledged: seq<nat>)
      requires Valid()
      modifies this
      ensures Valid() && State() == Step(old(State()), Tick) && acknowledged == old(flushWaiters)
      ensures var pending := Coalesced(old(buffer));
              var scoped := DispatchOn(ViewScoped, Filter(pending, OnPlane(ViewScoped)), peers, limits,
                                       old(fanoutCursor), results);
              var global := DispatchOn(GlobalMetadata, Filter(pending, OnPlane(GlobalMetadata)), peers, limits,
                                       scoped.cursor, results);
              rpcs == scoped.rpcs + global.rpcs && fanoutCursor == global.cursor
    {
      rpcs := [];
      if buffer != [] {
        var pending, _ := CoalescePending(buffer);
        var viewScoped, globalMetadata := SplitByPlane(pending);
        var first := DispatchOne(ViewScoped, viewScoped, peers, results);
        var second := DispatchOne(GlobalMetadata, globalMetadata, peers, results);
        rpcs := first + second;
      }
      acknowledged := flushWaiters;
      handed, acked := handed + [buffer], acked + flushWaiters;
      buffer, flushWaiters := [], [];
    }

    method DispatchOne(plane: Plane, pending: seq<Message>, peers: Peers, results: Results) returns (rpcs: seq<Rpc>)
      requires Valid()
      modifies this`fanoutCursor
      ensures Dispatched(rpcs, fanoutCursor)
              == DispatchOn(plane, pending, peers, limits, old(fanoutCursor), results)
    {
      if pending == [] {
        return [];
      }
      var n := if limits.fanout.Some? then limits.fanout.value else DEFAULT_FANOUT;
      var chosen;
      if n == 0 {
        chosen := if plane == ViewScoped then peers.scoped else peers.unscoped;
      } else {
        chosen, fanoutCursor := SelectFanoutWindow(if plane == ViewScoped then peers.warm else peers.unscoped, n, fanoutCursor);
      }
      rpcs := DispatchPlane(pending, chosen, limits.selfId, limits.dispatchMax, limits.rpcMax, PlaneResults(results, plane));
    }
  }

  /** With no send failure, a peer chosen for a plane is sent exactly the plane's coalesced
      messages that are not about it, and the local node is never sent anything. */
  lemma ChosenPeerGetsThePlane(plane: Plane, pending: seq<Message>, peers: Peers, limits: Limits, cursor: nat,
                               results: Results, peer: Uuid)
    requires limits.dispatchMax > 0 && limits.rpcMax > 0
    requires DistinctPeers(ChoosePeers(plane, peers, limits.fanout, cursor).peers)
    requires forall b: nat, c: nat :: results(plane, peer, b, c) == Delivered
    ensures Flatten(ToPeer(DispatchOn(plane, pending, peers, limits, cursor, results).rpcs, peer))
            == if Selected(ChoosePeers(plane, peers, limits.fanout, cursor).peers, peer) && peer != limits.selfId
               then Filter(pending, NotAbout(peer)) else []
  {
    if pending != [] {
      var chosen := ChoosePeers(plane, peers, limits.fanout, cursor);
      PlaneLogToPeer(Chunks(pending, limits.dispatchMax), chosen.peers, limits.selfId, limits.rpcMax,
                     PlaneResults(results, plane), 0, peer);
      DispatchPreservesContent(peer, pending, limits.dispatchMax, limits.rpcMax, PlaneResults(results, plane));
    }
  }

  /** With no send failure, a pending message goes to every chosen peer but the local node and the one
      node it is an event or digest of, and to nobody else. */
  lemma EveryoneElseIsSent(plane: Plane, pending: seq<Message>, peers: Peers, limits: Limits, cursor: nat,
                           results: Results, peer: Uuid, m: Message)
    requires limits.dispatchMax > 0 && limits.rpcMax > 0
    requires DistinctPeers(ChoosePeers(plane, peers, limits.fanout, cursor).peers)
    requires forall b: nat, c: nat :: results(plane, peer, b, c) == Delivered
    ensures Takes(DispatchOn(plane, pending, peers, limits, cursor, results).rpcs, peer, m) <==>
              && m in pending && !Names(m, peer)
              && Selected(ChoosePeers(plane, peers, limits.fanout, cursor).peers, peer) && peer != limits.selfId
  {
    ChosenPeerGetsThePlane(plane, pending, peers, limits, cursor, results, peer);
    TakesIff(DispatchOn(plane, pending, peers, limits, cursor, results).rpcs, peer, m);
    ShareLeavesOutOwnEvents(pending, peer, m);
  }

  /** A fanout of zero chooses all peers of the plane and leaves the cursor; no fanout means five. */
  lemma ZeroChoosesEveryone(peers: Peers, cursor: nat, id: Uuid)
    ensures var scoped, global := ChoosePeers(ViewScoped, peers, Some(0), cursor),
                                  ChoosePeers(GlobalMetadata, peers, Some(0), cursor);
            && scoped.cursor == global.cursor == cursor
            && (Selected(scoped.peers, id) <==> exists p :: p in peers.scoped && p.id == id)
            && (Selected(global.peers, id) <==> exists p :: p in peers.unscoped && p.id == id)
    ensures ChoosePeers(ViewScoped, peers, None, cursor) == ChoosePeers(ViewScoped, peers, Some(5), cursor)
    ensures ChoosePeers(GlobalMetadata, peers, None, cursor) == ChoosePeers(GlobalMetadata, peers, Some(5), cursor)
  {
  }

  // ----- Flush is a barrier -----

  /** All messages enqueued by a run, in order. */
  function Enqueued(events: seq<Event>): seq<Message> {
    if events == [] then []
    else Enqueued(events[..|events| - 1]) + if events[|events| - 1].Enqueue? then [events[|events| - 1].message] else []
  }

  function FlushRequests(events: seq<Event>): seq<nat> {
    if events == [] then []
    else FlushRequests(events[..|events| - 1])
         + if events[|events| - 1].FlushRequest? then [events[|events| - 1].waiter] else []
  }

  /** What is in the worker's hands, oldest first. */
  function Held(w: Worker): seq<Message> {
    Flatten(w.handed) + w.buffer + w.queue
  }

  lemma StepConserves(w: Worker, e: Event)
    ensures Held(Step(w, e)) == Held(w) + if e.Enqueue? then [e.message] else []
  {
    match e {
      case Enqueue(m) =>
      case Receive =>
        if w.queue != [] {
          assert w.queue == [w.queue[0]] + w.queue[1..];
        }
      case FlushRequest(waiter) =>
      case Tick =>
        FlattenAppend(w.handed, [w.buffer]);
        assert [w.buffer][1..] == [];
    }
  }

  /** Nothing is lost, duplicated or reordered on the way from the channel to dispatch, and
      waiters are acknowledged in order, each once. */
  lemma {:induction false} WorkerConserves(events: seq<Event>)
    ensures Held(Run(events)) == Enqueued(events)
    ensures Run(events).acked + Run(events).waiters == FlushRequests(events)
  {
    if events != [] {
      var before, e := events[..|events| - 1], events[|events| - 1];
      WorkerConserves(before);
      StepConserves(Run(before), e);
    }
  }

  /** Between a flush and its acknowledgement everything enqueued before the flush is at least
      buffered; afterwards it has been handed over. */
  lemma {:induction false} FlushProgress(events: seq<Event>, i: nat, j: nat)
    requires i < j <= |events| && events[i].FlushRequest?
    ensures |Enqueued(events[..i])| <= |Flatten(Run(events[..j]).handed)| + |Run(events[..j]).buffer|
    ensures |Run(events[..j]).acked| > |FlushRequests(events[..i])| ==>
              |Enqueued(events[..i])| <= |Flatten(Run(events[..j]).handed)|
    decreases j
  {
    var before := events[..j - 1];
    assert events[..j][..j - 1] == before;
    var w := Run(before);
    if j == i + 1 {
      WorkerConserves(before);
      assert |w.acked| <= |FlushRequests(before)|;
    } else {
      FlushProgress(events, i, j - 1);
    }
    if events[j - 1] == Tick {
      FlattenAppend(w.handed, [w.buffer]);
      assert [w.buffer][1..] == [];
    }
  }

  /** A message handed over in a tick was sent itself or lost to the sent message of its slot. */
  ghost predicate SentOrSuperseded(m: Message, batch: seq<Message>) {
    m in batch
    && (m in Coalesced(batch)
        || (SlotOf(m).Some? && Winner(batch, SlotOf(m).value).Some?
            && Winner(batch, SlotOf(m).value).value in Coalesced(batch)))
  }

  lemma {:induction false} UnslottedSurvive(ms: seq<Message>, m: Message)
    ensures m in Unslotted(ms) <==> m in ms && SlotOf(m).None?
  {
    if ms != [] {
      var last := |ms| - 1;
      UnslottedSurvive(ms[..last], m);
      assert ms == ms[..last] + [ms[last]];
    }
  }

  lemma HandedIsSentOrSuperseded(m: Message, batch: seq<Message>)
    requires m in batch
    ensures SentOrSuperseded(m, batch)
  {
    var out := Coalesced(batch);
    CoalescedSummarises(batch);
    if SlotOf(m).None? {
      UnslottedSurvive(batch, m);
      UnslottedSurvive(out, m);
    } else {
      var i :| 0 <= i < |batch| && batch[i] == m;
      assert Slots(batch)[i] == SlotOf(m);
      FirstOccurrencesKeepsAll(Slots(batch), SlotOf(m));
      var k :| 0 <= k < |out| && Slots(out)[k] == SlotOf(m);
      assert out[k] in out;
    }
  }

  lemma {:induction false} InSomePart(parts: seq<seq<Message>>, m: Message)
    requires m in Flatten(parts)
    ensures exists b :: 0 <= b < |parts| && m in parts[b]
  {
    if m in parts[0] {
    } else {
      InSomePart(parts[1..], m);
      var b :| 0 <= b < |parts[1..]| && m in parts[1..][b];
      assert m in parts[b + 1];
    }
  }

  /** In every run, once the waiter of a flush is acknowledged, every message enqueued before that
      flush was handled has been sent in some tick or superseded there by the message that was
      sent for its slot. */
  lemma FlushIsBarrier(events: seq<Event>, i: nat, j: nat, m: Message)
    requires i < j <= |events| && events[i].FlushRequest?
    requires |Run(events[..j]).acked| > |FlushRequests(events[..i])|
    requires m in Enqueued(events[..i])
    ensures exists b :: 0 <= b < |Run(events[..j]).handed| && SentOrSuperseded(m, Run(events[..j]).handed[b])
  {
    var w := Run(events[..j]);
    FlushProgress(events, i, j);
    WorkerConserves(events[..j]);
    EnqueuedGrows(events, i, j);
    var early, all := Enqueued(events[..i]), Enqueued(events[..j]);
    var k :| 0 <= k < |early| && early[k] == m;
    assert all[k] == Flatten(w.handed)[k] == m;
    InSomePart(w.handed, m);
    var b :| 0 <= b < |w.handed| && m in w.handed[b];
    HandedIsSentOrSuperseded(m, w.handed[b]);
  }

  lemma {:induction false} EnqueuedGrows(events: seq<Event>, i: nat, j: nat)
    requires i <= j <= |events|
    ensures |Enqueued(events[..i])| <= |Enqueued(events[..j])|
    ensures Enqueued(events[..i]) == Enqueued(events[..j])[..|Enqueued(events[..i])|]
    decreases j
  {
    if i < j {
      EnqueuedGrows(events, i, j - 1);
      assert events[..j][..j - 1] == events[..j - 1];
    }
  }

  /** The first tick after a flush acknowledges it: no waiter is left behind. */
  lemma TickAcknowledges(events: seq<Event>, i: nat, j: nat)
    requires i < j < |events| && events[i].FlushRequest? && events[j] == Tick
    ensures |Run(events[..j + 1]).acked| > |FlushRequests(events[..i])|
  {
    assert events[..j + 1][..j] == events[..j];
    WorkerConserves(events[..j]);
    WorkerConserves(events[..j + 1]);
    FlushesGrow(events, i, j);
  }

  lemma {:induction false} FlushesGrow(events: seq<Event>, i: nat, j: nat)
    requires i < j <= |events| && events[i].FlushRequest?
    ensures |FlushRequests(events[..j])| > |FlushRequests(events[..i])|
    decreases j
  {
    assert events[..j][..j - 1] == events[..j - 1];
    if i < j - 1 {
      FlushesGrow(events, i, j - 1);
    }
  }
}

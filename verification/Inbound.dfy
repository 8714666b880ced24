/** The gossip receive path: view check, dedupe, relay, delivery (src/gossip/service.rs). */
module Inbound {
  import opened Basics
  import opened SeenCache
  import opened GossipDedupe
  import opened Messages

  /** One message on the wire. An identifier or view that cannot be read is absent, and so is a
      payload that does not decode; the plane is read from the wire tags alone. */
  datatype Wire = Wire(id: Option<Uuid>, view: Option<ViewId>, plane: Plane, message: Option<Message>)

  /** The sender stamps each message with its active view at the moment of sending. */
  function Encode(m: Message, activeView: ViewId): Wire {
    Wire(Some(m.id), Some(activeView), WirePlane(m), Some(m))
  }

  /** What a node's receive path reads and writes: `outbound` is the queue shared with the
      outbound worker. */
  datatype Inbox = Inbox(view: ViewId, dedupe: DedupeState, actors: seq<Message>, outbound: seq<Message>)

  datatype Policy = Policy(relayInbound: bool, outboundCapacity: nat)

  predicate PassesViewCheck(view: ViewId, w: Wire) {
    w.id.Some? && w.view.Some? && (w.plane == GlobalMetadata || w.view.value == view)
  }

  /** The relay enqueued for one accepted message, unless the queue is full. */
  function Relayed(outbound: seq<Message>, m: Message, policy: Policy): seq<Message> {
    if ShouldRelay(policy.relayInbound, m) && ForForwarding(m).Some? && |outbound| < policy.outboundCapacity
    then outbound + [ForForwarding(m).value] else outbound
  }

  function ReceiveOne(s: Inbox, w: Wire, now: nat, policy: Policy): Inbox {
    if !PassesViewCheck(s.view, w) then s
    else
      var r := RecordInView(s.dedupe, ViewCall(s.view, Call(w.id.value, now)));
      if !r.accepted || w.message.None? then s.(dedupe := r.state)
      else
        s.(dedupe := r.state, actors := s.actors + [w.message.value],
           outbound := Relayed(s.outbound, w.message.value, policy))
  }

  function ReceiveAll(s: Inbox, batch: seq<Wire>, times: seq<nat>, policy: Policy): Inbox
    requires |times| == |batch|
  {
    if batch == [] then s
    else
      var last := |batch| - 1;
      ReceiveOne(ReceiveAll(s, batch[..last], times[..last], policy), batch[last], times[last], policy)
  }

  class Gossip {
    const policy: Policy
    const dedupe: GossipDedupeState
    var clusterView: ViewId
    var actors: seq<Message>
    var outboundEvents: seq<Message>

    ghost predicate Valid()
      reads this, dedupe, dedupe.seen
    {
      dedupe.Valid()
    }

    ghost function State(): Inbox
      reads this, dedupe, dedupe.seen
    {
      Inbox(clusterView, dedupe.State(), actors, outboundEvents)
    }

    constructor (policy: Policy, activeView: ViewId)
      ensures Valid() && fresh(dedupe) && fresh(dedupe.seen) && this.policy == policy
      ensures State() == Inbox(activeView, DedupeState(activeView, []), [], [])
    {
      this.policy := policy;
      dedupe := new GossipDedupeState(activeView);
      clusterView := activeView;
      actors, outboundEvents := [], [];
    }

    /** Handles one RPC: every message of the list in turn. */
    method HandleRpc(batch: seq<Wire>, times: seq<nat>)
      requires Valid() && |times| == |batch|
      modifies this, dedupe, dedupe.seen
      ensures Valid() && (dedupe.seen == old(dedupe.seen) || fresh(dedupe.seen))
      ensures State() == ReceiveAll(old(State()), batch, times, policy)
    {
      for n := 0 to |batch|
        invariant Valid() && (dedupe.seen == old(dedupe.seen) || fresh(dedupe.seen))
        invariant State() == ReceiveAll(old(State()), batch[..n], times[..n], policy)
      {
        assert batch[..n + 1][..n] == batch[..n] && times[..n + 1][..n] == times[..n];
        HandleMessage(batch[n], times[n]);
      }
      assert batch[..|batch|] == batch && times[..|batch|] == times;
    }

    method HandleMessage(w: Wire, now: nat)
      requires Valid()
      modifies this, dedupe, dedupe.seen
      ensures Valid() && (dedupe.seen == old(dedupe.seen) || fresh(dedupe.seen))
      ensures State() == ReceiveOne(old(State()), w, now, policy)
    {
      if w.id.None? || w.view.None? {
        return;
      }
      if w.plane == ViewScoped && w.view.value != clusterView {
        return;
      }
      var accepted := dedupe.RecordInbound(clusterView, w.id.value, now);
      if !accepted || w.message.None? {
        return;
      }
      var message := w.message.value;
      if ShouldRelay(policy.relayInbound, message) {
        var forwarded := ForForwarding(message);
        if forwarded.Some? && |outboundEvents| < policy.outboundCapacity {
          outboundEvents := outboundEvents + [forwarded.value];
        }
      }
      actors := actors + [message];
    }
  }

  /** A stop report is put on the global plane by its sender, yet a receiver in any other view
      drops it, exactly as it drops view-scoped traffic. Every other message on the global plane
      passes the view check everywhere. */
  lemma GlobalPlaneCrossesViewsExceptStopReports(m: Message, sender: ViewId, receiver: ViewId)
    requires MessagePlane(m) == GlobalMetadata && sender != receiver
    ensures PassesViewCheck(receiver, Encode(m, sender)) <==> !IsStopReport(m)
  {
    PlanesAgreeExceptStopReports(m);
  }

  /** The report that workload 7 has stopped, sent from one epoch of a cluster to a node in the
      next: the sender puts it on the global plane, and the receiver drops it. */
  lemma StopReportExample(inbox: Inbox, now: nat, policy: Policy)
    requires inbox.view == ViewId(1, 2)
    ensures var m := Workload(5, UpsertStatus(7, Causality(1, 3, None, Stopped), true, 0));
            && MessagePlane(m) == GlobalMetadata && WirePlane(m) == ViewScoped
            && ReceiveOne(inbox, Encode(m, ViewId(1, 1)), now, policy) == inbox
  {
  }

  /** A message passes the view check exactly in the sender's own view, or if it is one that crosses
      views: on the global plane and no stop report. */
  lemma PassesViewCheckIff(m: Message, sender: ViewId, receiver: ViewId)
    ensures PassesViewCheck(receiver, Encode(m, sender)) <==>
              sender == receiver || (MessagePlane(m) == GlobalMetadata && !IsStopReport(m))
  {
    PlanesAgreeExceptStopReports(m);
  }

  /** The identifier was recorded in the active view and has not expired since. */
  predicate Remembers(s: Inbox, id: Uuid, now: nat) {
    && s.dedupe.lastActiveView == s.view
    && exists i :: ExpiredCount(s.dedupe.order, now, GOSSIP_BOUNDS.ttl) <= i < |s.dedupe.order| && s.dedupe.order[i].id == id
  }

  /** The message goes out again: relaying is on, or it is on the global plane or about networks; it
      is no heartbeat; and the queue has room. */
  predicate GoesOut(outbound: seq<Message>, m: Message, policy: Policy) {
    && (policy.relayInbound || MessagePlane(m) == GlobalMetadata || m.Network?)
    && !m.Void? && |outbound| < policy.outboundCapacity
  }

  /** What one message from another node does: unless it is turned away by its view or remembered, it is
      delivered, and one copy goes out again exactly if it may. */
  lemma ReceiveExactly(s: Inbox, m: Message, sender: ViewId, now: nat, policy: Policy)
    ensures var t := ReceiveOne(s, Encode(m, sender), now, policy);
            var passes := sender == s.view || (MessagePlane(m) == GlobalMetadata && !IsStopReport(m));
            && t.view == s.view
            && (!passes ==> t == s)
            && (!passes || Remembers(s, m.id, now) ==> t.actors == s.actors && t.outbound == s.outbound)
            && (passes && !Remembers(s, m.id, now) ==>
                  && t.actors == s.actors + [m] && Remembers(t, m.id, now)
                  && (GoesOut(s.outbound, m, policy) ==>
                        |t.outbound| == |s.outbound| + 1 && t.outbound[..|s.outbound|] == s.outbound
                        && SameButCapability(t.outbound[|s.outbound|], m))
                  && (!GoesOut(s.outbound, m, policy) ==> t.outbound == s.outbound))
  {
    PassesViewCheckIff(m, sender, s.view);
    ForwardingPreserves(m, 0);
    RecordedExactly(s.dedupe, ViewCall(s.view, Call(m.id, now)));
  }

  predicate SameButCapability(f: Message, m: Message) {
    f == m || (m.Topology? && m.topology.Join? && f == m.(topology := m.topology.(client := None)))
  }

  /** A call is accepted exactly if the identifier is not remembered, and is remembered after it. */
  lemma RecordedExactly(d: DedupeState, c: ViewCall)
    ensures var r := RecordInView(d, c);
            && r.state.lastActiveView == c.view
            && (r.accepted <==> !Remembers(Inbox(c.view, d, [], []), c.call.id, c.call.now))
            && Remembers(Inbox(c.view, r.state, [], []), c.call.id, c.call.now)
  {
    var order, now, ttl := Rotate(d, c.view).order, c.call.now, GOSSIP_BOUNDS.ttl;
    var young := DropExpired(order, now, ttl);
    var after := RecordInView(d, c).state.order;
    assert forall i :: 0 <= i < |young| ==> young[i] == order[ExpiredCount(order, now, ttl) + i];
    if c.call.id in Ids(young) {
      var i :| 0 <= i < |young| && young[i].id == c.call.id;
      assert order[ExpiredCount(order, now, ttl) + i].id == c.call.id;
      YoungStays(order, now, ttl);
      assert after[i].id == c.call.id;
    } else {
      assert after[|after| - 1] == Entry(c.call.id, now);
    }
  }

  lemma YoungStays(order: seq<Entry>, now: nat, ttl: nat)
    ensures ExpiredCount(DropExpired(order, now, ttl), now, ttl) == 0
  {
  }
}

/** Gossip gets through: what every delivery and every tick of a run adds, and that a message travels
    along any path of nodes in one view (src/gossip/service.rs, src/gossip/outbound.rs). */
module GossipDelivery {
  import opened Basics
  import opened SeenCache
  import opened GossipDedupe
  import opened Messages
  import opened Coalesce
  import opened Lists
  import opened Dispatch
  import opened Inbound
  import opened GossipCluster

  // ----- Every delivery -----

  /** Every message in flight was encoded by a sender. */
  ghost predicate Encoded(c: Cluster) {
    forall f :: f in c.wires ==>
      && f.wire.view.Some? && f.wire.message.Some?
      && f.wire == Encode(f.wire.message.value, f.wire.view.value)
  }

  lemma FlushEncodes(c: Cluster, at: nat, flights: seq<Flight>)
    requires Encoded(c) && at < |c.nodes| && Carries(flights, c.nodes[at])
    ensures Encoded(Flush(c, at, flights))
  {
    assert forall f :: f in multiset(flights) ==> f in flights;
  }

  lemma StepEncodes(c: Cluster, a: Action)
    requires Encoded(c) && Enabled(c, a)
    ensures Encoded(Apply(c, a))
  {
    match a {
      case Tick(at, scoped, global) =>
        TickFlightsCarry(c.nodes[at], scoped, global);
        FlushEncodes(c, at, TickFlights(c.nodes[at], scoped, global));
      case Deliver(f, now, policy) =>
        assert Apply(c, a).wires <= c.wires;
      case _ =>
    }
  }

  lemma {:induction false} RunEncodes(views: seq<ViewId>, actions: seq<Action>)
    ensures Encoded(Run(Fresh(views), actions))
  {
    if actions != [] {
      var earlier, a := actions[..|actions| - 1], actions[|actions| - 1];
      RunEncodes(views, earlier);
      var before := Run(Fresh(views), earlier);
      if Enabled(before, a) {
        StepEncodes(before, a);
      }
    }
  }

  function InboxOf(n: Node): Inbox {
    Inbox(n.view, n.dedupe, n.actors, n.queue)
  }

  /** The flight is let in by the node's view and carries an identifier the node does not remember. */
  predicate IsNews(n: Node, f: Flight, now: nat) {
    && f.wire.view.Some? && f.wire.message.Some?
    && (f.wire.view.value == n.view || CrossesViews(f.wire.message.value))
    && !Remembers(InboxOf(n), f.wire.message.value.id, now)
  }

  predicate CrossesViews(m: Message) {
    MessagePlane(m) == GlobalMetadata && !IsStopReport(m)
  }

  lemma {:induction false} RunNext(c: Cluster, actions: seq<Action>, a: Action)
    ensures Run(c, actions + [a]) == if Enabled(Run(c, actions), a) then Apply(Run(c, actions), a) else Run(c, actions)
  {
    assert (actions + [a])[..|actions|] == actions;
  }

  /** Nothing changes at the other nodes. */
  predicate OnlyAt(c: Cluster, c': Cluster, at: nat) {
    |c'.nodes| == |c.nodes| && forall i :: 0 <= i < |c.nodes| && i != at ==> c'.nodes[i] == c.nodes[i]
  }

  /** What a flight does to the node it arrives at: one that is news goes to the actors, and one copy is
      put up for sending exactly if it may go out; one that is no news does neither. */
  ghost predicate ArrivesAs(n: Node, n': Node, m: Message, news: bool, policy: Policy) {
    && n'.actors == n.actors + (if news then [m] else [])
    && Count(n'.actors, m.id) == Count(n.actors, m.id) + (if news then 1 else 0)
    && |n'.queue| == |n.queue| + (if news && GoesOut(n.queue, m, policy) then 1 else 0)
    && n.queue <= n'.queue
    && (news && GoesOut(n.queue, m, policy) ==> SameButCapability(n'.queue[|n.queue|], m))
  }

  lemma ArriveAdds(n: Node, f: Flight, now: nat, policy: Policy)
    requires f.wire.view.Some? && f.wire.message.Some? && f.wire == Encode(f.wire.message.value, f.wire.view.value)
    ensures ArrivesAs(n, Arrive(n, f.wire, now, policy), f.wire.message.value, IsNews(n, f, now), policy)
  {
    var m := f.wire.message.value;
    ReceiveExactly(InboxOf(n), m, f.wire.view.value, now, policy);
    CountOne(n.actors, m, m.id);
  }

  /** In every run, with any views installed and any entries forgotten, the delivery of a flight gives its
      message to the receiver's actors, once more, exactly if it is news there. */
  lemma DeliveryAdds(views: seq<ViewId>, actions: seq<Action>, f: Flight, now: nat, policy: Policy)
    requires f in Run(Fresh(views), actions).wires && f.to < |Run(Fresh(views), actions).nodes|
    ensures var c, c' := Run(Fresh(views), actions), Run(Fresh(views), actions + [Deliver(f, now, policy)]);
            && OnlyAt(c, c', f.to) && f.wire.message.Some?
            && ArrivesAs(c.nodes[f.to], c'.nodes[f.to], f.wire.message.value, IsNews(c.nodes[f.to], f, now), policy)
  {
    var c := Run(Fresh(views), actions);
    RunEncodes(views, actions);
    RunNext(Fresh(views), actions, Deliver(f, now, policy));
    ArriveAdds(c.nodes[f.to], f, now, policy);
  }

  /** An identifier that is not in the cache is news. */
  lemma UnseenIsNotRemembered(s: Inbox, id: Uuid, now: nat)
    requires id !in Ids(s.dedupe.order)
    ensures !Remembers(s, id, now)
  {
    assert forall i :: 0 <= i < |s.dedupe.order| ==> s.dedupe.order[i].id in Ids(s.dedupe.order);
  }

  // ----- Every tick -----

  lemma {:induction false} InFilter(ms: seq<Message>, keep: Message -> bool, m: Message)
    ensures m in Filter(ms, keep) <==> m in ms && keep(m)
  {
    if ms != [] {
      InFilter(ms[1..], keep, m);
      assert ms == [ms[0]] + ms[1..];
    }
  }

  lemma {:induction false} FlightsExactly(targets: seq<nat>, ms: seq<Message>, view: ViewId, to: nat, m: Message)
    ensures Flight(to, Encode(m, view)) in Flights(targets, ms, view) <==> to in targets && m in ms && !Names(m, to)
  {
    if targets != [] {
      var first, f := targets[0], Flight(to, Encode(m, view));
      FlightsExactly(targets[1..], ms, view, to, m);
      var share := Filter(ms, NotAbout(first));
      InFilter(ms, NotAbout(first), m);
      TargetsThePeerItNames(m, first);
      var flights := seq(|share|, i requires 0 <= i < |share| => Flight(first, Encode(share[i], view)));
      assert f in flights <==> to == first && m in share by {
        if to == first && m in share {
          var i :| 0 <= i < |share| && share[i] == m;
          assert flights[i] == f;
        }
        if f in flights {
          var i :| 0 <= i < |share| && flights[i] == f;
          assert share[i] == m;
        }
      }
    }
  }

  /** A tick sends a pending message to a node exactly if the node is among the targets of the message's
      plane and the message is not an event or digest of that node. */
  lemma TickSendsExactly(n: Node, scoped: seq<nat>, global: seq<nat>, to: nat, m: Message)
    ensures Flight(to, Encode(m, n.view)) in TickFlights(n, scoped, global) <==>
              && m in Coalesced(n.buffer) && !Names(m, to)
              && to in (if MessagePlane(m) == GlobalMetadata then global else scoped)
  {
    var pending := Coalesced(n.buffer);
    InFilter(pending, OnPlane(ViewScoped), m);
    InFilter(pending, OnPlane(GlobalMetadata), m);
    FlightsExactly(scoped, Filter(pending, OnPlane(ViewScoped)), n.view, to, m);
    FlightsExactly(global, Filter(pending, OnPlane(GlobalMetadata)), n.view, to, m);
  }

  // ----- Along a path -----

  /** The node is on the view, has nothing to send, and has not seen the identifier. */
  predicate Quiet(n: Node, view: ViewId, id: Uuid) {
    n.view == view && n.queue == [] && n.buffer == [] && id !in Ids(n.dedupe.order)
  }

  /** The message as any node relays it. */
  predicate Relayable(m: Message, policy: Policy) {
    && GoesOut([], m, policy)
    && (m.Topology? && m.topology.Join? ==> m.topology.client.None?)
  }

  function Hop(a: nat, b: nat, m: Message, view: ViewId, now: nat, policy: Policy): seq<Action> {
    [Tick(a, [b], [b]), Deliver(Flight(b, Encode(m, view)), now, policy), Take(b, now)]
  }

  lemma {:induction false} RunAppend(c: Cluster, a: seq<Action>, b: seq<Action>)
    ensures Run(c, a + b) == Run(Run(c, a), b)
    decreases |b|
  {
    if b == [] {
      assert a + b == a;
    } else {
      var last := |b| - 1;
      assert a + b == (a + b[..last]) + [b[last]];
      RunNext(c, a + b[..last], b[last]);
      RunAppend(c, a, b[..last]);
    }
  }

  lemma RunThree(c: Cluster, x: Action, y: Action, z: Action)
    requires Enabled(c, x) && Enabled(Apply(c, x), y) && Enabled(Apply(Apply(c, x), y), z)
    ensures Run(c, [x, y, z]) == Apply(Apply(Apply(c, x), y), z)
  {
    RunNext(c, [], x);
    RunNext(c, [x], y);
    RunNext(c, [x, y], z);
    assert [] + [x] == [x] && [x] + [y] == [x, y] && [x, y] + [z] == [x, y, z];
  }

  /** The message arrives, is delivered and is queued to go out. */
  lemma ArriveQuiet(n: Node, m: Message, view: ViewId, now: nat, policy: Policy)
    requires Quiet(n, view, m.id) && Relayable(m, policy)
    ensures var n' := Arrive(n, Encode(m, view), now, policy);
            n'.actors == n.actors + [m] && n'.queue == [m] && n'.buffer == [] && n'.view == view
  {
    ReceiveExactly(InboxOf(n), m, view, now, policy);
    UnseenIsNotRemembered(InboxOf(n), m.id, now);
    var t := ReceiveOne(InboxOf(n), Encode(m, view), now, policy);
    assert t.outbound == [t.outbound[0]];
  }

  lemma CoalescedOne(m: Message)
    ensures Coalesced([m]) == [m]
  {
    assert Insert([], m) == [m] && [m][1..] == [];
    assert CoalesceInto([], [m]) == CoalesceInto([m], []) == [m];
  }

  lemma TickToOne(c: Cluster, a: nat, b: nat, m: Message)
    requires a < |c.nodes| && c.nodes[a].buffer == [m] && !Names(m, b)
    ensures var c' := Apply(c, Tick(a, [b], [b]));
            && OnlyAt(c, c', a) && c'.nodes[a].actors == c.nodes[a].actors
            && Flight(b, Encode(m, c.nodes[a].view)) in c'.wires
  {
    CoalescedOne(m);
    TickSendsExactly(c.nodes[a], [b], [b], b, m);
    assert Flight(b, Encode(m, c.nodes[a].view)) in multiset(TickFlights(c.nodes[a], [b], [b]));
  }

  lemma DeliverQuiet(c: Cluster, b: nat, m: Message, view: ViewId, now: nat, policy: Policy)
    requires b < |c.nodes| && Quiet(c.nodes[b], view, m.id) && Relayable(m, policy)
    requires Flight(b, Encode(m, view)) in c.wires
    ensures var c' := Apply(c, Deliver(Flight(b, Encode(m, view)), now, policy));
            && OnlyAt(c, c', b) && c'.nodes[b].actors == c.nodes[b].actors + [m]
            && c'.nodes[b].queue == [m] && c'.nodes[b].buffer == [] && c'.nodes[b].view == view
  {
    ArriveQuiet(c.nodes[b], m, view, now, policy);
  }

  lemma TakeOnly(c: Cluster, b: nat, m: Message, now: nat)
    requires b < |c.nodes| && c.nodes[b].queue == [m] && c.nodes[b].buffer == []
    ensures var c' := Apply(c, Take(b, now));
            && OnlyAt(c, c', b) && c'.nodes[b].actors == c.nodes[b].actors
            && c'.nodes[b].buffer == [m] && c'.nodes[b].view == c.nodes[b].view
  {
  }

  /** One hop hands the message on: the second node has delivered it and is about to send it. */
  lemma HopSpreads(c: Cluster, a: nat, b: nat, m: Message, view: ViewId, now: nat, policy: Policy)
    requires a < |c.nodes| && b < |c.nodes| && a != b && c.nodes[a].view == view && c.nodes[a].buffer == [m]
    requires Quiet(c.nodes[b], view, m.id) && Relayable(m, policy) && !Names(m, b)
    ensures var c' := Run(c, Hop(a, b, m, view, now, policy));
            && |c'.nodes| == |c.nodes|
            && c'.nodes[b].buffer == [m] && c'.nodes[b].view == view
            && c'.nodes[b].actors == c.nodes[b].actors + [m]
            && c'.nodes[a].actors == c.nodes[a].actors
            && (forall i :: 0 <= i < |c.nodes| && i != a && i != b ==> c'.nodes[i] == c.nodes[i])
  {
    var tick, f := Tick(a, [b], [b]), Flight(b, Encode(m, view));
    TickToOne(c, a, b, m);
    var c1 := Apply(c, tick);
    DeliverQuiet(c1, b, m, view, now, policy);
    var c2 := Apply(c1, Deliver(f, now, policy));
    TakeOnly(c2, b, m, now);
    RunThree(c, tick, Deliver(f, now, policy), Take(b, now));
  }

  /** No node twice. */
  predicate Simple(path: seq<nat>) {
    forall i, j :: 0 <= i < j < |path| ==> path[i] != path[j]
  }

  ghost predicate ReadyFor(c: Cluster, path: seq<nat>, m: Message, view: ViewId) {
    && path != [] && Simple(path) && (forall i :: 0 <= i < |path| ==> path[i] < |c.nodes|)
    && c.nodes[path[0]].view == view && c.nodes[path[0]].buffer == [m]
    && (forall i :: 1 <= i < |path| ==> Quiet(c.nodes[path[i]], view, m.id) && !Names(m, path[i]))
  }

  /** Every node of the path but the first has been given the message. */
  ghost predicate Spread(c: Cluster, c': Cluster, path: seq<nat>, m: Message)
    requires path != [] && forall i :: 0 <= i < |path| ==> path[i] < |c.nodes|
  {
    && |c'.nodes| == |c.nodes|
    && c'.nodes[path[0]].actors == c.nodes[path[0]].actors
    && (forall i :: 1 <= i < |path| ==> c'.nodes[path[i]].actors == c.nodes[path[i]].actors + [m])
  }

  /** From any state whose nodes along a path are quiet, some schedule carries the message from the first
      node of the path to all the others. */
  lemma {:induction false} PathSpreads(c: Cluster, path: seq<nat>, m: Message, view: ViewId, now: nat, policy: Policy)
    returns (actions: seq<Action>)
    requires ReadyFor(c, path, m, view) && Relayable(m, policy)
    ensures Spread(c, Run(c, actions), path, m)
    ensures forall i :: 0 <= i < |c.nodes| && i !in path ==> Run(c, actions).nodes[i] == c.nodes[i]
    decreases |path|
  {
    if |path| == 1 {
      actions := [];
    } else {
      var hop := Hop(path[0], path[1], m, view, now, policy);
      var mid, rest := Run(c, hop), path[1..];
      HopSpreads(c, path[0], path[1], m, view, now, policy);
      assert ReadyFor(mid, rest, m, view);
      var more := PathSpreads(mid, rest, m, view, now, policy);
      actions := hop + more;
      RunAppend(c, hop, more);
      assert path[0] !in rest;
      assert forall i :: 1 <= i < |path| ==> path[i] == rest[i - 1];
    }
  }

  /** In a cluster of nodes on one view, a message that any of them originates can reach every node along
      any path, and is then delivered to each of them exactly once. */
  lemma MessageCanReachEveryone(views: seq<ViewId>, path: seq<nat>, m: Message, now: nat, policy: Policy)
    returns (actions: seq<Action>)
    requires path != [] && Simple(path) && forall i :: 0 <= i < |path| ==> path[i] < |views|
    requires forall i :: 0 <= i < |path| ==> views[path[i]] == views[path[0]]
    requires Relayable(m, policy) && forall i :: 1 <= i < |path| ==> !Names(m, path[i])
    ensures var c := Run(Fresh(views), actions);
            |c.nodes| == |views| && forall i :: 1 <= i < |path| ==> c.nodes[path[i]].actors == [m]
  {
    var c, start := Fresh(views), [Originate(path[0], m), Take(path[0], now)];
    RunNext(c, [], start[0]);
    RunNext(c, [start[0]], start[1]);
    assert [] + [start[0]] == [start[0]] && [start[0]] + [start[1]] == start;
    var mid := Run(c, start);
    assert ReadyFor(mid, path, m, views[path[0]]);
    var more := PathSpreads(mid, path, m, views[path[0]], now, policy);
    actions := start + more;
    RunAppend(c, start, more);
  }
}

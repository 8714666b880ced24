/** View-scoped gossip never crosses a split, through any chain of relays. */
module SplitIsolation {
  import opened Basics
  import opened Messages
  import opened Inbound
  import opened GossipCluster
  import opened ClusterTransition

  /** The identifier has not been used anywhere yet. */
  ghost predicate Unused(c: Cluster, x: Uuid) {
    && (forall i, m :: 0 <= i < |c.nodes| && m in c.nodes[i].queue ==> m.id != x)
    && (forall i, m :: 0 <= i < |c.nodes| && m in c.nodes[i].buffer ==> m.id != x)
    && (forall i, m :: 0 <= i < |c.nodes| && m in c.nodes[i].actors ==> m.id != x)
    && (forall f :: f in c.wires ==> f.wire.message.None? || f.wire.message.value.id != x)
  }

  /** A node holding the identifier is in the view, and holds it only as view-scoped traffic. */
  ghost predicate NodeConfined(n: Node, x: Uuid, view: ViewId) {
    && (forall m :: m in n.queue && m.id == x ==> n.view == view && WirePlane(m) == ViewScoped)
    && (forall m :: m in n.buffer && m.id == x ==> n.view == view && WirePlane(m) == ViewScoped)
    && (forall m :: m in n.actors && m.id == x ==> n.view == view)
  }

  ghost predicate FlightConfined(f: Flight, x: Uuid, view: ViewId) {
    f.wire.message.Some? && f.wire.message.value.id == x ==>
      && f.wire.plane == ViewScoped && WirePlane(f.wire.message.value) == ViewScoped
      && f.wire.view == Some(view)
  }

  ghost predicate Confined(c: Cluster, x: Uuid, view: ViewId) {
    && x in c.origin
    && (forall i :: 0 <= i < |c.nodes| ==> NodeConfined(c.nodes[i], x, view))
    && (forall f :: f in c.wires ==> FlightConfined(f, x, view))
  }

  lemma ArriveConfined(n: Node, f: Flight, now: nat, policy: Policy, x: Uuid, view: ViewId)
    requires NodeConfined(n, x, view) && FlightConfined(f, x, view)
    ensures NodeConfined(Arrive(n, f.wire, now, policy), x, view)
    ensures Arrive(n, f.wire, now, policy).view == n.view
  {
    if f.wire.message.Some? {
      ForwardingPreserves(f.wire.message.value, 0);
    }
  }

  lemma FlushConfined(c: Cluster, at: nat, flights: seq<Flight>, x: Uuid, view: ViewId)
    requires Confined(c, x, view) && at < |c.nodes| && Carries(flights, c.nodes[at])
    ensures Confined(Flush(c, at, flights), x, view)
  {
    assert forall f :: f in multiset(flights) ==> f in flights;
  }

  lemma TickConfined(c: Cluster, a: Action, x: Uuid, view: ViewId)
    requires Confined(c, x, view) && a.Tick? && Enabled(c, a)
    ensures Confined(Apply(c, a), x, view)
  {
    TickFlightsCarry(c.nodes[a.at], a.scoped, a.global);
    FlushConfined(c, a.at, TickFlights(c.nodes[a.at], a.scoped, a.global), x, view);
  }

  lemma OriginateConfined(c: Cluster, a: Action, x: Uuid, view: ViewId)
    requires Confined(c, x, view) && a.Originate? && Enabled(c, a)
    ensures Confined(Apply(c, a), x, view)
  {
    assert a.message.id != x;
    assert NodeConfined(c.nodes[a.at].(queue := c.nodes[a.at].queue + [a.message]), x, view);
  }

  lemma TakeConfined(c: Cluster, a: Action, x: Uuid, view: ViewId)
    requires Confined(c, x, view) && a.Take? && Enabled(c, a)
    ensures Confined(Apply(c, a), x, view)
  {
    assert NodeConfined(TakeOne(c.nodes[a.at], a.now), x, view);
  }

  lemma DeliverConfined(c: Cluster, a: Action, x: Uuid, view: ViewId)
    requires Confined(c, x, view) && a.Deliver? && Enabled(c, a)
    ensures Confined(Apply(c, a), x, view)
  {
    ArriveConfined(c.nodes[a.flight.to], a.flight, a.now, a.policy, x, view);
  }

  lemma StepKeepsViews(c: Cluster, a: Action)
    requires Enabled(c, a) && !a.Install?
    ensures |Apply(c, a).nodes| == |c.nodes|
    ensures forall i :: 0 <= i < |c.nodes| ==> Apply(c, a).nodes[i].view == c.nodes[i].view
  {
    match a {
      case Originate(_, _) =>
      case Take(at, now) => assert TakeOne(c.nodes[at], now).view == c.nodes[at].view;
      case Tick(_, _, _) =>
      case Deliver(f, now, policy) => assert Arrive(c.nodes[f.to], f.wire, now, policy).view == c.nodes[f.to].view;
      case Lose(_) =>
    }
  }

  lemma StepConfined(c: Cluster, a: Action, x: Uuid, view: ViewId)
    requires Confined(c, x, view) && Enabled(c, a) && !a.Install?
    ensures Confined(Apply(c, a), x, view)
  {
    match a {
      case Originate(_, _) => OriginateConfined(c, a, x, view);
      case Take(_, _) => TakeConfined(c, a, x, view);
      case Tick(_, _, _) => TickConfined(c, a, x, view);
      case Deliver(_, _, _) => DeliverConfined(c, a, x, view);
      case Lose(_) =>
    }
  }

  lemma {:induction false} RunConfined(c: Cluster, actions: seq<Action>, x: Uuid, view: ViewId)
    requires Confined(c, x, view)
    requires forall k :: 0 <= k < |actions| ==> !actions[k].Install?
    ensures Confined(Run(c, actions), x, view)
    ensures |Run(c, actions).nodes| == |c.nodes|
    ensures forall i :: 0 <= i < |c.nodes| ==> Run(c, actions).nodes[i].view == c.nodes[i].view
  {
    if actions != [] {
      var earlier, a := actions[..|actions| - 1], actions[|actions| - 1];
      RunConfined(c, earlier, x, view);
      if Enabled(Run(c, earlier), a) {
        StepConfined(Run(c, earlier), a, x, view);
        StepKeepsViews(Run(c, earlier), a);
      }
    }
  }

  /** From any cluster state whatever, a view-scoped message originated under one view is never
      delivered to the actors of a node under another, in any run without further view changes. */
  lemma ViewScopedStaysInView(c: Cluster, o: nat, m: Message, actions: seq<Action>, i: nat)
    requires Unused(c, m.id) && Enabled(c, Originate(o, m)) && WirePlane(m) == ViewScoped
    requires forall k :: 0 <= k < |actions| ==> !actions[k].Install?
    requires i < |c.nodes| && c.nodes[i].view != c.nodes[o].view
    ensures |Run(Apply(c, Originate(o, m)), actions).nodes| == |c.nodes|
    ensures Count(Run(Apply(c, Originate(o, m)), actions).nodes[i].actors, m.id) == 0
  {
    var view, start := c.nodes[o].view, Apply(c, Originate(o, m));
    assert Confined(start, m.id, view);
    RunConfined(start, actions, m.id, view);
    assert start.nodes[i].view == c.nodes[i].view;
    CountPositive(Run(start, actions).nodes[i].actors, m.id);
  }

  /** Every node has installed the view it derives from the split record. */
  ghost predicate SplitInstalled(c: Cluster, op: Operation, known: seq<set<Uuid>>) {
    && |known| == |c.nodes|
    && (forall i :: 0 <= i < |c.nodes| ==>
          TransitionOf(op, i, known[i]).Ok? && c.nodes[i].view == TransitionOf(op, i, known[i]).value.targetView)
  }

  /** After a split with distinct target views, whatever peers each node knew when it derived its
      own view, a view-scoped payload originated in one target never reaches an actor in another. */
  lemma SplitIsolates(c: Cluster, op: Operation, known: seq<set<Uuid>>, o: nat, m: Message,
                      actions: seq<Action>, i: nat)
    requires op.kind == Split && OneAssignmentPerNode(op) && DistinctTargets(op)
    requires SplitInstalled(c, op, known)
    requires Unused(c, m.id) && Enabled(c, Originate(o, m)) && WirePlane(m) == ViewScoped
    requires forall k :: 0 <= k < |actions| ==> !actions[k].Install?
    requires i < |c.nodes| && FirstTarget(op.assignments, i) != FirstTarget(op.assignments, o)
    ensures |Run(Apply(c, Originate(o, m)), actions).nodes| == |c.nodes|
    ensures Count(Run(Apply(c, Originate(o, m)), actions).nodes[i].actors, m.id) == 0
  {
    SplitViewsAgree(op, i, o, known[i], known[o]);
    ViewScopedStaysInView(c, o, m, actions, i);
  }
}

/** A cluster of gossiping nodes as a step system built from the receive path, the worker and the
    dispatcher. Nodes are numbered; any interleaving, loss, delay and reordering of flights is a
    run. */
module GossipCluster {
  import opened Basics
  import opened SeenCache
  import opened GossipDedupe
  import opened Messages
  import opened Coalesce
  import opened Lists
  import opened Dispatch
  import opened Inbound

  /** `queue` is the outbound channel, `buffer` what the worker has taken from it, `handed` all
      that was ever flushed from the buffer, `actors` all that was ever delivered locally. */
  datatype Node = Node(view: ViewId, dedupe: DedupeState, queue: seq<Message>, buffer: seq<Message>,
                       handed: seq<Message>, actors: seq<Message>)

  datatype Flight = Flight(to: nat, wire: Wire)

  /** `origin` gives the originating node of every identifier ever used; `sent` is all that was
      ever put on the network. */
  datatype Cluster = Cluster(nodes: seq<Node>, wires: multiset<Flight>, origin: map<Uuid, nat>, sent: seq<Flight>)

  datatype Action =
    | Originate(at: nat, message: Message)
    | Take(at: nat, now: nat)
    | Tick(at: nat, scoped: seq<nat>, global: seq<nat>)
    | Deliver(flight: Flight, now: nat, policy: Policy)
    | Lose(flight: Flight)
    | Install(at: nat, view: ViewId)

  // ----- Steps -----

  predicate Enabled(c: Cluster, a: Action) {
    match a
    case Originate(at, m) => at < |c.nodes| && m.id !in c.origin
    case Take(at, _) => at < |c.nodes| && c.nodes[at].queue != []
    case Tick(at, _, _) => at < |c.nodes| && c.nodes[at].buffer != []
    case Deliver(f, _, _) => f in c.wires && f.to < |c.nodes|
    case Lose(f) => f in c.wires
    case Install(at, _) => at < |c.nodes|
  }

  /** The flights of one plane: to every target, the messages not about that target. */
  function Flights(targets: seq<nat>, ms: seq<Message>, view: ViewId): seq<Flight> {
    if targets == [] then []
    else
      var share := Filter(ms, NotAbout(targets[0]));
      seq(|share|, i requires 0 <= i < |share| => Flight(targets[0], Encode(share[i], view)))
      + Flights(targets[1..], ms, view)
  }

  /** What one tick of a node puts on the network. */
  function TickFlights(n: Node, scoped: seq<nat>, global: seq<nat>): seq<Flight> {
    var pending := Coalesced(n.buffer);
    Flights(scoped, Filter(pending, OnPlane(ViewScoped)), n.view)
    + Flights(global, Filter(pending, OnPlane(GlobalMetadata)), n.view)
  }

  function TakeOne(n: Node, now: nat): Node
    requires n.queue != []
  {
    var m := n.queue[0];
    n.(queue := n.queue[1..], buffer := n.buffer + [m],
       dedupe := RecordInView(n.dedupe, ViewCall(n.view, Call(m.id, now))).state)
  }

  function Arrive(n: Node, w: Wire, now: nat, policy: Policy): Node {
    var s := ReceiveOne(Inbox(n.view, n.dedupe, n.actors, n.queue), w, now, policy);
    n.(dedupe := s.dedupe, actors := s.actors, queue := s.outbound)
  }

  /** A node hands its buffer over and its flights go out. */
  function Flush(c: Cluster, at: nat, flights: seq<Flight>): Cluster
    requires at < |c.nodes|
  {
    var n := c.nodes[at];
    c.(nodes := c.nodes[at := n.(buffer := [], handed := n.handed + n.buffer)],
       wires := c.wires + multiset(flights), sent := c.sent + flights)
  }

  function Apply(c: Cluster, a: Action): Cluster
    requires Enabled(c, a)
  {
    match a
    case Originate(at, m) =>
      c.(nodes := c.nodes[at := c.nodes[at].(queue := c.nodes[at].queue + [m])], origin := c.origin[m.id := at])
    case Take(at, now) =>
      c.(nodes := c.nodes[at := TakeOne(c.nodes[at], now)])
    case Tick(at, scoped, global) =>
      Flush(c, at, TickFlights(c.nodes[at], scoped, global))
    case Deliver(f, now, policy) =>
      c.(nodes := c.nodes[f.to := Arrive(c.nodes[f.to], f.wire, now, policy)], wires := c.wires - multiset{f})
    case Lose(f) =>
      c.(wires := c.wires - multiset{f})
    case Install(at, view) =>
      c.(nodes := c.nodes[at := c.nodes[at].(view := view)])
  }

  /** An action that is not enabled changes nothing. */
  function Run(c: Cluster, actions: seq<Action>): Cluster {
    if actions == [] then c
    else
      var before := Run(c, actions[..|actions| - 1]);
      var a := actions[|actions| - 1];
      if Enabled(before, a) then Apply(before, a) else before
  }

  /** A cluster before any gossip: every node on some view, nothing recorded or in flight. */
  function Fresh(views: seq<ViewId>): Cluster {
    Cluster(seq(|views|, i requires 0 <= i < |views| => Node(views[i], DedupeState(views[i], []), [], [], [], [])),
            multiset{}, map[], [])
  }

  // ----- Counting one identifier -----

  function Count(ms: seq<Message>, x: Uuid): nat {
    if ms == [] then 0 else (if ms[0].id == x then 1 else 0) + Count(ms[1..], x)
  }

  lemma {:induction false} CountAppend(a: seq<Message>, b: seq<Message>, x: Uuid)
    ensures Count(a + b, x) == Count(a, x) + Count(b, x)
  {
    if a == [] {
      assert a + b == b;
    } else {
      assert (a + b)[1..] == a[1..] + b;
      CountAppend(a[1..], b, x);
    }
  }

  lemma CountOne(a: seq<Message>, m: Message, x: Uuid)
    ensures Count(a + [m], x) == Count(a, x) + if m.id == x then 1 else 0
  {
    CountAppend(a, [m], x);
    assert [m][1..] == [];
  }

  lemma {:induction false} CountPositive(ms: seq<Message>, x: Uuid)
    ensures Count(ms, x) > 0 <==> exists m :: m in ms && m.id == x
  {
    if ms != [] {
      CountPositive(ms[1..], x);
      assert ms == [ms[0]] + ms[1..];
    }
  }

  // ----- The cache loses nothing -----

  /** The call finds no entry expired, and room if its identifier is new. */
  predicate Lossless(order: seq<Entry>, call: Call) {
    && ExpiredCount(order, call.now, GOSSIP_BOUNDS.ttl) == 0
    && (call.id !in Ids(order) ==> |order| < GOSSIP_BOUNDS.maxEntries)
  }

  /** Such a call only ever adds. */
  lemma RecordWithoutLoss(order: seq<Entry>, call: Call)
    requires DistinctIds(order) && Lossless(order, call)
    ensures var r := RecordCall(order, call, GOSSIP_BOUNDS);
            && (r.accepted <==> call.id !in Ids(order))
            && r.order == (if r.accepted then order + [Entry(call.id, call.now)] else order)
            && DistinctIds(r.order) && Ids(r.order) == Ids(order) + {call.id}
  {
    assert DropExpired(order, call.now, GOSSIP_BOUNDS.ttl) == order;
  }

  /** A call is lossless exactly when every entry of the cache is still there after it. */
  lemma LosslessIff(order: seq<Entry>, call: Call)
    requires DistinctIds(order)
    ensures Lossless(order, call) <==> forall e :: e in order ==> e in RecordCall(order, call, GOSSIP_BOUNDS).order
  {
    var after := RecordCall(order, call, GOSSIP_BOUNDS).order;
    if Lossless(order, call) {
      RecordWithoutLoss(order, call);
    } else {
      assert order != [];
      FirstIsLost(order, call);
      assert order[0] in order && order[0] !in after;
    }
  }

  /** What a call loses, it loses from the front. */
  lemma FirstIsLost(order: seq<Entry>, call: Call)
    requires DistinctIds(order) && !Lossless(order, call) && order != []
    ensures order[0] !in RecordCall(order, call, GOSSIP_BOUNDS).order
  {
    var expired := ExpiredCount(order, call.now, GOSSIP_BOUNDS.ttl);
    var young := order[expired..];
    assert forall e :: e in order[1..] ==> e != order[0];
    if expired > 0 {
      assert forall e :: e in young ==> e in order[1..];
    } else {
      assert young == order;
      var all := order + [Entry(call.id, call.now)];
      assert forall e :: e in all[1..] ==> e in order[1..] || e == Entry(call.id, call.now);
      assert order[0].id in Ids(order);
    }
  }

  lemma {:induction false} SubsetSize(a: set<Uuid>, b: set<Uuid>)
    requires a <= b
    ensures |a| <= |b|
  {
    if a != {} {
      var x :| x in a;
      SubsetSize(a - {x}, b - {x});
    }
  }

  // ----- What every step keeps -----

  ghost predicate NodeSane(n: Node, known: set<Uuid>) {
    && n.dedupe.lastActiveView == n.view
    && DistinctIds(n.dedupe.order) && Ids(n.dedupe.order) <= known
    && (forall m :: m in n.queue ==> m.id in known)
    && (forall m :: m in n.buffer ==> m.id in known)
  }

  ghost predicate FlightSane(f: Flight, known: set<Uuid>) {
    && f.wire.view.Some? && f.wire.message.Some?
    && f.wire == Encode(f.wire.message.value, f.wire.view.value)
    && f.wire.message.value.id in known
  }

  ghost predicate Sane(c: Cluster) {
    && (forall i :: 0 <= i < |c.nodes| ==> NodeSane(c.nodes[i], c.origin.Keys))
    && (forall f :: f in c.wires ==> FlightSane(f, c.origin.Keys))
  }

  /** A step that changes no view, and makes no node's cache lose an entry. */
  predicate LosesNothing(c: Cluster, a: Action)
    requires Enabled(c, a)
  {
    match a
    case Take(at, now) => Lossless(c.nodes[at].dedupe.order, Call(c.nodes[at].queue[0].id, now))
    case Deliver(f, now, _) => ArrivesLossless(c.nodes[f.to], f.wire, now)
    case Install(_, _) => false
    case _ => true
  }

  /** A message that passes the view check is recorded without loss; another is not recorded. */
  predicate ArrivesLossless(n: Node, w: Wire, now: nat) {
    PassesViewCheck(n.view, w) && w.id.Some? ==> Lossless(n.dedupe.order, Call(w.id.value, now))
  }

  lemma {:induction false} FlightsCarry(targets: seq<nat>, ms: seq<Message>, view: ViewId)
    ensures forall f :: f in Flights(targets, ms, view) ==>
              f.wire.message.Some? && f.wire.message.value in ms && f.wire == Encode(f.wire.message.value, view)
  {
    if targets != [] {
      FlightsCarry(targets[1..], ms, view);
      FilterSubset(ms, NotAbout(targets[0]));
    }
  }

  lemma {:induction false} CoalesceSubset(out: seq<Message>, pending: seq<Message>)
    ensures forall m :: m in CoalesceInto(out, pending) ==> m in out || m in pending
    ensures |CoalesceInto(out, pending)| <= |out| + |pending|
    decreases |pending|
  {
    if pending != [] {
      CoalesceSubset(Insert(out, pending[0]), pending[1..]);
    }
  }

  /** Every flight carries a buffered message of the node, tagged with the node's view. */
  ghost predicate Carries(flights: seq<Flight>, n: Node) {
    forall f :: f in flights ==>
      f.wire.message.Some? && f.wire.message.value in n.buffer && f.wire == Encode(f.wire.message.value, n.view)
  }

  lemma TickFlightsCarry(n: Node, scoped: seq<nat>, global: seq<nat>)
    ensures Carries(TickFlights(n, scoped, global), n)
  {
    var pending := Coalesced(n.buffer);
    CoalesceSubset([], n.buffer);
    FilterSubset(pending, OnPlane(ViewScoped));
    FilterSubset(pending, OnPlane(GlobalMetadata));
    FlightsCarry(scoped, Filter(pending, OnPlane(ViewScoped)), n.view);
    FlightsCarry(global, Filter(pending, OnPlane(GlobalMetadata)), n.view);
  }

  lemma TakeSane(n: Node, now: nat, known: set<Uuid>)
    requires NodeSane(n, known) && n.queue != [] && Lossless(n.dedupe.order, Call(n.queue[0].id, now))
    ensures NodeSane(TakeOne(n, now), known)
    ensures Ids(TakeOne(n, now).dedupe.order) == Ids(n.dedupe.order) + {n.queue[0].id}
    ensures |n.dedupe.order| <= |TakeOne(n, now).dedupe.order|
  {
    RecordWithoutLoss(n.dedupe.order, Call(n.queue[0].id, now));
  }

  lemma ArriveSane(n: Node, f: Flight, now: nat, policy: Policy, known: set<Uuid>)
    requires NodeSane(n, known) && FlightSane(f, known) && ArrivesLossless(n, f.wire, now)
    ensures NodeSane(Arrive(n, f.wire, now, policy), known)
    ensures var m := f.wire.message.value;
            var n' := Arrive(n, f.wire, now, policy);
            if !PassesViewCheck(n.view, f.wire) || m.id in Ids(n.dedupe.order) then n' == n
            else
              && Ids(n'.dedupe.order) == Ids(n.dedupe.order) + {m.id}
              && |n'.dedupe.order| == |n.dedupe.order| + 1
              && n' == n.(dedupe := n'.dedupe, actors := n.actors + [m], queue := Relayed(n.queue, m, policy))
  {
    if PassesViewCheck(n.view, f.wire) {
      RecordWithoutLoss(n.dedupe.order, Call(f.wire.message.value.id, now));
    }
    ForwardingPreserves(f.wire.message.value, 0);
  }

  lemma OriginateSane(c: Cluster, a: Action)
    requires Sane(c) && a.Originate? && Enabled(c, a)
    ensures Sane(Apply(c, a))
  {
    assert Apply(c, a).origin.Keys == c.origin.Keys + {a.message.id};
  }

  lemma TickSane(c: Cluster, a: Action)
    requires Sane(c) && a.Tick? && Enabled(c, a)
    ensures Sane(Apply(c, a))
  {
    TickFlightsCarry(c.nodes[a.at], a.scoped, a.global);
  }

  lemma StepSane(c: Cluster, a: Action)
    requires Sane(c) && Enabled(c, a) && LosesNothing(c, a)
    ensures Sane(Apply(c, a))
  {
    match a {
      case Originate(_, _) => OriginateSane(c, a);
      case Take(at, now) => TakeSane(c.nodes[at], now, c.origin.Keys);
      case Tick(_, _, _) => TickSane(c, a);
      case Deliver(f, now, policy) => ArriveSane(c.nodes[f.to], f, now, policy, c.origin.Keys);
      case Lose(_) =>
    }
  }

  // ----- One identifier travels once -----

  predicate Seen(n: Node, x: Uuid) {
    x in Ids(n.dedupe.order)
  }

  /** How often the identifier was put up for sending: waiting, buffered or already flushed. */
  function Copies(n: Node, x: Uuid): nat {
    Count(n.queue, x) + Count(n.buffer, x) + Count(n.handed, x)
  }

  ghost predicate Untouched(n: Node, x: Uuid) {
    !Seen(n, x) && Copies(n, x) == 0 && Count(n.actors, x) == 0
  }

  ghost predicate NodeTracks(n: Node, x: Uuid, isOrigin: bool) {
    && Copies(n, x) <= 1 && Count(n.actors, x) <= 1
    && (isOrigin ==> Count(n.actors, x) == 0)
    && (!Seen(n, x) ==> Count(n.buffer, x) == Count(n.handed, x) == Count(n.actors, x) == 0)
    && (!Seen(n, x) && !isOrigin ==> Count(n.queue, x) == 0)
  }

  ghost predicate InFlight(c: Cluster, x: Uuid) {
    exists f :: f in c.wires && f.wire.id == Some(x)
  }

  /** Until the originator has registered the identifier, nobody else knows of it. */
  ghost predicate Tracks(c: Cluster, x: Uuid) {
    if x !in c.origin then
      !InFlight(c, x) && forall i :: 0 <= i < |c.nodes| ==> Untouched(c.nodes[i], x)
    else
      var o := c.origin[x];
      && o < |c.nodes|
      && (forall i :: 0 <= i < |c.nodes| ==> NodeTracks(c.nodes[i], x, i == o))
      && (!Seen(c.nodes[o], x) ==>
            !InFlight(c, x) && forall i :: 0 <= i < |c.nodes| && i != o ==> Untouched(c.nodes[i], x))
  }

  lemma OriginateTracks(c: Cluster, a: Action, x: Uuid)
    requires Tracks(c, x) && a.Originate? && Enabled(c, a)
    ensures Tracks(Apply(c, a), x)
  {
    CountOne(c.nodes[a.at].queue, a.message, x);
  }

  lemma TakeTracks(n: Node, now: nat, known: set<Uuid>, x: Uuid, isOrigin: bool)
    requires NodeSane(n, known) && n.queue != [] && Lossless(n.dedupe.order, Call(n.queue[0].id, now))
    requires NodeTracks(n, x, isOrigin)
    ensures NodeTracks(TakeOne(n, now), x, isOrigin)
    ensures Untouched(n, x) ==> Untouched(TakeOne(n, now), x)
    ensures Seen(n, x) ==> Seen(TakeOne(n, now), x)
  {
    var m := n.queue[0];
    TakeSane(n, now, known);
    CountOne(n.buffer, m, x);
    assert n.queue == [m] + n.queue[1..];
  }

  lemma ArriveTracks(n: Node, f: Flight, now: nat, policy: Policy, known: set<Uuid>, x: Uuid, isOrigin: bool)
    requires NodeSane(n, known) && FlightSane(f, known) && ArrivesLossless(n, f.wire, now)
    requires NodeTracks(n, x, isOrigin)
    requires f.wire.id == Some(x) && isOrigin ==> Seen(n, x)
    ensures NodeTracks(Arrive(n, f.wire, now, policy), x, isOrigin)
    ensures f.wire.id != Some(x) && Untouched(n, x) ==> Untouched(Arrive(n, f.wire, now, policy), x)
    ensures Seen(n, x) ==> Seen(Arrive(n, f.wire, now, policy), x)
  {
    var m := f.wire.message.value;
    ArriveSane(n, f, now, policy, known);
    CountOne(n.actors, m, x);
    ForwardingPreserves(m, 0);
    if ForForwarding(m).Some? {
      CountOne(n.queue, ForForwarding(m).value, x);
    }
  }

  lemma FlushTracks(n: Node, x: Uuid, isOrigin: bool)
    requires NodeTracks(n, x, isOrigin)
    ensures NodeTracks(n.(buffer := [], handed := n.handed + n.buffer), x, isOrigin)
    ensures Untouched(n, x) ==> Untouched(n.(buffer := [], handed := n.handed + n.buffer), x)
  {
    CountAppend(n.handed, n.buffer, x);
  }

  lemma FlushedWires(c: Cluster, at: nat, flights: seq<Flight>, x: Uuid)
    requires at < |c.nodes| && Carries(flights, c.nodes[at]) && InFlight(Flush(c, at, flights), x)
    ensures InFlight(c, x) || Count(c.nodes[at].buffer, x) > 0
  {
    CountPositive(c.nodes[at].buffer, x);
    assert forall f :: f in multiset(flights) ==> f in flights;
  }

  lemma FlushClusterTracks(c: Cluster, at: nat, flights: seq<Flight>, x: Uuid)
    requires Tracks(c, x) && at < |c.nodes| && Carries(flights, c.nodes[at])
    ensures Tracks(Flush(c, at, flights), x)
  {
    FlushTracks(c.nodes[at], x, x in c.origin && c.origin[x] == at);
    if InFlight(Flush(c, at, flights), x) {
      FlushedWires(c, at, flights, x);
    }
  }

  lemma TickTracks(c: Cluster, a: Action, x: Uuid)
    requires Tracks(c, x) && a.Tick? && Enabled(c, a)
    ensures Tracks(Apply(c, a), x)
  {
    TickFlightsCarry(c.nodes[a.at], a.scoped, a.global);
    FlushClusterTracks(c, a.at, TickFlights(c.nodes[a.at], a.scoped, a.global), x);
  }

  lemma TakeStepTracks(c: Cluster, a: Action, x: Uuid)
    requires Sane(c) && Tracks(c, x) && a.Take? && Enabled(c, a) && LosesNothing(c, a)
    ensures Tracks(Apply(c, a), x)
  {
    TakeTracks(c.nodes[a.at], a.now, c.origin.Keys, x, x in c.origin && c.origin[x] == a.at);
  }

  lemma DeliverTracks(c: Cluster, a: Action, x: Uuid)
    requires Sane(c) && Tracks(c, x) && a.Deliver? && Enabled(c, a) && LosesNothing(c, a)
    ensures Tracks(Apply(c, a), x)
  {
    var f := a.flight;
    assert f.wire.id == Some(x) ==> InFlight(c, x);
    ArriveTracks(c.nodes[f.to], f, a.now, a.policy, c.origin.Keys, x, x in c.origin && c.origin[x] == f.to);
  }

  lemma StepTracks(c: Cluster, a: Action, x: Uuid)
    requires Sane(c) && Tracks(c, x) && Enabled(c, a) && LosesNothing(c, a)
    ensures Tracks(Apply(c, a), x)
  {
    match a {
      case Originate(_, _) => OriginateTracks(c, a, x);
      case Take(_, _) => TakeStepTracks(c, a, x);
      case Tick(_, _, _) => TickTracks(c, a, x);
      case Deliver(_, _, _) => DeliverTracks(c, a, x);
      case Lose(_) =>
    }
  }

  /** A run in which no node changes its view and no cache entry is ever expired or evicted. */
  ghost predicate Bounded(c: Cluster, actions: seq<Action>) {
    actions == [] ||
    var before, a := Run(c, actions[..|actions| - 1]), actions[|actions| - 1];
    Bounded(c, actions[..|actions| - 1]) && (Enabled(before, a) ==> LosesNothing(before, a))
  }

  lemma {:induction false} RunKeeps(views: seq<ViewId>, actions: seq<Action>, x: Uuid)
    requires Bounded(Fresh(views), actions)
    ensures Sane(Run(Fresh(views), actions)) && Tracks(Run(Fresh(views), actions), x)
  {
    if actions != [] {
      var earlier, a := actions[..|actions| - 1], actions[|actions| - 1];
      var before := Run(Fresh(views), earlier);
      RunKeeps(views, earlier, x);
      if Enabled(before, a) {
        StepSane(before, a);
        StepTracks(before, a, x);
      }
    }
  }

  /** In every bounded run, every node's actors get an identifier at most once and the
      originator's never, and every node puts it up for sending at most once. */
  lemma DeliveredAtMostOnce(views: seq<ViewId>, actions: seq<Action>, x: Uuid, i: nat)
    requires Bounded(Fresh(views), actions) && i < |Run(Fresh(views), actions).nodes|
    ensures var c := Run(Fresh(views), actions);
            && Count(c.nodes[i].actors, x) <= 1
            && (x in c.origin && c.origin[x] == i ==> Count(c.nodes[i].actors, x) == 0)
            && Copies(c.nodes[i], x) <= 1
  {
    RunKeeps(views, actions, x);
  }
}

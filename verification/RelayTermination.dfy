/** Relaying is finite: bounds on the flights of one identifier and on the length of a run. */
module RelayTermination {
  import opened Basics
  import opened SeenCache
  import opened Messages
  import opened Coalesce
  import opened Lists
  import opened Dispatch
  import opened Inbound
  import opened GossipCluster

  /** `n` times `k`, by repeated addition. */
  function Times(k: nat, n: nat): nat {
    if n == 0 then 0 else k + Times(k, n - 1)
  }

  lemma {:induction false} TimesAdd(k: nat, a: nat, b: nat)
    ensures Times(k, a + b) == Times(k, a) + Times(k, b)
  {
    if a > 0 {
      TimesAdd(k, a - 1, b);
      assert Times(k, a + b) == k + Times(k, a + b - 1);
    }
  }

  lemma {:induction false} TimesMonotone(k: nat, a: nat, b: nat)
    requires a <= b
    ensures Times(k, a) <= Times(k, b)
  {
    TimesAdd(k, a, b - a);
  }

  lemma {:induction false} TimesSum(j: nat, k: nat, n: nat)
    ensures Times(j + k, n) == Times(j, n) + Times(k, n)
  {
    if n > 0 {
      TimesSum(j, k, n - 1);
    }
  }

  lemma {:induction false} TimesOne(n: nat)
    ensures Times(1, n) == n
  {
    if n > 0 {
      TimesOne(n - 1);
    }
  }

  lemma {:induction false} TimesIsProduct(k: nat, n: nat)
    ensures Times(k, n) == k * n
  {
    if n > 0 {
      TimesIsProduct(k, n - 1);
      assert k * n == k + k * (n - 1);
    }
  }

  /** No tick selects more than `window` peers per plane. */
  predicate Windowed(a: Action, window: nat) {
    a.Tick? ==> |a.scoped| <= window && |a.global| <= window
  }

  // ----- Flights of one identifier -----

  function FlightCount(fs: seq<Flight>, x: Uuid): nat {
    if fs == [] then 0 else (if fs[0].wire.id == Some(x) then 1 else 0) + FlightCount(fs[1..], x)
  }

  lemma {:induction false} FlightCountAppend(a: seq<Flight>, b: seq<Flight>, x: Uuid)
    ensures FlightCount(a + b, x) == FlightCount(a, x) + FlightCount(b, x)
  {
    if a == [] {
      assert a + b == b;
    } else {
      assert (a + b)[1..] == a[1..] + b;
      FlightCountAppend(a[1..], b, x);
    }
  }

  function Addressed(to: nat, ms: seq<Message>, view: ViewId): seq<Flight> {
    seq(|ms|, i requires 0 <= i < |ms| => Flight(to, Encode(ms[i], view)))
  }

  lemma {:induction false} AddressedCount(to: nat, ms: seq<Message>, view: ViewId, x: Uuid)
    ensures FlightCount(Addressed(to, ms, view), x) == Count(ms, x)
  {
    if ms != [] {
      AddressedCount(to, ms[1..], view, x);
      assert Addressed(to, ms, view)[1..] == Addressed(to, ms[1..], view);
    }
  }

  lemma {:induction false} FilterCount(ms: seq<Message>, keep: Message -> bool, x: Uuid)
    ensures Count(Filter(ms, keep), x) <= Count(ms, x)
  {
    if ms != [] {
      FilterCount(ms[1..], keep, x);
      var rest := Filter(ms[1..], keep);
      assert ([ms[0]] + rest)[1..] == rest;
      assert [] + rest == rest;
    }
  }

  lemma {:induction false} FlightsBound(targets: seq<nat>, ms: seq<Message>, view: ViewId, x: Uuid)
    ensures FlightCount(Flights(targets, ms, view), x) <= Times(Count(ms, x), |targets|)
    ensures |Flights(targets, ms, view)| <= Times(|ms|, |targets|)
  {
    if targets != [] {
      FlightsBound(targets[1..], ms, view, x);
      var share := Filter(ms, NotAbout(targets[0]));
      FilterCount(ms, NotAbout(targets[0]), x);
      FilterSubset(ms, NotAbout(targets[0]));
      AddressedCount(targets[0], share, view, x);
      assert Flights(targets, ms, view) == Addressed(targets[0], share, view) + Flights(targets[1..], ms, view);
      FlightCountAppend(Addressed(targets[0], share, view), Flights(targets[1..], ms, view), x);
    }
  }

  lemma {:induction false} TimesCommutes(a: nat, b: nat)
    ensures Times(a, b) == Times(b, a)
  {
    TimesIsProduct(a, b);
    TimesIsProduct(b, a);
  }

  lemma FlightsWithin(targets: seq<nat>, ms: seq<Message>, view: ViewId, x: Uuid, window: nat)
    requires |targets| <= window
    ensures FlightCount(Flights(targets, ms, view), x) <= Times(window, Count(ms, x))
    ensures |Flights(targets, ms, view)| <= Times(window, |ms|)
  {
    FlightsBound(targets, ms, view, x);
    TimesMonotone(Count(ms, x), |targets|, window);
    TimesMonotone(|ms|, |targets|, window);
    TimesCommutes(Count(ms, x), window);
    TimesCommutes(|ms|, window);
  }

  lemma {:induction false} PlanesShareTheCount(ms: seq<Message>, x: Uuid)
    ensures Count(Filter(ms, OnPlane(ViewScoped)), x) + Count(Filter(ms, OnPlane(GlobalMetadata)), x) == Count(ms, x)
    ensures |Filter(ms, OnPlane(ViewScoped))| + |Filter(ms, OnPlane(GlobalMetadata))| == |ms|
  {
    if ms != [] {
      PlanesShareTheCount(ms[1..], x);
      var s, g := Filter(ms[1..], OnPlane(ViewScoped)), Filter(ms[1..], OnPlane(GlobalMetadata));
      assert ([ms[0]] + s)[1..] == s && ([ms[0]] + g)[1..] == g && [] + s == s && [] + g == g;
    }
  }

  lemma {:induction false} UpdateCount(ms: seq<Message>, p: nat, m: Message, x: Uuid)
    requires p < |ms|
    ensures Count(ms[p := m], x) <= Count(ms, x) + if m.id == x then 1 else 0
  {
    if p == 0 {
      assert ms[0 := m][1..] == ms[1..];
    } else {
      assert ms[p := m][1..] == ms[1..][p - 1 := m];
      UpdateCount(ms[1..], p - 1, m, x);
    }
  }

  lemma {:induction false} CoalesceCount(out: seq<Message>, pending: seq<Message>, x: Uuid)
    ensures Count(CoalesceInto(out, pending), x) <= Count(out, x) + Count(pending, x)
    decreases |pending|
  {
    if pending != [] {
      var m := pending[0];
      CoalesceCount(Insert(out, m), pending[1..], x);
      CountOne(out, m, x);
      if Repeats(out, m) {
        UpdateCount(out, Find(out, SlotOf(m).value), m, x);
      }
    }
  }

  lemma TimesOfParts(window: nat, a: nat, b: nat, total: nat)
    requires a + b <= total
    ensures Times(window, a) + Times(window, b) <= Times(window, total)
  {
    TimesAdd(window, a, b);
    TimesMonotone(window, a + b, total);
  }

  lemma TwoPlanesWithin(scoped: seq<nat>, global: seq<nat>, s: seq<Message>, g: seq<Message>, view: ViewId, x: Uuid,
                        window: nat, copies: nat, size: nat)
    requires |scoped| <= window && |global| <= window
    requires Count(s, x) + Count(g, x) <= copies && |s| + |g| <= size
    ensures FlightCount(Flights(scoped, s, view) + Flights(global, g, view), x) <= Times(window, copies)
    ensures |Flights(scoped, s, view) + Flights(global, g, view)| <= Times(window, size)
  {
    FlightsWithin(scoped, s, view, x, window);
    FlightsWithin(global, g, view, x, window);
    FlightCountAppend(Flights(scoped, s, view), Flights(global, g, view), x);
    TimesOfParts(window, Count(s, x), Count(g, x), copies);
    TimesOfParts(window, |s|, |g|, size);
  }

  lemma PendingWithin(n: Node, x: Uuid)
    ensures var pending := Coalesced(n.buffer);
            var s, g := Filter(pending, OnPlane(ViewScoped)), Filter(pending, OnPlane(GlobalMetadata));
            Count(s, x) + Count(g, x) <= Count(n.buffer, x) && |s| + |g| <= |n.buffer|
  {
    PlanesShareTheCount(Coalesced(n.buffer), x);
    CoalesceCount([], n.buffer, x);
    CoalesceSubset([], n.buffer);
  }

  /** A tick makes at most `window` flights per buffered copy of an identifier. */
  lemma TickFlightsOfOne(n: Node, scoped: seq<nat>, global: seq<nat>, x: Uuid, window: nat)
    requires |scoped| <= window && |global| <= window
    ensures FlightCount(TickFlights(n, scoped, global), x) <= Times(window, Count(n.buffer, x))
  {
    PendingWithin(n, x);
    var pending := Coalesced(n.buffer);
    TwoPlanesWithin(scoped, global, Filter(pending, OnPlane(ViewScoped)), Filter(pending, OnPlane(GlobalMetadata)), n.view,
                    x, window, Count(n.buffer, x), |n.buffer|);
  }

  /** A tick makes at most `window` flights per buffered message. */
  lemma TickFlightsBound(n: Node, scoped: seq<nat>, global: seq<nat>, window: nat)
    requires |scoped| <= window && |global| <= window
    ensures |TickFlights(n, scoped, global)| <= Times(window, |n.buffer|)
  {
    PendingWithin(n, 0);
    var pending := Coalesced(n.buffer);
    TwoPlanesWithin(scoped, global, Filter(pending, OnPlane(ViewScoped)), Filter(pending, OnPlane(GlobalMetadata)), n.view,
                    0, window, Count(n.buffer, 0), |n.buffer|);
  }

  /** How many nodes have flushed the identifier, counted with repetition. */
  function Flushed(nodes: seq<Node>, x: Uuid): nat {
    if nodes == [] then 0 else Count(nodes[0].handed, x) + Flushed(nodes[1..], x)
  }

  lemma {:induction false} FlushedUpdate(nodes: seq<Node>, i: nat, n: Node, x: Uuid)
    requires i < |nodes|
    ensures Flushed(nodes[i := n], x) + Count(nodes[i].handed, x) == Flushed(nodes, x) + Count(n.handed, x)
  {
    if i == 0 {
      assert nodes[0 := n][1..] == nodes[1..];
    } else {
      assert nodes[i := n][1..] == nodes[1..][i - 1 := n];
      FlushedUpdate(nodes[1..], i - 1, n, x);
    }
  }

  /** At most `window` flights went out per flushed copy. */
  ghost predicate SendsWithin(c: Cluster, x: Uuid, window: nat) {
    FlightCount(c.sent, x) <= Times(window, Flushed(c.nodes, x))
  }

  lemma FlushSendsWithin(c: Cluster, at: nat, flights: seq<Flight>, x: Uuid, window: nat)
    requires at < |c.nodes| && FlightCount(flights, x) <= Times(window, Count(c.nodes[at].buffer, x))
    requires SendsWithin(c, x, window)
    ensures SendsWithin(Flush(c, at, flights), x, window)
  {
    var n := c.nodes[at];
    FlushedUpdate(c.nodes, at, n.(buffer := [], handed := n.handed + n.buffer), x);
    CountAppend(n.handed, n.buffer, x);
    FlightCountAppend(c.sent, flights, x);
    TimesAdd(window, Flushed(c.nodes, x), Count(n.buffer, x));
  }

  lemma TickSendsWithin(c: Cluster, a: Action, x: Uuid, window: nat)
    requires a.Tick? && Enabled(c, a) && Windowed(a, window)
    requires SendsWithin(c, x, window)
    ensures SendsWithin(Apply(c, a), x, window)
  {
    var n := c.nodes[a.at];
    TickFlightsOfOne(n, a.scoped, a.global, x, window);
    FlushSendsWithin(c, a.at, TickFlights(n, a.scoped, a.global), x, window);
  }

  lemma StepSendsWithin(c: Cluster, a: Action, x: Uuid, window: nat)
    requires Enabled(c, a) && Windowed(a, window)
    requires SendsWithin(c, x, window)
    ensures SendsWithin(Apply(c, a), x, window)
  {
    match a {
      case Originate(at, m) => FlushedUpdate(c.nodes, at, Apply(c, a).nodes[at], x);
      case Take(at, now) => FlushedUpdate(c.nodes, at, Apply(c, a).nodes[at], x);
      case Tick(at, scoped, global) =>
        TickSendsWithin(c, a, x, window);
      case Deliver(f, now, policy) => FlushedUpdate(c.nodes, f.to, Apply(c, a).nodes[f.to], x);
      case Lose(_) =>
      case Install(at, _) => FlushedUpdate(c.nodes, at, Apply(c, a).nodes[at], x);
    }
  }

  lemma {:induction false} FlushedInitially(views: seq<ViewId>, x: Uuid)
    ensures Flushed(Fresh(views).nodes, x) == 0
  {
    if views != [] {
      FlushedInitially(views[1..], x);
      assert Fresh(views).nodes[1..] == Fresh(views[1..]).nodes;
    }
  }

  lemma StepKeepsSize(c: Cluster, a: Action)
    requires Enabled(c, a)
    ensures |Apply(c, a).nodes| == |c.nodes|
  {
  }

  lemma {:induction false} RunKeepsSize(views: seq<ViewId>, actions: seq<Action>)
    ensures |Run(Fresh(views), actions).nodes| == |views|
  {
    if actions != [] {
      var before, a := Run(Fresh(views), actions[..|actions| - 1]), actions[|actions| - 1];
      RunKeepsSize(views, actions[..|actions| - 1]);
      if Enabled(before, a) {
        StepKeepsSize(before, a);
      }
    }
  }

  lemma {:induction false} RunSendsWithin(views: seq<ViewId>, actions: seq<Action>, x: Uuid, window: nat)
    requires forall i :: 0 <= i < |actions| ==> Windowed(actions[i], window)
    ensures SendsWithin(Run(Fresh(views), actions), x, window)
  {
    if actions == [] {
      FlushedInitially(views, x);
    } else {
      var earlier, a := actions[..|actions| - 1], actions[|actions| - 1];
      RunSendsWithin(views, earlier, x, window);
      if Enabled(Run(Fresh(views), earlier), a) {
        StepSendsWithin(Run(Fresh(views), earlier), a, x, window);
      }
    }
  }

  lemma {:induction false} FlushedAtMostOnceEach(nodes: seq<Node>, x: Uuid)
    requires forall i :: 0 <= i < |nodes| ==> Copies(nodes[i], x) <= 1
    ensures Flushed(nodes, x) <= |nodes|
  {
    if nodes != [] {
      FlushedAtMostOnceEach(nodes[1..], x);
    }
  }

  /** In every bounded run, one identifier causes at most one fanout window of flights per node. */
  lemma FlightsOfOneIdentifier(views: seq<ViewId>, actions: seq<Action>, x: Uuid, window: nat)
    requires Bounded(Fresh(views), actions)
    requires forall i :: 0 <= i < |actions| ==> Windowed(actions[i], window)
    ensures FlightCount(Run(Fresh(views), actions).sent, x) <= window * |views|
  {
    var c := Run(Fresh(views), actions);
    RunSendsWithin(views, actions, x, window);
    RunKeepsSize(views, actions);
    forall i | 0 <= i < |c.nodes| ensures Copies(c.nodes[i], x) <= 1 {
      DeliveredAtMostOnce(views, actions, x, i);
    }
    FlushedAtMostOnceEach(c.nodes, x);
    TimesMonotone(window, Flushed(c.nodes, x), |views|);
    TimesIsProduct(window, |views|);
  }

  // ----- The windows an identifier is sent to -----

  /** The plane of the first message with the identifier. */
  function PlaneOf(ms: seq<Message>, x: Uuid): Option<Plane> {
    if ms == [] then None
    else if ms[0].id == x then Some(MessagePlane(ms[0]))
    else PlaneOf(ms[1..], x)
  }

  /** How many peers a tick chose for the identifier, if the node has it buffered. */
  function ChosenFor(n: Node, scoped: seq<nat>, global: seq<nat>, x: Uuid): nat {
    match PlaneOf(n.buffer, x)
    case None => 0
    case Some(ViewScoped) => |scoped|
    case Some(GlobalMetadata) => |global|
  }

  lemma {:induction false} PlaneIs(ms: seq<Message>, x: Uuid, m: Message)
    requires Count(ms, x) <= 1 && m in ms && m.id == x
    ensures PlaneOf(ms, x) == Some(MessagePlane(m))
  {
    CountPositive(ms[1..], x);
    if ms[0].id != x {
      PlaneIs(ms[1..], x, m);
    }
  }

  lemma {:induction false} FilterKeeps(ms: seq<Message>, keep: Message -> bool)
    ensures forall m :: m in Filter(ms, keep) ==> keep(m)
  {
    if ms != [] {
      FilterKeeps(ms[1..], keep);
    }
  }

  /** One copy in the buffer goes out on its own plane only. */
  lemma NoneOnOtherPlane(n: Node, x: Uuid, plane: Plane)
    requires Count(n.buffer, x) <= 1 && PlaneOf(n.buffer, x) != Some(plane)
    ensures Count(Filter(Coalesced(n.buffer), OnPlane(plane)), x) == 0
  {
    var pending := Coalesced(n.buffer);
    var share := Filter(pending, OnPlane(plane));
    CountPositive(share, x);
    if Count(share, x) > 0 {
      var m :| m in share && m.id == x;
      FilterKeeps(pending, OnPlane(plane));
      FilterSubset(pending, OnPlane(plane));
      CoalesceSubset([], n.buffer);
      PlaneIs(n.buffer, x, m);
    }
  }

  lemma CopiesOnPlane(n: Node, x: Uuid, plane: Plane)
    requires Count(n.buffer, x) <= 1
    ensures Count(Filter(Coalesced(n.buffer), OnPlane(plane)), x) <= if PlaneOf(n.buffer, x) == Some(plane) then 1 else 0
  {
    CoalesceCount([], n.buffer, x);
    FilterCount(Coalesced(n.buffer), OnPlane(plane), x);
    if PlaneOf(n.buffer, x) != Some(plane) {
      NoneOnOtherPlane(n, x, plane);
    }
  }

  lemma FlightsOfFew(targets: seq<nat>, ms: seq<Message>, view: ViewId, x: Uuid, copies: nat)
    requires Count(ms, x) <= copies <= 1
    ensures FlightCount(Flights(targets, ms, view), x) <= if copies == 1 then |targets| else 0
  {
    FlightsBound(targets, ms, view, x);
    TimesOne(|targets|);
    TimesZero(|targets|);
  }

  lemma PlaneFlights(targets: seq<nat>, n: Node, x: Uuid, plane: Plane)
    requires Count(n.buffer, x) <= 1
    ensures FlightCount(Flights(targets, Filter(Coalesced(n.buffer), OnPlane(plane)), n.view), x)
            <= if PlaneOf(n.buffer, x) == Some(plane) then |targets| else 0
  {
    CopiesOnPlane(n, x, plane);
    FlightsOfFew(targets, Filter(Coalesced(n.buffer), OnPlane(plane)), n.view, x,
                 if PlaneOf(n.buffer, x) == Some(plane) then 1 else 0);
  }

  lemma {:induction false} TimesZero(n: nat)
    ensures Times(0, n) == 0
  {
    if n > 0 {
      TimesZero(n - 1);
    }
  }

  lemma TickFlightsChosen(n: Node, scoped: seq<nat>, global: seq<nat>, x: Uuid)
    requires Count(n.buffer, x) <= 1
    ensures FlightCount(TickFlights(n, scoped, global), x) <= ChosenFor(n, scoped, global, x)
  {
    PlaneFlights(scoped, n, x, ViewScoped);
    PlaneFlights(global, n, x, GlobalMetadata);
    var pending := Coalesced(n.buffer);
    FlightCountAppend(Flights(scoped, Filter(pending, OnPlane(ViewScoped)), n.view),
                      Flights(global, Filter(pending, OnPlane(GlobalMetadata)), n.view), x);
  }

  /** The windows chosen by the ticks of a run for the identifier, added up. */
  function WindowsChosen(c: Cluster, actions: seq<Action>, x: Uuid): nat {
    if actions == [] then 0
    else
      var before, a := Run(c, actions[..|actions| - 1]), actions[|actions| - 1];
      WindowsChosen(c, actions[..|actions| - 1], x)
      + if a.Tick? && Enabled(before, a) then ChosenFor(before.nodes[a.at], a.scoped, a.global, x) else 0
  }

  /** A tick sends at most its window; no other step sends anything. */
  lemma StepSends(c: Cluster, a: Action, x: Uuid)
    requires Tracks(c, x) && Enabled(c, a)
    ensures FlightCount(Apply(c, a).sent, x) <=
              FlightCount(c.sent, x) + if a.Tick? then ChosenFor(c.nodes[a.at], a.scoped, a.global, x) else 0
  {
    if a.Tick? {
      var n := c.nodes[a.at];
      TickFlightsChosen(n, a.scoped, a.global, x);
      FlightCountAppend(c.sent, TickFlights(n, a.scoped, a.global), x);
    }
  }

  /** In every run that loses no cache entry, an identifier is sent no more often than there are
      peers in the windows chosen by the ticks that flushed it. */
  lemma {:induction false} SendsWithinChosenWindows(views: seq<ViewId>, actions: seq<Action>, x: Uuid)
    requires Bounded(Fresh(views), actions)
    ensures FlightCount(Run(Fresh(views), actions).sent, x) <= WindowsChosen(Fresh(views), actions, x)
  {
    if actions != [] {
      var earlier, a := actions[..|actions| - 1], actions[|actions| - 1];
      SendsWithinChosenWindows(views, earlier, x);
      RunKeeps(views, earlier, x);
      if Enabled(Run(Fresh(views), earlier), a) {
        StepSends(Run(Fresh(views), earlier), a, x);
      }
    }
  }

  // ----- The run is finite -----

  /** What a node can still cause: identifiers it has not seen, messages waiting, messages
      buffered. */
  function Weight(n: Node, window: nat, ids: nat): int {
    Times(window + 2, ids) - Times(window + 2, |n.dedupe.order|)
    + Times(window + 2, |n.queue|) + Times(window + 1, |n.buffer|)
  }

  function TotalWeight(nodes: seq<Node>, window: nat, ids: nat): int {
    if nodes == [] then 0 else Weight(nodes[0], window, ids) + TotalWeight(nodes[1..], window, ids)
  }

  function Measure(c: Cluster, window: nat): int {
    TotalWeight(c.nodes, window, |c.origin.Keys|) + |c.wires|
  }

  lemma {:induction false} WeightUpdate(nodes: seq<Node>, i: nat, n: Node, window: nat, ids: nat)
    requires i < |nodes|
    ensures TotalWeight(nodes[i := n], window, ids)
            == TotalWeight(nodes, window, ids) - Weight(nodes[i], window, ids) + Weight(n, window, ids)
  {
    if i == 0 {
      assert nodes[0 := n][1..] == nodes[1..];
    } else {
      assert nodes[i := n][1..] == nodes[1..][i - 1 := n];
      WeightUpdate(nodes[1..], i - 1, n, window, ids);
    }
  }

  lemma {:induction false} OneMoreIdentifier(nodes: seq<Node>, window: nat, ids: nat)
    ensures TotalWeight(nodes, window, ids + 1) == TotalWeight(nodes, window, ids) + Times(window + 2, |nodes|)
  {
    if nodes != [] {
      OneMoreIdentifier(nodes[1..], window, ids);
    }
  }

  lemma {:induction false} WeightIsNonnegative(nodes: seq<Node>, window: nat, known: set<Uuid>)
    requires forall i :: 0 <= i < |nodes| ==> NodeSane(nodes[i], known)
    ensures TotalWeight(nodes, window, |known|) >= 0
  {
    if nodes != [] {
      WeightIsNonnegative(nodes[1..], window, known);
      DistinctSize(nodes[0].dedupe.order);
      SubsetSize(Ids(nodes[0].dedupe.order), known);
      TimesMonotone(window + 2, |nodes[0].dedupe.order|, |known|);
    }
  }

  lemma TakeLessens(n: Node, now: nat, known: set<Uuid>, window: nat)
    requires NodeSane(n, known) && n.queue != [] && Lossless(n.dedupe.order, Call(n.queue[0].id, now))
    ensures Weight(TakeOne(n, now), window, |known|) <= Weight(n, window, |known|) - 1
  {
    TakeSane(n, now, known);
    TimesMonotone(window + 2, |n.dedupe.order|, |TakeOne(n, now).dedupe.order|);
  }

  lemma ArriveAddsNothing(n: Node, f: Flight, now: nat, policy: Policy, known: set<Uuid>, window: nat)
    requires NodeSane(n, known) && FlightSane(f, known) && ArrivesLossless(n, f.wire, now)
    ensures Weight(Arrive(n, f.wire, now, policy), window, |known|) <= Weight(n, window, |known|)
  {
    ArriveSane(n, f, now, policy, known);
  }

  lemma FlushLessens(n: Node, scoped: seq<nat>, global: seq<nat>, window: nat, ids: nat)
    requires n.buffer != [] && |scoped| <= window && |global| <= window
    ensures Weight(n.(buffer := [], handed := n.handed + n.buffer), window, ids)
            + |TickFlights(n, scoped, global)| <= Weight(n, window, ids) - 1
  {
    TickFlightsBound(n, scoped, global, window);
    TimesSum(window, 1, |n.buffer|);
    TimesOne(|n.buffer|);
  }

  lemma EnqueueWeight(n: Node, m: Message, window: nat, ids: nat)
    ensures Weight(n.(queue := n.queue + [m]), window, ids) == Weight(n, window, ids) + window + 2
  {
  }

  lemma OriginationRaises(c: Cluster, a: Action, window: nat)
    requires a.Originate? && Enabled(c, a)
    ensures Measure(Apply(c, a), window) == Measure(c, window) + Times(window + 2, |c.nodes| + 1)
  {
    var n := c.nodes[a.at].(queue := c.nodes[a.at].queue + [a.message]);
    assert Apply(c, a).origin.Keys == c.origin.Keys + {a.message.id};
    EnqueueWeight(c.nodes[a.at], a.message, window, |c.origin.Keys|);
    WeightUpdate(c.nodes, a.at, n, window, |c.origin.Keys|);
    OneMoreIdentifier(c.nodes[a.at := n], window, |c.origin.Keys|);
  }

  lemma TickLessens(c: Cluster, a: Action, window: nat)
    requires a.Tick? && Enabled(c, a) && Windowed(a, window)
    ensures Measure(Apply(c, a), window) <= Measure(c, window) - 1
  {
    var n := c.nodes[a.at];
    FlushLessens(n, a.scoped, a.global, window, |c.origin.Keys|);
    WeightUpdate(c.nodes, a.at, n.(buffer := [], handed := n.handed + n.buffer), window, |c.origin.Keys|);
  }

  lemma TakeStepLessens(c: Cluster, a: Action, window: nat)
    requires Sane(c) && a.Take? && Enabled(c, a) && LosesNothing(c, a)
    ensures Measure(Apply(c, a), window) <= Measure(c, window) - 1
  {
    TakeLessens(c.nodes[a.at], a.now, c.origin.Keys, window);
    WeightUpdate(c.nodes, a.at, TakeOne(c.nodes[a.at], a.now), window, |c.origin.Keys|);
  }

  lemma DeliverLessens(c: Cluster, a: Action, window: nat)
    requires Sane(c) && a.Deliver? && Enabled(c, a) && LosesNothing(c, a)
    ensures Measure(Apply(c, a), window) <= Measure(c, window) - 1
  {
    var f := a.flight;
    ArriveAddsNothing(c.nodes[f.to], f, a.now, a.policy, c.origin.Keys, window);
    WeightUpdate(c.nodes, f.to, Arrive(c.nodes[f.to], f.wire, a.now, a.policy), window, |c.origin.Keys|);
  }

  /** Every step except an origination makes the measure smaller; an origination raises it by a
      fixed amount. */
  lemma StepLessens(c: Cluster, a: Action, window: nat)
    requires Sane(c) && Enabled(c, a) && LosesNothing(c, a) && Windowed(a, window)
    ensures !a.Originate? ==> Measure(Apply(c, a), window) <= Measure(c, window) - 1
    ensures a.Originate? ==> Measure(Apply(c, a), window) == Measure(c, window) + Times(window + 2, |c.nodes| + 1)
  {
    match a {
      case Originate(_, _) => OriginationRaises(c, a, window);
      case Take(_, _) => TakeStepLessens(c, a, window);
      case Tick(_, _, _) => TickLessens(c, a, window);
      case Deliver(_, _, _) => DeliverLessens(c, a, window);
      case Lose(_) =>
    }
  }

  /** One for a step that changes something, unless it is an origination. */
  function Cost(c: Cluster, a: Action): nat {
    if Enabled(c, a) && !a.Originate? then 1 else 0
  }

  /** The steps of a run that change something, originations apart. */
  function Effective(c: Cluster, actions: seq<Action>): nat {
    if actions == [] then 0
    else
      Effective(c, actions[..|actions| - 1])
      + Cost(Run(c, actions[..|actions| - 1]), actions[|actions| - 1])
  }

  function Originations(actions: seq<Action>): nat {
    if actions == [] then 0
    else Originations(actions[..|actions| - 1]) + if actions[|actions| - 1].Originate? then 1 else 0
  }

  lemma {:induction false} InitialMeasure(views: seq<ViewId>, window: nat)
    ensures TotalWeight(Fresh(views).nodes, window, 0) == 0
  {
    if views != [] {
      InitialMeasure(views[1..], window);
      assert Fresh(views).nodes[1..] == Fresh(views[1..]).nodes;
    }
  }

  /** What one step may add to the measure. */
  function Allowance(a: Action, window: nat, nodes: nat): nat {
    if a.Originate? then Times(window + 2, nodes + 1) else 0
  }

  lemma StepWithinAllowance(c: Cluster, a: Action, window: nat)
    requires Sane(c) && (Enabled(c, a) ==> LosesNothing(c, a)) && Windowed(a, window)
    ensures var after := if Enabled(c, a) then Apply(c, a) else c;
            Measure(after, window) + Cost(c, a) <= Measure(c, window) + Allowance(a, window, |c.nodes|)
  {
    if Enabled(c, a) {
      StepLessens(c, a, window);
    }
  }

  lemma LastStepWithinAllowance(views: seq<ViewId>, actions: seq<Action>, window: nat)
    requires Bounded(Fresh(views), actions) && actions != []
    requires forall i :: 0 <= i < |actions| ==> Windowed(actions[i], window)
    ensures var before, a := Run(Fresh(views), actions[..|actions| - 1]), actions[|actions| - 1];
            Measure(Run(Fresh(views), actions), window) + Cost(before, a)
            <= Measure(before, window) + Allowance(a, window, |views|)
  {
    var earlier := actions[..|actions| - 1];
    RunKeeps(views, earlier, 0);
    RunKeepsSize(views, earlier);
    StepWithinAllowance(Run(Fresh(views), earlier), actions[|actions| - 1], window);
  }

  /** What the originations of a run allow, less what its steps cost. */
  function Account(c: Cluster, actions: seq<Action>, window: nat, nodes: nat): int {
    if actions == [] then 0
    else
      Account(c, actions[..|actions| - 1], window, nodes) + Allowance(actions[|actions| - 1], window, nodes)
      - Cost(Run(c, actions[..|actions| - 1]), actions[|actions| - 1])
  }

  lemma {:induction false} AccountIsExact(c: Cluster, actions: seq<Action>, window: nat, nodes: nat)
    ensures Account(c, actions, window, nodes) + Effective(c, actions)
            == Times(Times(window + 2, nodes + 1), Originations(actions))
  {
    if actions != [] {
      AccountIsExact(c, actions[..|actions| - 1], window, nodes);
    }
  }

  lemma {:induction false} MeasureWithinAccount(views: seq<ViewId>, actions: seq<Action>, window: nat)
    requires Bounded(Fresh(views), actions)
    requires forall i :: 0 <= i < |actions| ==> Windowed(actions[i], window)
    ensures Measure(Run(Fresh(views), actions), window) <= Account(Fresh(views), actions, window, |views|)
  {
    if actions == [] {
      InitialMeasure(views, window);
    } else {
      MeasureWithinAccount(views, actions[..|actions| - 1], window);
      LastStepWithinAllowance(views, actions, window);
    }
  }

  lemma MeasureIsNonnegative(views: seq<ViewId>, actions: seq<Action>, window: nat)
    requires Bounded(Fresh(views), actions)
    ensures Measure(Run(Fresh(views), actions), window) >= 0
  {
    RunKeeps(views, actions, 0);
    var c := Run(Fresh(views), actions);
    WeightIsNonnegative(c.nodes, window, c.origin.Keys);
  }

  lemma EffectiveAtMost(views: seq<ViewId>, actions: seq<Action>, window: nat)
    requires Bounded(Fresh(views), actions)
    requires forall i :: 0 <= i < |actions| ==> Windowed(actions[i], window)
    ensures Effective(Fresh(views), actions) <= Times(Times(window + 2, |views| + 1), Originations(actions))
  {
    MeasureIsNonnegative(views, actions, window);
    MeasureWithinAccount(views, actions, window);
    AccountIsExact(Fresh(views), actions, window, |views|);
  }

  lemma ProductOfThree(a: nat, b: nat, c: nat)
    ensures Times(Times(a, b), c) == a * b * c
  {
    TimesIsProduct(a, b);
    TimesIsProduct(Times(a, b), c);
  }

  lemma AtMostProduct(n: nat, a: nat, b: nat, c: nat)
    requires n <= Times(Times(a, b), c)
    ensures n <= a * b * c
  {
    ProductOfThree(a, b, c);
  }

  /** Relaying terminates: a bounded run takes at most (window + 2) * (nodes + 1) effective steps
      per originated message, however the steps interleave. */
  lemma RelayTerminates(views: seq<ViewId>, actions: seq<Action>, window: nat)
    requires Bounded(Fresh(views), actions)
    requires forall i :: 0 <= i < |actions| ==> Windowed(actions[i], window)
    ensures Effective(Fresh(views), actions) <= (window + 2) * (|views| + 1) * Originations(actions)
  {
    EffectiveAtMost(views, actions, window);
    AtMostProduct(Effective(Fresh(views), actions), window + 2, |views| + 1, Originations(actions));
  }
}

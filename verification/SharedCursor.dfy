/** The two planes of a tick share one fanout cursor (src/gossip/outbound.rs). This module says when
    that sharing still lets each plane reach every peer: when the warm lists are small, and for a
    context that keeps the default methods, which give both planes the same list
    (src/gossip/context.rs). */
module SharedCursor {
  import opened Basics
  import opened Messages
  import opened Sorting
  import opened Fanout
  import opened Dispatch
  import opened OutboundWorker

  datatype Picks = Picks(scoped: seq<Peer>, global: seq<Peer>)

  /** All that the two planes choose over ticks in which both have something to send. */
  function PicksOf(ticks: seq<Peers>, fanout: Option<nat>, cursor: nat): Picks {
    if ticks == [] then Picks([], [])
    else
      var s := ChoosePeers(ViewScoped, ticks[0], fanout, cursor);
      var g := ChoosePeers(GlobalMetadata, ticks[0], fanout, s.cursor);
      var rest := PicksOf(ticks[1..], fanout, g.cursor);
      Picks(s.peers + rest.scoped, g.peers + rest.global)
  }

  /** One busy tick: what each plane has to send, and the peers on offer. */
  datatype Busy = Busy(scoped: seq<Message>, global: seq<Message>, peers: Peers)

  datatype Logs = Logs(scoped: seq<Rpc>, global: seq<Rpc>)

  /** What the worker sends over such ticks: each dispatch starts from the cursor the one before left. */
  function LogsOf(ticks: seq<Busy>, limits: Limits, cursor: nat, results: Results): Logs
    requires limits.dispatchMax > 0 && limits.rpcMax > 0
  {
    if ticks == [] then Logs([], [])
    else
      var t := ticks[0];
      var s := DispatchOn(ViewScoped, t.scoped, t.peers, limits, cursor, results);
      var g := DispatchOn(GlobalMetadata, t.global, t.peers, limits, s.cursor, results);
      var rest := LogsOf(ticks[1..], limits, g.cursor, results);
      Logs(s.rpcs + rest.scoped, g.rpcs + rest.global)
  }

  function PeersOf(ticks: seq<Busy>): seq<Peers> {
    seq(|ticks|, i requires 0 <= i < |ticks| => ticks[i].peers)
  }

  lemma SelectedAppend(a: seq<Peer>, b: seq<Peer>, id: Uuid)
    ensures Selected(a + b, id) <==> Selected(a, id) || Selected(b, id)
  {
    if Selected(a, id) {
      var i :| 0 <= i < |a| && a[i].id == id;
      assert (a + b)[i].id == id;
    }
    if Selected(b, id) {
      var i :| 0 <= i < |b| && b[i].id == id;
      assert (a + b)[|a| + i].id == id;
    }
  }

  lemma DispatchReaches(plane: Plane, pending: seq<Message>, peers: Peers, limits: Limits, cursor: nat, results: Results,
                        id: Uuid)
    requires limits.dispatchMax > 0 && limits.rpcMax > 0 && ForAll(pending)
    requires forall p: Plane, b: nat, c: nat :: results(p, id, b, c) == Delivered
    ensures var chosen := ChoosePeers(plane, peers, limits.fanout, cursor);
            var sent := DispatchOn(plane, pending, peers, limits, cursor, results);
            && sent.cursor == chosen.cursor
            && (Reached(sent.rpcs, id) <==> Selected(chosen.peers, id) && id != limits.selfId)
  {
    var chosen := ChoosePeers(plane, peers, limits.fanout, cursor);
    PlaneReaches(Chunks(pending, limits.dispatchMax), chosen.peers, limits.selfId, limits.rpcMax,
                 PlaneResults(results, plane), 0, id);
  }

  /** Over any busy ticks with no send failure, the peers that get something on a plane are exactly the
      ones picked for it, other than the local node. */
  lemma {:induction false} TicksSendToPicks(ticks: seq<Busy>, limits: Limits, cursor: nat, results: Results, id: Uuid)
    requires limits.dispatchMax > 0 && limits.rpcMax > 0
    requires forall i :: 0 <= i < |ticks| ==> ForAll(ticks[i].scoped) && ForAll(ticks[i].global)
    requires forall p: Plane, b: nat, c: nat :: results(p, id, b, c) == Delivered
    ensures var logs, picks := LogsOf(ticks, limits, cursor, results), PicksOf(PeersOf(ticks), limits.fanout, cursor);
            && (Reached(logs.scoped, id) <==> Selected(picks.scoped, id) && id != limits.selfId)
            && (Reached(logs.global, id) <==> Selected(picks.global, id) && id != limits.selfId)
    decreases |ticks|
  {
    if ticks != [] {
      var t := ticks[0];
      var s := ChoosePeers(ViewScoped, t.peers, limits.fanout, cursor);
      var g := ChoosePeers(GlobalMetadata, t.peers, limits.fanout, s.cursor);
      DispatchReaches(ViewScoped, t.scoped, t.peers, limits, cursor, results, id);
      DispatchReaches(GlobalMetadata, t.global, t.peers, limits, s.cursor, results, id);
      assert PeersOf(ticks)[1..] == PeersOf(ticks[1..]);
      TicksSendToPicks(ticks[1..], limits, g.cursor, results, id);
      var logs, picks := LogsOf(ticks[1..], limits, g.cursor, results), PicksOf(PeersOf(ticks[1..]), limits.fanout, g.cursor);
      ReachedAppend(DispatchOn(ViewScoped, t.scoped, t.peers, limits, cursor, results).rpcs, logs.scoped, id);
      ReachedAppend(DispatchOn(GlobalMetadata, t.global, t.peers, limits, s.cursor, results).rpcs, logs.global, id);
      SelectedAppend(s.peers, picks.scoped, id);
      SelectedAppend(g.peers, picks.global, id);
    }
  }

  // ----- A small warm set resets the cursor -----

  lemma {:induction false} WalkFromZero(ring: seq<Peer>, start: nat, length: nat)
    requires start + length <= |ring| && start < |ring|
    ensures Walk(ring, start, length) == ring[start..start + length]
    decreases length
  {
    if length > 1 {
      WalkFromZero(ring, start + 1, length - 1);
    }
  }

  lemma ZeroModulo(n: nat)
    requires n > 0
    ensures 0 % n == 0
  {
    QuotientUnique(0, n, 0, 0);
  }

  /** After a reset the window is the first peers by identifier. */
  lemma FirstWindow(listing: seq<Peer>, population: seq<Peer>, fanout: nat)
    requires DistinctPeers(population) && multiset(listing) == multiset(population) && fanout > 0
    ensures |ById(population)| == |population|
    ensures Select(listing, fanout, 0).peers
            == ById(population)[..if fanout >= |population| then |population| else fanout]
  {
    SortKeepsSize(population);
    DistinctPeersIdentified(population);
    SortIgnoresInputOrder(population, listing, PeerKey);
    if fanout < |population| {
      ZeroModulo(|population|);
      WalkFromZero(ById(population), 0, fanout);
    }
  }

  ghost predicate SmallWarmSets(ticks: seq<Peers>, population: seq<Peer>, fanout: nat) {
    forall i :: 0 <= i < |ticks| ==> |ticks[i].warm| <= fanout && multiset(ticks[i].unscoped) == multiset(population)
  }

  /** When no warm set is larger than the fanout, every tick sends global messages to the same first
      peers by identifier. */
  lemma {:induction false} ResetRepeats(ticks: seq<Peers>, population: seq<Peer>, fanout: nat, cursor: nat, p: Peer)
    requires DistinctPeers(population) && fanout > 0 && SmallWarmSets(ticks, population, fanout) && ticks != []
    ensures |ById(population)| == |population|
    ensures p in PicksOf(ticks, Some(fanout), cursor).global <==>
              p in ById(population)[..if fanout >= |population| then |population| else fanout]
    decreases |ticks|
  {
    var t := ticks[0];
    SortKeepsSize(t.warm);
    var g := ChoosePeers(GlobalMetadata, t, Some(fanout), 0);
    assert ChoosePeers(ViewScoped, t, Some(fanout), cursor).cursor == 0;
    FirstWindow(t.unscoped, population, fanout);
    if ticks[1..] != [] {
      ResetRepeats(ticks[1..], population, fanout, g.cursor, p);
    }
  }

  /** So the global plane reaches everyone if and only if the fanout does in one tick. */
  lemma ResetCoversIff(ticks: seq<Peers>, population: seq<Peer>, fanout: nat, cursor: nat)
    requires DistinctPeers(population) && fanout > 0 && SmallWarmSets(ticks, population, fanout) && ticks != []
    ensures (forall p :: p in population ==> p in PicksOf(ticks, Some(fanout), cursor).global)
            <==> fanout >= |population|
  {
    var ring := ById(population);
    SortKeepsSize(population);
    RingIsDistinct(population);
    SortByKeyCorrect(population, PeerKey);
    if fanout >= |population| {
      forall p | p in population ensures p in PicksOf(ticks, Some(fanout), cursor).global {
        ResetRepeats(ticks, population, fanout, cursor, p);
        assert ring[..|population|] == ring;
      }
    } else {
      var p := ring[fanout];
      ResetRepeats(ticks, population, fanout, cursor, p);
      assert p in multiset(ring);
      assert p in population && p !in ring[..fanout];
    }
  }

  // ----- A context with the default methods: both planes rotate over the same peers -----

  /** The second window of the turn reads a position at distance `d`, of `u`. */
  predicate Turn(d: nat, n: nat, u: nat) {
    n <= d < 2 * n || d + u < 2 * n
  }

  /** The distance one turn later, after two windows. */
  function Later(d: nat, n: nat, u: nat): (r: nat)
    requires 0 < n < u && d < u
    ensures r < u
  {
    if d >= 2 * n then d - 2 * n
    else if d + u >= 2 * n then d + u - 2 * n
    else d + 2 * u - 2 * n
  }

  predicate TurnWithin(d: nat, n: nat, u: nat, k: nat)
    requires 0 < n < u && d < u
    decreases k
  {
    k > 0 && (Turn(d, n, u) || TurnWithin(Later(d, n, u), n, u, k - 1))
  }

  lemma {:induction false} LeftoverAdd(a: nat, b: nat, m: nat)
    requires a < m
    ensures Leftover(a + b, m) == if a + Leftover(b, m) < m then a + Leftover(b, m) else a + Leftover(b, m) - m
    decreases b
  {
    if b >= m {
      LeftoverAdd(a, b - m, m);
    }
  }

  /** How far a lap that starts `e` into a turn is from the second window. */
  function Lap(e: nat, n: nat, r: nat): nat
    requires e < 2 * n
  {
    if r <= n then 2 * n - e else if e >= n then 0 else e + 1
  }

  /** Unless the ring holds a whole number of turns, every position is read in some turn. */
  lemma {:induction false} EveryTurnComes(d: nat, n: nat, u: nat) returns (k: nat)
    requires 0 < n < u && d < u && Leftover(u, 2 * n) != 0
    ensures TurnWithin(d, n, u, k)
    decreases Lap(Leftover(d, 2 * n), n, Leftover(u, 2 * n)), d
  {
    if Turn(d, n, u) {
      k := 1;
    } else {
      if d < 2 * n {
        LeftoverAdd(d, u, 2 * n);
      }
      var rest := EveryTurnComes(Later(d, n, u), n, u);
      k := rest + 1;
    }
  }

  /** If it does, a position in the first half of a turn never is. */
  lemma {:induction false} TurnNeverComes(d: nat, n: nat, u: nat, k: nat)
    requires 0 < n < u && d < u && Leftover(u, 2 * n) == 0 && Leftover(d, 2 * n) < n
    ensures !TurnWithin(d, n, u, k)
    decreases k
  {
    if k > 0 {
      if d < 2 * n {
        LeftoverAdd(d, u, 2 * n);
      }
      TurnNeverComes(Later(d, n, u), n, u, k - 1);
    }
  }

  /** The first and the second window of `k` turns on a ring. */
  function FirstWindows(ring: seq<Peer>, start: nat, n: nat, k: nat): seq<Peer>
    requires start < |ring|
    decreases k
  {
    if k == 0 then []
    else
      var mid := Advance(start, n, |ring|);
      Walk(ring, start, n) + FirstWindows(ring, Advance(mid, n, |ring|), n, k - 1)
  }

  function SecondWindows(ring: seq<Peer>, start: nat, n: nat, k: nat): seq<Peer>
    requires start < |ring|
    decreases k
  {
    if k == 0 then []
    else
      var mid := Advance(start, n, |ring|);
      Walk(ring, mid, n) + SecondWindows(ring, Advance(mid, n, |ring|), n, k - 1)
  }

  /** The first windows are one window and then the second windows of the turns that start after it. */
  lemma {:induction false} FirstAreShiftedSecond(ring: seq<Peer>, start: nat, n: nat, k: nat)
    requires start < |ring|
    ensures FirstWindows(ring, start, n, k + 1)
            == Walk(ring, start, n) + SecondWindows(ring, Advance(start, n, |ring|), n, k)
    decreases k
  {
    if k > 0 {
      FirstAreShiftedSecond(ring, Advance(Advance(start, n, |ring|), n, |ring|), n, k - 1);
    }
  }

  lemma {:induction false} InWindowIff(ring: seq<Peer>, start: nat, j: nat, length: nat)
    requires DistinctPeers(ring) && start < |ring| && j < |ring| && length <= |ring|
    ensures ring[j] in Walk(ring, start, length) <==> Distance(start, j, |ring|) < length
    decreases length
  {
    if length > 0 {
      InWindowIff(ring, Next(start, |ring|), j, length - 1);
      assert j != start ==> ring[j] != ring[start];
    }
  }

  lemma {:induction false} AdvanceDistance(start: nat, length: nat, j: nat, u: nat)
    requires start < u && j < u && length <= u
    ensures var d := Distance(start, j, u);
            Distance(Advance(start, length, u), j, u) == if d >= length then d - length else d + u - length
    decreases length
  {
    if length > 0 {
      AdvanceDistance(Next(start, u), length - 1, j, u);
    }
  }

  /** A position is read by the second windows exactly when its turn comes. */
  lemma {:induction false} ReadIff(ring: seq<Peer>, start: nat, n: nat, k: nat, j: nat)
    requires DistinctPeers(ring) && start < |ring| && j < |ring| && 0 < n < |ring|
    ensures ring[j] in SecondWindows(ring, start, n, k) <==> TurnWithin(Distance(start, j, |ring|), n, |ring|, k)
    decreases k
  {
    if k > 0 {
      var u := |ring|;
      var mid := Advance(start, n, u);
      AdvanceDistance(start, n, j, u);
      InWindowIff(ring, mid, j, n);
      AdvanceDistance(mid, n, j, u);
      ReadIff(ring, Advance(mid, n, u), n, k - 1, j);
    }
  }

  /** From the cursor, the plane comes to the peer after some number of ticks. */
  ghost predicate GlobalReaches(population: seq<Peer>, n: nat, cursor: nat, p: Peer)
    requires |ById(population)| == |population| > 0
  {
    exists k :: p in SecondWindows(ById(population), cursor % |population|, n, k)
  }

  ghost predicate ScopedReaches(population: seq<Peer>, n: nat, cursor: nat, p: Peer)
    requires |ById(population)| == |population| > 0
  {
    exists k :: p in FirstWindows(ById(population), cursor % |population|, n, k)
  }

  ghost predicate SamePopulation(ticks: seq<Peers>, population: seq<Peer>) {
    forall i :: 0 <= i < |ticks| ==>
      multiset(ticks[i].warm) == multiset(population) && multiset(ticks[i].unscoped) == multiset(population)
  }

  /** When both planes choose among the same peers, however listed, the view-scoped plane gets the
      first windows and the global plane the second. */
  lemma {:induction false} TicksAreTurns(ticks: seq<Peers>, population: seq<Peer>, n: nat, cursor: nat)
    requires DistinctPeers(population) && 0 < n < |population| && SamePopulation(ticks, population)
    ensures |ById(population)| == |population|
    ensures PicksOf(ticks, Some(n), cursor).scoped
            == FirstWindows(ById(population), cursor % |population|, n, |ticks|)
    ensures PicksOf(ticks, Some(n), cursor).global
            == SecondWindows(ById(population), cursor % |population|, n, |ticks|)
    decreases |ticks|
  {
    SortKeepsSize(population);
    if ticks != [] {
      var u := |population|;
      var mid := Advance(cursor % u, n, u);
      var end := Advance(mid, n, u);
      SelectionIsAWalk(ticks[0].warm, population, n, cursor);
      SelectionIsAWalk(ticks[0].unscoped, population, n, mid);
      QuotientUnique(mid, u, 0, mid);
      QuotientUnique(end, u, 0, end);
      TicksAreTurns(ticks[1..], population, n, end);
    }
  }

  lemma LeftoverIsModulo(u: nat, m: nat)
    requires m > 0
    ensures Leftover(u, m) == u % m
  {
    RoundsIsQuotient(u, m);
    QuotientUnique(u, m, Rounds(u, m), Leftover(u, m));
  }

  lemma ReachedOnBothPlanes(population: seq<Peer>, n: nat, cursor: nat, p: Peer)
    requires DistinctPeers(population) && 0 < n < |population| == |ById(population)| && p in population
    requires Leftover(|population|, 2 * n) != 0
    ensures GlobalReaches(population, n, cursor, p) && ScopedReaches(population, n, cursor, p)
  {
    var ring, u := ById(population), |population|;
    var start := cursor % u;
    RingIsDistinct(population);
    var j :| 0 <= j < u && ring[j] == p;
    var k := EveryTurnComes(Distance(start, j, u), n, u);
    ReadIff(ring, start, n, k, j);
    var mid := Advance(start, n, u);
    var l := EveryTurnComes(Distance(mid, j, u), n, u);
    ReadIff(ring, mid, n, l, j);
    FirstAreShiftedSecond(ring, start, n, l);
    assert p in FirstWindows(ring, start, n, l + 1);
  }

  /** On a ring of whole turns, read from its start, the global plane never gets to the first peer and
      the view-scoped plane never to the first of the second window. */
  lemma StarvedPeers(ring: seq<Peer>, n: nat, k: nat)
    requires DistinctPeers(ring) && 0 < n < |ring| && Leftover(|ring|, 2 * n) == 0
    ensures ring[0] !in SecondWindows(ring, 0, n, k) && ring[n] !in FirstWindows(ring, 0, n, k)
  {
    var u := |ring|;
    TurnNeverComes(0, n, u, k);
    ReadIff(ring, 0, n, k, 0);
    if k > 0 {
      AdvanceDistance(0, n, n, u);
      var mid := Advance(0, n, u);
      TurnNeverComes(0, n, u, k - 1);
      ReadIff(ring, mid, n, k - 1, n);
      InWindowIff(ring, 0, n, n);
      FirstAreShiftedSecond(ring, 0, n, k - 1);
    }
  }

  /** When both planes choose among the same peers, each plane reaches every peer from every cursor if
      and only if the number of peers is not a multiple of twice the fanout. */
  lemma SharedRotationCoversIff(population: seq<Peer>, n: nat)
    requires DistinctPeers(population) && 0 < n < |population|
    ensures |ById(population)| == |population|
    ensures (forall cursor: nat, p :: p in population ==> GlobalReaches(population, n, cursor, p))
            <==> |population| % (2 * n) != 0
    ensures (forall cursor: nat, p :: p in population ==> ScopedReaches(population, n, cursor, p))
            <==> |population| % (2 * n) != 0
  {
    var ring, u := ById(population), |population|;
    SortKeepsSize(population);
    RingIsDistinct(population);
    LeftoverIsModulo(u, 2 * n);
    if u % (2 * n) != 0 {
      forall cursor: nat, p | p in population
        ensures GlobalReaches(population, n, cursor, p) && ScopedReaches(population, n, cursor, p)
      {
        ReachedOnBothPlanes(population, n, cursor, p);
      }
    } else {
      StarvedOnBothPlanes(population, n);
    }
  }

  lemma StarvedOnBothPlanes(population: seq<Peer>, n: nat)
    requires DistinctPeers(population) && 0 < n < |population| == |ById(population)|
    requires Leftover(|population|, 2 * n) == 0
    ensures var ring := ById(population);
            && ring[0] in population && !GlobalReaches(population, n, 0, ring[0])
            && ring[n] in population && !ScopedReaches(population, n, 0, ring[n])
  {
    var ring := ById(population);
    RingIsDistinct(population);
    SortByKeyCorrect(population, PeerKey);
    assert ring[0] in multiset(ring) && ring[n] in multiset(ring);
    ZeroModulo(|population|);
    forall k ensures ring[0] !in SecondWindows(ring, 0, n, k) && ring[n] !in FirstWindows(ring, 0, n, k) {
      StarvedPeers(ring, n, k);
    }
  }
}

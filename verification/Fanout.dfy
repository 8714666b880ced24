/** The rotating fanout window (src/gossip/outbound.rs:697-730). */
module Fanout {
  import opened Basics
  import opened Sorting

  datatype Peer = Peer(id: Uuid, address: nat)

  function PeerKey(p: Peer): Key {
    [Num(p.id)]
  }

  function ById(peers: seq<Peer>): seq<Peer> {
    SortByKey(peers, PeerKey)
  }

  ghost predicate DistinctPeers(peers: seq<Peer>) {
    forall i, j :: 0 <= i < j < |peers| ==> peers[i].id != peers[j].id
  }

  // ----- Walking round a ring -----

  function Next(i: nat, n: nat): nat {
    if i + 1 == n then 0 else i + 1
  }

  /** `length` consecutive ring positions read from `start`. */
  function Walk(ring: seq<Peer>, start: nat, length: nat): seq<Peer>
    requires start < |ring|
    decreases length
  {
    if length == 0 then [] else [ring[start]] + Walk(ring, Next(start, |ring|), length - 1)
  }

  function Advance(start: nat, length: nat, n: nat): (r: nat)
    requires start < n
    ensures r < n
    decreases length
  {
    if length == 0 then start else Advance(Next(start, n), length - 1, n)
  }

  lemma {:induction false} WalkAppend(ring: seq<Peer>, start: nat, a: nat, b: nat)
    requires start < |ring|
    ensures Walk(ring, start, a) + Walk(ring, Advance(start, a, |ring|), b) == Walk(ring, start, a + b)
    decreases a
  {
    if a == 0 {
      assert [] + Walk(ring, start, b) == Walk(ring, start, b);
    } else {
      var next := Next(start, |ring|);
      WalkAppend(ring, next, a - 1, b);
      calc {
        Walk(ring, start, a) + Walk(ring, Advance(start, a, |ring|), b);
      ==
        [ring[start]] + Walk(ring, next, a - 1) + Walk(ring, Advance(next, a - 1, |ring|), b);
      == { assert forall x: seq<Peer>, y: seq<Peer>, z: seq<Peer> :: x + y + z == x + (y + z); }
        [ring[start]] + (Walk(ring, next, a - 1) + Walk(ring, Advance(next, a - 1, |ring|), b));
      ==
        Walk(ring, start, a + b);
      }
    }
  }

  /** Reading less than one round, the walk is indexing modulo the ring size. */
  lemma {:induction false} WalkIsModular(ring: seq<Peer>, start: nat, length: nat)
    requires start < |ring| && length <= |ring|
    ensures |Walk(ring, start, length)| == length
    ensures forall i :: 0 <= i < length ==> Walk(ring, start, length)[i] == ring[Wrap(start + i, |ring|)]
    ensures Advance(start, length, |ring|) == Wrap(start + length, |ring|)
    decreases length
  {
    if length > 0 {
      WalkIsModular(ring, Next(start, |ring|), length - 1);
    }
  }

  function Wrap(i: nat, n: nat): nat {
    if i < n then i else if i < 2 * n then i - n else 0
  }

  lemma WrapIsMod(i: nat, n: nat)
    requires 0 < n && i < 2 * n
    ensures i % n == Wrap(i, n)
  {
    QuotientUnique(i, n, if i < n then 0 else 1, Wrap(i, n));
  }

  /** Euclidean division is determined by its defining equation. */
  lemma QuotientUnique(a: nat, n: nat, q: nat, r: nat)
    requires 0 < n && a == q * n + r && r < n
    ensures a / n == q && a % n == r
  {
    var d := a / n;
    assert a == n * d + a % n;
    if d > q {
      MulGap(n, q, d);
      assert false;
    } else if d < q {
      MulGap(n, d, q);
      assert false;
    }
  }

  lemma {:induction false} MulGap(n: nat, x: nat, y: nat)
    requires x < y
    ensures n * x + n <= n * y
    decreases y
  {
    assert n * y == n * (y - 1) + n;
    if x < y - 1 {
      MulGap(n, x, y - 1);
    }
  }

  // ----- One call -----

  datatype Selection = Selection(peers: seq<Peer>, cursor: nat)

  function Select(peers: seq<Peer>, fanout: nat, cursor: nat): Selection {
    var sorted := ById(peers);
    if fanout == 0 || fanout >= |sorted| then Selection(sorted, 0)
    else
      var start := cursor % |sorted|;
      Selection(Walk(sorted, start, fanout), Advance(start, fanout, |sorted|))
  }

  method SelectFanoutWindow(peers: seq<Peer>, fanout: nat, cursor: nat)
    returns (selected: seq<Peer>, cursor': nat)
    ensures Selection(selected, cursor') == Select(peers, fanout, cursor)
  {
    SortKeepsSize(peers);
    if peers == [] {
      return peers, 0;
    }
    var sorted := ById(peers);
    var target := if fanout == 0 || fanout > |sorted| then |sorted| else fanout;
    if target >= |sorted| {
      return sorted, 0;
    }
    var start := cursor % |sorted|;
    WalkIsModular(sorted, start, target);
    selected := [];
    for offset := 0 to target
      invariant |selected| == offset
      invariant forall i :: 0 <= i < offset ==> selected[i] == sorted[Wrap(start + i, |sorted|)]
    {
      WrapIsMod(start + offset, |sorted|);
      selected := selected + [sorted[(start + offset) % |sorted|]];
    }
    assert selected == Walk(sorted, start, target);
    WrapIsMod(start + target, |sorted|);
    cursor' := (start + target) % |sorted|;
  }

  lemma {:induction false} WalkPeers(ring: seq<Peer>, start: nat, length: nat)
    requires start < |ring|
    ensures |Walk(ring, start, length)| == length
    ensures forall p :: p in Walk(ring, start, length) ==> p in ring
    decreases length
  {
    if length > 0 {
      WalkPeers(ring, Next(start, |ring|), length - 1);
    }
  }

  /** A selection is of listed peers, and as many as the fanout asks for; no fanout means all. */
  lemma WindowSize(peers: seq<Peer>, fanout: nat, cursor: nat)
    ensures |Select(peers, fanout, cursor).peers| == if fanout == 0 || fanout >= |peers| then |peers| else fanout
    ensures forall p :: p in Select(peers, fanout, cursor).peers ==> p in peers
  {
    var sorted := ById(peers);
    SortKeepsSize(peers);
    SortByKeyCorrect(peers, PeerKey);
    forall p | p in sorted ensures p in peers {
      assert p in multiset(sorted);
    }
    if 0 < fanout < |sorted| {
      WalkPeers(sorted, cursor % |sorted|, fanout);
    }
  }

  lemma SortKeepsSize(peers: seq<Peer>)
    ensures |ById(peers)| == |peers|
  {
    SortByKeyCorrect(peers, PeerKey);
    assert |multiset(peers)| == |peers| && |multiset(ById(peers))| == |ById(peers)|;
  }

  // ----- Whole runs -----

  /** Everything selected by successive calls, each given some listing of the peers. */
  function Selections(listings: seq<seq<Peer>>, fanout: nat, cursor: nat): seq<Peer> {
    if listings == [] then []
    else
      var s := Select(listings[0], fanout, cursor);
      s.peers + Selections(listings[1..], fanout, s.cursor)
  }

  function Occurrences(s: seq<Peer>, p: Peer): nat {
    if s == [] then 0 else (if s[0] == p then 1 else 0) + Occurrences(s[1..], p)
  }

  /** Every listing is a permutation of the population. */
  ghost predicate EachLists(listings: seq<seq<Peer>>, population: seq<Peer>) {
    forall i :: 0 <= i < |listings| ==> multiset(listings[i]) == multiset(population)
  }

  lemma SelectionIsAWalk(listing: seq<Peer>, population: seq<Peer>, fanout: nat, cursor: nat)
    requires DistinctPeers(population) && 0 < fanout < |population|
    requires multiset(listing) == multiset(population)
    ensures |ById(population)| == |population|
    ensures Select(listing, fanout, cursor)
            == Selection(Walk(ById(population), cursor % |population|, fanout),
                         Advance(cursor % |population|, fanout, |population|))
  {
    SortKeepsSize(population);
    DistinctPeersIdentified(population);
    SortIgnoresInputOrder(population, listing, PeerKey);
  }

  /** The number of selections made by `calls` calls. */
  function Total(calls: nat, fanout: nat): nat {
    if calls == 0 then 0 else fanout + Total(calls - 1, fanout)
  }

  lemma {:induction false} TotalIsProduct(calls: nat, fanout: nat)
    ensures Total(calls, fanout) == calls * fanout
  {
    if calls > 0 {
      TotalIsProduct(calls - 1, fanout);
      assert calls * fanout == fanout + (calls - 1) * fanout;
    }
  }

  /** Consecutive windows on a ring. */
  function Windows(ring: seq<Peer>, start: nat, calls: nat, fanout: nat): seq<Peer>
    requires start < |ring|
    decreases calls
  {
    if calls == 0 then []
    else Walk(ring, start, fanout) + Windows(ring, Advance(start, fanout, |ring|), calls - 1, fanout)
  }

  lemma {:induction false} WindowsAreOneWalk(ring: seq<Peer>, start: nat, calls: nat, fanout: nat)
    requires start < |ring|
    ensures Windows(ring, start, calls, fanout) == Walk(ring, start, Total(calls, fanout))
    decreases calls
  {
    if calls > 0 {
      WindowsAreOneWalk(ring, Advance(start, fanout, |ring|), calls - 1, fanout);
      WalkAppend(ring, start, fanout, Total(calls - 1, fanout));
    }
  }

  /** When every call lists the same population, the calls read consecutive windows. */
  lemma {:induction false} SelectionsAreWindows(listings: seq<seq<Peer>>, population: seq<Peer>, fanout: nat, cursor: nat)
    requires DistinctPeers(population) && 0 < fanout < |population|
    requires EachLists(listings, population)
    ensures |ById(population)| == |population|
    ensures Selections(listings, fanout, cursor)
            == Windows(ById(population), cursor % |population|, |listings|, fanout)
    decreases |listings|
  {
    SortKeepsSize(population);
    if listings != [] {
      var n := |population|;
      var at := Advance(cursor % n, fanout, n);
      SelectionIsAWalk(listings[0], population, fanout, cursor);
      SelectionsAreWindows(listings[1..], population, fanout, at);
      assert at % n == at by { QuotientUnique(at, n, 0, at); }
    }
  }

  lemma DistinctPeersIdentified(peers: seq<Peer>)
    requires DistinctPeers(peers)
    ensures KeyIdentifies(peers, PeerKey)
  {
    forall x, y | x in peers && y in peers && PeerKey(x) == PeerKey(y) ensures x == y {
      assert PeerKey(x)[0] == PeerKey(y)[0];
    }
  }

  /** How far ahead of `start` the position `j` lies on the ring. */
  function Distance(start: nat, j: nat, n: nat): nat
    requires start < n && j < n
  {
    if j >= start then j - start else j + n - start
  }

  /** Full rounds in a walk, and the steps left over. */
  function Rounds(length: nat, n: nat): nat
    requires 0 < n
  {
    if length < n then 0 else 1 + Rounds(length - n, n)
  }

  function Leftover(length: nat, n: nat): (r: nat)
    requires 0 < n
    ensures r < n
  {
    if length < n then length else Leftover(length - n, n)
  }

  lemma {:induction false} OneStepLess(length: nat, n: nat)
    requires 0 < n && 0 < length
    ensures Leftover(length, n) > 0 ==>
              Rounds(length - 1, n) == Rounds(length, n) && Leftover(length - 1, n) == Leftover(length, n) - 1
    ensures Leftover(length, n) == 0 ==>
              Rounds(length - 1, n) == Rounds(length, n) - 1 && Leftover(length - 1, n) == n - 1
  {
    if length > n {
      OneStepLess(length - n, n);
      assert Rounds(length - 1, n) == 1 + Rounds(length - n - 1, n);
      assert Leftover(length - 1, n) == Leftover(length - n - 1, n);
    } else if length == n {
      assert Leftover(length - n, n) == Rounds(length - n, n) == 0;
    }
  }

  lemma {:induction false} RoundsIsQuotient(length: nat, n: nat)
    requires 0 < n
    ensures length == Rounds(length, n) * n + Leftover(length, n)
  {
    if length >= n {
      RoundsIsQuotient(length - n, n);
      assert Rounds(length, n) * n == Rounds(length - n, n) * n + n;
    }
  }

  /** A walk visits a position once per full round, and once more when the position lies within
      the leftover steps. */
  lemma {:induction false} WalkVisits(ring: seq<Peer>, start: nat, j: nat, length: nat)
    requires DistinctPeers(ring) && start < |ring| && j < |ring|
    ensures Occurrences(Walk(ring, start, length), ring[j])
            == Rounds(length, |ring|) + if Distance(start, j, |ring|) < Leftover(length, |ring|) then 1 else 0
    decreases length
  {
    if length > 0 {
      var next := Next(start, |ring|);
      var w := Walk(ring, next, length - 1);
      assert ([ring[start]] + w)[1..] == w;
      WalkVisits(ring, next, j, length - 1);
      OneStepLess(length, |ring|);
    }
  }

  /** A walk of any length visits every position the floor or the ceiling of its share. */
  lemma WalkIsFair(ring: seq<Peer>, start: nat, length: nat, p: Peer)
    requires DistinctPeers(ring) && start < |ring| && p in ring
    ensures length / |ring| <= Occurrences(Walk(ring, start, length), p) <= (length + |ring| - 1) / |ring|
  {
    var n := |ring|;
    var j :| 0 <= j < n && ring[j] == p;
    WalkVisits(ring, start, j, length);
    RoundsIsQuotient(length, n);
    QuotientUnique(length, n, Rounds(length, n), Leftover(length, n));
    CeilingQuotient(length, n, Rounds(length, n), Leftover(length, n));
  }

  /** Over any number of calls on a fixed population, from any cursor and for any listing order,
      each peer is selected either the floor or the ceiling of its exact share. */
  lemma RotationIsFair(listings: seq<seq<Peer>>, population: seq<Peer>, fanout: nat, cursor: nat, p: Peer)
    requires DistinctPeers(population) && 0 < fanout < |population| && p in population
    requires EachLists(listings, population)
    ensures var n, total := |population|, |listings| * fanout;
            total / n <= Occurrences(Selections(listings, fanout, cursor), p) <= (total + n - 1) / n
  {
    SelectionsAreWindows(listings, population, fanout, cursor);
    WindowsAreOneWalk(ById(population), cursor % |population|, |listings|, fanout);
    RingIsDistinct(population);
    TotalIsProduct(|listings|, fanout);
    WalkIsFair(ById(population), cursor % |population|, Total(|listings|, fanout), p);
  }

  lemma CeilingQuotient(total: nat, n: nat, q: nat, r: nat)
    requires 0 < n && r < n && total == q * n + r
    ensures (total + n - 1) / n == if r == 0 then q else q + 1
  {
    if r == 0 {
      QuotientUnique(total + n - 1, n, q, n - 1);
    } else {
      assert (q + 1) * n == q * n + n;
      QuotientUnique(total + n - 1, n, q + 1, r - 1);
    }
  }

  lemma RingIsDistinct(population: seq<Peer>)
    requires DistinctPeers(population)
    ensures DistinctPeers(ById(population))
    ensures forall p :: p in population ==> p in ById(population)
  {
    var ring := ById(population);
    SortByKeyCorrect(population, PeerKey);
    forall i, j | 0 <= i < j < |ring| ensures ring[i].id != ring[j].id {
      assert ring[i] in multiset(ring) && ring[j] in multiset(ring);
      if ring[i].id == ring[j].id {
        DistinctPeersIdentified(population);
        assert ring[i] in population && ring[j] in population;
        assert ring[i] == ring[j];
        DuplicateCountsTwice(ring, i, j);
        DistinctCountsOnce(population, ring[i]);
      }
    }
    forall p | p in population ensures p in ring { assert p in multiset(population); }
  }

  lemma DuplicateCountsTwice(s: seq<Peer>, i: nat, j: nat)
    requires i < j < |s| && s[i] == s[j]
    ensures multiset(s)[s[i]] >= 2
  {
    assert s == s[..i] + [s[i]] + s[i + 1..j] + [s[j]] + s[j + 1..];
  }

  lemma {:induction false} DistinctCountsOnce(s: seq<Peer>, p: Peer)
    requires DistinctPeers(s)
    ensures multiset(s)[p] <= 1
  {
    if s != [] {
      assert s == [s[0]] + s[1..];
      DistinctCountsOnce(s[1..], p);
      if s[0] == p && p in s[1..] {
        assert false;
      }
    }
  }

  lemma PositiveQuotient(total: nat, n: nat)
    requires 0 < n <= total
    ensures total / n >= 1
  {
    assert total == n * (total / n) + total % n;
  }

  /** Once the calls have made at least one selection per peer, every peer has been selected. */
  lemma RotationCoversEveryone(listings: seq<seq<Peer>>, population: seq<Peer>, fanout: nat, cursor: nat, p: Peer)
    requires DistinctPeers(population) && 0 < fanout < |population| && p in population
    requires EachLists(listings, population)
    requires |listings| * fanout >= |population|
    ensures Occurrences(Selections(listings, fanout, cursor), p) >= 1
  {
    RotationIsFair(listings, population, fanout, cursor, p);
    PositiveQuotient(|listings| * fanout, |population|);
  }

  /** The ring the window goes round is the population by ascending identifier. */
  lemma RingAscends(population: seq<Peer>, i: nat, j: nat)
    requires i < j < |ById(population)|
    ensures ById(population)[i].id <= ById(population)[j].id
    ensures multiset(ById(population)) == multiset(population)
  {
    SortByKeyCorrect(population, PeerKey);
    var a, b := ById(population)[i], ById(population)[j];
    assert CompareKeys(PeerKey(a), PeerKey(b)) != Greater;
    assert [Num(a.id)] == [Num(a.id)] + [] && [Num(b.id)] == [Num(b.id)] + [];
    CompareHead(Num(a.id), [], Num(b.id), []);
  }
}

/** Plane split, batching, peer filtering and RPC chunking of one outbound flush
    (src/gossip/outbound.rs:344-537). */
module Dispatch {
  import opened Basics
  import opened Lists
  import opened Messages
  import opened Fanout

  /** Consecutive pieces of at most `size` messages. */
  function Chunks(ms: seq<Message>, size: nat): (parts: seq<seq<Message>>)
    requires size > 0
    ensures forall i :: 0 <= i < |parts| ==> 0 < |parts[i]| <= size
    ensures Flatten(parts) == ms
  {
    if ms == [] then []
    else if |ms| <= size then
      assert [ms][1..] == [];
      [ms]
    else
      var rest := Chunks(ms[size..], size);
      assert ([ms[..size]] + rest)[1..] == rest;
      assert ms[..size] + ms[size..] == ms;
      [ms[..size]] + rest
  }

  // ----- Planes -----

  function OnPlane(plane: Plane): Message -> bool {
    m => MessagePlane(m) == plane
  }

  method SplitByPlane(pending: seq<Message>) returns (viewScoped: seq<Message>, globalMetadata: seq<Message>)
    ensures viewScoped == Filter(pending, OnPlane(ViewScoped))
    ensures globalMetadata == Filter(pending, OnPlane(GlobalMetadata))
  {
    viewScoped, globalMetadata := [], [];
    for n := 0 to |pending|
      invariant viewScoped + Filter(pending[n..], OnPlane(ViewScoped)) == Filter(pending, OnPlane(ViewScoped))
      invariant globalMetadata + Filter(pending[n..], OnPlane(GlobalMetadata)) == Filter(pending, OnPlane(GlobalMetadata))
    {
      assert pending[n..][1..] == pending[n + 1..];
      match MessagePlane(pending[n])
      case ViewScoped => viewScoped := viewScoped + [pending[n]];
      case GlobalMetadata => globalMetadata := globalMetadata + [pending[n]];
    }
    assert pending[|pending|..] == [];
  }

  /** The two planes partition the pending list. */
  lemma {:induction false} PlanesPartition(pending: seq<Message>)
    ensures multiset(Filter(pending, OnPlane(ViewScoped))) + multiset(Filter(pending, OnPlane(GlobalMetadata)))
            == multiset(pending)
  {
    if pending != [] {
      PlanesPartition(pending[1..]);
      assert pending == [pending[0]] + pending[1..];
    }
  }

  // ----- Sending to one peer -----

  /** What becomes of one RPC chunk. Without a capability for the peer the send reports success
      although nothing is sent; a failed or timed out send may still have reached the peer. */
  datatype SendResult = Delivered | NoCapability | SendFailed(reached: bool)

  /** The chunks that reach the peer: sending stops after the first failure. */
  function Reaching(chunks: seq<seq<Message>>, results: nat -> SendResult, at: nat): seq<seq<Message>> {
    if chunks == [] then []
    else match results(at)
      case Delivered => [chunks[0]] + Reaching(chunks[1..], results, at + 1)
      case NoCapability => Reaching(chunks[1..], results, at + 1)
      case SendFailed(reached) => if reached then [chunks[0]] else []
  }

  method SendToPeer(outbound: seq<Message>, rpcMax: nat, results: nat -> SendResult)
    returns (reached: seq<seq<Message>>)
    requires rpcMax > 0
    ensures reached == Reaching(Chunks(outbound, rpcMax), results, 0)
  {
    reached := [];
    var chunks := Chunks(outbound, rpcMax);
    for n := 0 to |chunks|
      invariant reached + Reaching(chunks[n..], results, n) == Reaching(chunks, results, 0)
    {
      assert chunks[n..][1..] == chunks[n + 1..];
      match results(n) {
        case Delivered =>
          reached := reached + [chunks[n]];
        case NoCapability =>
        case SendFailed(arrived) =>
          if arrived {
            reached := reached + [chunks[n]];
          }
          return;
      }
    }
    assert chunks[|chunks|..] == [];
  }

  lemma {:induction false} AllDelivered(chunks: seq<seq<Message>>, results: nat -> SendResult, at: nat)
    requires forall i :: at <= i < at + |chunks| ==> results(i) == Delivered
    ensures Reaching(chunks, results, at) == chunks
    decreases |chunks|
  {
    if chunks != [] {
      AllDelivered(chunks[1..], results, at + 1);
    }
  }

  /** Some chunk among the next `n` reaches the peer. */
  predicate SomeReaches(results: nat -> SendResult, at: nat, n: nat)
    decreases n
  {
    n > 0 && match results(at)
      case Delivered => true
      case NoCapability => SomeReaches(results, at + 1, n - 1)
      case SendFailed(reached) => reached
  }

  /** A chunk is skipped for want of a capability and a later one still reaches the peer. */
  predicate SkipsThenReaches(results: nat -> SendResult, at: nat, n: nat)
    decreases n
  {
    n > 0 && match results(at)
      case Delivered => SkipsThenReaches(results, at + 1, n - 1)
      case NoCapability => SomeReaches(results, at + 1, n - 1)
      case SendFailed(_) => false
  }

  /** The positions of the chunks that reach the peer, of the next `n`. */
  function Positions(results: nat -> SendResult, at: nat, n: nat): seq<nat>
    decreases n
  {
    if n == 0 then []
    else match results(at)
      case Delivered => [at] + Positions(results, at + 1, n - 1)
      case NoCapability => Positions(results, at + 1, n - 1)
      case SendFailed(reached) => if reached then [at] else []
  }

  /** The positions are the first ones, with none left out. */
  ghost predicate Consecutive(positions: seq<nat>, at: nat) {
    forall i :: 0 <= i < |positions| ==> positions[i] == at + i
  }

  /** What reaches the peer of the chunks from `k` on are the chunks at those positions. */
  lemma {:induction false} ReachingAtPositions(chunks: seq<seq<Message>>, results: nat -> SendResult, k: nat)
    requires k <= |chunks|
    ensures var reaching, positions := Reaching(chunks[k..], results, k), Positions(results, k, |chunks| - k);
            && |reaching| == |positions|
            && (forall i :: 0 <= i < |positions| ==> k <= positions[i] < |chunks| && reaching[i] == chunks[positions[i]])
    decreases |chunks| - k
  {
    if k < |chunks| {
      ReachingAtPositions(chunks, results, k + 1);
      assert chunks[k..][1..] == chunks[k + 1..];
    }
  }

  lemma {:induction false} NothingReaches(chunks: seq<seq<Message>>, results: nat -> SendResult, at: nat)
    requires !SomeReaches(results, at, |chunks|)
    ensures Reaching(chunks, results, at) == []
    decreases |chunks|
  {
    if chunks != [] && results(at).NoCapability? {
      NothingReaches(chunks[1..], results, at + 1);
    }
  }

  lemma {:induction false} SomeReachesIff(results: nat -> SendResult, at: nat, n: nat)
    ensures SomeReaches(results, at, n) <==> Positions(results, at, n) != []
    ensures forall p :: p in Positions(results, at, n) ==> p >= at
    decreases n
  {
    if n > 0 {
      SomeReachesIff(results, at + 1, n - 1);
    }
  }

  /** The chunks that reach the peer are the first ones exactly when none is skipped before one that
      arrives. */
  lemma {:induction false} ConsecutiveIff(results: nat -> SendResult, at: nat, n: nat)
    ensures Consecutive(Positions(results, at, n), at) <==> !SkipsThenReaches(results, at, n)
    decreases n
  {
    if n > 0 {
      var rest := Positions(results, at + 1, n - 1);
      ConsecutiveIff(results, at + 1, n - 1);
      SomeReachesIff(results, at + 1, n - 1);
      assert results(at).NoCapability? && rest != [] ==> rest[0] in rest;
      assert forall i :: 0 <= i < |rest| ==> ([at] + rest)[i + 1] == rest[i];
    }
  }

  /** Without a skip, what arrives is a prefix of what was to be sent. */
  lemma {:induction false} NoSkipReachesPrefix(chunks: seq<seq<Message>>, results: nat -> SendResult, at: nat)
    requires !SkipsThenReaches(results, at, |chunks|)
    ensures IsPrefix(Flatten(Reaching(chunks, results, at)), Flatten(chunks))
    decreases |chunks|
  {
    if chunks != [] {
      var head, tail := chunks[0], chunks[1..];
      var rest := Reaching(tail, results, at + 1);
      match results(at) {
        case Delivered =>
          NoSkipReachesPrefix(tail, results, at + 1);
          assert ([head] + rest)[1..] == rest;
          PrefixAfterCommonHead(head, Flatten(rest), Flatten(tail));
        case NoCapability =>
          NothingReaches(tail, results, at + 1);
        case SendFailed(reached) =>
          assert Flatten([head]) == head by { assert [head][1..] == []; }
      }
    }
  }

  ghost predicate NoRepeats(ms: seq<Message>) {
    forall i, j :: 0 <= i < j < |ms| ==> ms[i] != ms[j]
  }

  ghost predicate IsPrefix(a: seq<Message>, b: seq<Message>) {
    |a| <= |b| && a == b[..|a|]
  }

  lemma {:induction false} SomethingReachesIff(chunks: seq<seq<Message>>, results: nat -> SendResult, at: nat)
    requires forall i :: 0 <= i < |chunks| ==> chunks[i] != []
    ensures Flatten(Reaching(chunks, results, at)) != [] <==> SomeReaches(results, at, |chunks|)
    decreases |chunks|
  {
    if chunks != [] {
      SomethingReachesIff(chunks[1..], results, at + 1);
      var rest := Reaching(chunks[1..], results, at + 1);
      assert ([chunks[0]] + rest)[1..] == rest;
      assert [chunks[0]][1..] == [];
    }
  }

  lemma {:induction false} ReachingComesFromChunks(chunks: seq<seq<Message>>, results: nat -> SendResult, at: nat)
    ensures forall m :: m in Flatten(Reaching(chunks, results, at)) ==> m in Flatten(chunks)
    decreases |chunks|
  {
    if chunks != [] {
      ReachingComesFromChunks(chunks[1..], results, at + 1);
      var rest := Reaching(chunks[1..], results, at + 1);
      assert ([chunks[0]] + rest)[1..] == rest;
      assert [chunks[0]][1..] == [];
    }
  }

  lemma PrefixAfterCommonHead(head: seq<Message>, a: seq<Message>, b: seq<Message>)
    ensures IsPrefix(head + a, head + b) <==> IsPrefix(a, b)
  {
    if IsPrefix(head + a, head + b) {
      assert a == (head + a)[|head|..] == (head + b)[..|head + a|][|head|..] == b[..|a|];
    }
    if IsPrefix(a, b) {
      assert head + a == head + b[..|a|] == (head + b)[..|head + a|];
    }
  }

  lemma NoRepeatsInTail(head: seq<Message>, tail: seq<Message>)
    requires NoRepeats(head + tail)
    ensures NoRepeats(tail)
  {
    assert forall i :: 0 <= i < |tail| ==> tail[i] == (head + tail)[|head| + i];
  }

  /** After a skipped head nothing but the empty list is a prefix. */
  lemma PrefixAfterSkip(head: seq<Message>, rest: seq<Message>, tail: seq<Message>)
    requires head != [] && NoRepeats(head + tail) && forall m :: m in rest ==> m in tail
    ensures IsPrefix(rest, head + tail) <==> rest == []
  {
    var all := head + tail;
    if rest != [] {
      assert rest[0] in tail;
      var i :| 0 <= i < |tail| && tail[i] == rest[0];
      assert all[|head| + i] == rest[0] && all[0] != all[|head| + i];
      assert |rest| <= |all| ==> all[..|rest|][0] == all[0];
    }
  }

  /** What reaches the peer is a prefix of what was to be sent exactly when no chunk is skipped
      before one that arrives. */
  lemma {:induction false} ReachingIsPrefixIff(chunks: seq<seq<Message>>, results: nat -> SendResult, at: nat)
    requires forall i :: 0 <= i < |chunks| ==> chunks[i] != []
    requires NoRepeats(Flatten(chunks))
    ensures IsPrefix(Flatten(Reaching(chunks, results, at)), Flatten(chunks))
            <==> !SkipsThenReaches(results, at, |chunks|)
    decreases |chunks|
  {
    if chunks != [] {
      var head, tail := chunks[0], chunks[1..];
      var rest := Reaching(tail, results, at + 1);
      match results(at) {
        case Delivered =>
          NoRepeatsInTail(head, Flatten(tail));
          ReachingIsPrefixIff(tail, results, at + 1);
          assert ([head] + rest)[1..] == rest;
          PrefixAfterCommonHead(head, Flatten(rest), Flatten(tail));
        case NoCapability =>
          SomethingReachesIff(tail, results, at + 1);
          ReachingComesFromChunks(tail, results, at + 1);
          PrefixAfterSkip(head, Flatten(rest), Flatten(tail));
        case SendFailed(reached) =>
          assert Flatten([head]) == head by { assert [head][1..] == []; }
      }
    }
  }

  // ----- One plane -----

  function NotAbout(peer: Uuid): Message -> bool {
    m => !TargetsPeer(m, peer)
  }

  /** The fate of each chunk of one batch sent to one peer. */
  function Fates(results: (Uuid, nat, nat) -> SendResult, peer: Uuid, batch: nat): nat -> SendResult {
    (chunk: nat) => results(peer, batch, chunk)
  }

  /** The chunks of one batch for one peer: the messages not about that peer. */
  function BatchChunks(peer: Uuid, batch: seq<Message>, rpcMax: nat): seq<seq<Message>>
    requires rpcMax > 0
  {
    Chunks(Filter(batch, NotAbout(peer)), rpcMax)
  }

  /** What reaches one peer from a list of batches, the first of which is number `at`. */
  function BatchesTo(peer: Uuid, batches: seq<seq<Message>>, rpcMax: nat,
                     results: (Uuid, nat, nat) -> SendResult, at: nat): seq<seq<Message>>
    requires rpcMax > 0
  {
    if batches == [] then []
    else Reaching(BatchChunks(peer, batches[0], rpcMax), Fates(results, peer, at), 0)
         + BatchesTo(peer, batches[1..], rpcMax, results, at + 1)
  }

  lemma {:induction false} BatchesPreserveContent(peer: Uuid, batches: seq<seq<Message>>, rpcMax: nat,
                                                  results: (Uuid, nat, nat) -> SendResult, at: nat)
    requires rpcMax > 0
    requires forall b: nat, c: nat :: results(peer, b, c) == Delivered
    ensures Flatten(BatchesTo(peer, batches, rpcMax, results, at)) == Filter(Flatten(batches), NotAbout(peer))
    ensures forall c :: c in BatchesTo(peer, batches, rpcMax, results, at) ==> 0 < |c| <= rpcMax
    decreases |batches|
  {
    if batches != [] {
      BatchesPreserveContent(peer, batches[1..], rpcMax, results, at + 1);
      var chunks := BatchChunks(peer, batches[0], rpcMax);
      AllDelivered(chunks, Fates(results, peer, at), 0);
      FlattenAppend(chunks, BatchesTo(peer, batches[1..], rpcMax, results, at + 1));
      FilterAppend(batches[0], Flatten(batches[1..]), NotAbout(peer));
    }
  }

  /** With no send failure, the chunks that reach a peer spell out exactly the pending messages
      not about that peer, once each and in order, in chunks of at most `rpcMax`. */
  lemma DispatchPreservesContent(peer: Uuid, pending: seq<Message>, dispatchMax: nat, rpcMax: nat,
                                 results: (Uuid, nat, nat) -> SendResult)
    requires dispatchMax > 0 && rpcMax > 0
    requires forall b: nat, c: nat :: results(peer, b, c) == Delivered
    ensures var sent := BatchesTo(peer, Chunks(pending, dispatchMax), rpcMax, results, 0);
            && Flatten(sent) == Filter(pending, NotAbout(peer))
            && forall c :: c in sent ==> 0 < |c| <= rpcMax
  {
    BatchesPreserveContent(peer, Chunks(pending, dispatchMax), rpcMax, results, 0);
  }

  /** With failures, the chunks of a batch that reach a peer are its first chunks exactly when none
      is skipped before one that arrives; then the messages that arrive are a prefix of the batch's
      messages for the peer, and if those have no repeats only then. */
  lemma BatchReachesPrefixIff(peer: Uuid, batch: seq<Message>, rpcMax: nat,
                              results: (Uuid, nat, nat) -> SendResult, at: nat)
    requires rpcMax > 0
    ensures var chunks, fates := BatchChunks(peer, batch, rpcMax), Fates(results, peer, at);
            var reaching, positions := Reaching(chunks, fates, 0), Positions(fates, 0, |chunks|);
            var arrived, share := Flatten(reaching), Filter(batch, NotAbout(peer));
            && |reaching| == |positions|
            && (forall i :: 0 <= i < |positions| ==> positions[i] < |chunks| && reaching[i] == chunks[positions[i]])
            && (Consecutive(positions, 0) <==> !SkipsThenReaches(fates, 0, |chunks|))
            && (!SkipsThenReaches(fates, 0, |chunks|) ==> IsPrefix(arrived, share))
            && (NoRepeats(share) ==> (IsPrefix(arrived, share) <==> !SkipsThenReaches(fates, 0, |chunks|)))
  {
    var chunks, fates := BatchChunks(peer, batch, rpcMax), Fates(results, peer, at);
    ReachingAtPositions(chunks, fates, 0);
    assert chunks[0..] == chunks;
    ConsecutiveIff(fates, 0, |chunks|);
    if !SkipsThenReaches(fates, 0, |chunks|) {
      NoSkipReachesPrefix(chunks, fates, 0);
    } else if NoRepeats(Filter(batch, NotAbout(peer))) {
      ReachingIsPrefixIff(chunks, fates, 0);
    }
  }

  /** A skipped chunk really can be overtaken: the second of two messages arrives alone. */
  lemma SkippedChunkExample(a: Message, b: Message)
    requires a != b
    ensures var fates: nat -> SendResult := i => if i == 0 then NoCapability else Delivered;
            Flatten(Reaching(Chunks([a, b], 1), fates, 0)) == [b]
  {
    var fates: nat -> SendResult := i => if i == 0 then NoCapability else Delivered;
    assert [a, b][..1] == [a] && [a, b][1..] == [b];
    assert Chunks([b], 1) == [[b]];
    assert Chunks([a, b], 1) == [[a]] + [[b]];
    assert ([[a]] + [[b]])[1..] == [[b]] && [[b]][1..] == [];
    assert Reaching([[b]], fates, 1) == [[b]] + Reaching([], fates, 2);
  }

  /** One RPC that reached a peer. */
  datatype Rpc = Rpc(peer: Uuid, chunk: seq<Message>)

  function ToPeer(log: seq<Rpc>, peer: Uuid): seq<seq<Message>> {
    if log == [] then []
    else ToPeer(log[..|log| - 1], peer) + if log[|log| - 1].peer == peer then [log[|log| - 1].chunk] else []
  }

  function Rpcs(peer: Uuid, chunks: seq<seq<Message>>): seq<Rpc> {
    seq(|chunks|, i requires 0 <= i < |chunks| => Rpc(peer, chunks[i]))
  }

  lemma {:induction false} ToPeerAppend(log: seq<Rpc>, more: seq<Rpc>, peer: Uuid)
    ensures ToPeer(log + more, peer) == ToPeer(log, peer) + ToPeer(more, peer)
    decreases |more|
  {
    if more == [] {
      assert log + more == log;
    } else {
      assert (log + more)[..|log + more| - 1] == log + more[..|more| - 1];
      ToPeerAppend(log, more[..|more| - 1], peer);
    }
  }

  lemma {:induction false} ToPeerOfRpcs(to: Uuid, chunks: seq<seq<Message>>, peer: Uuid)
    ensures ToPeer(Rpcs(to, chunks), peer) == if peer == to then chunks else []
    decreases |chunks|
  {
    if chunks != [] {
      var last := |chunks| - 1;
      assert Rpcs(to, chunks)[..last] == Rpcs(to, chunks[..last]);
      ToPeerOfRpcs(to, chunks[..last], peer);
      assert chunks == chunks[..last] + [chunks[last]];
    }
  }

  /** The RPCs of one batch, peer after peer; the local node is passed over. */
  function BatchLog(batch: seq<Message>, at: nat, peers: seq<Peer>, selfId: Uuid, rpcMax: nat,
                    results: (Uuid, nat, nat) -> SendResult): seq<Rpc>
    requires rpcMax > 0
  {
    if peers == [] then []
    else
      var peer := peers[|peers| - 1].id;
      BatchLog(batch, at, peers[..|peers| - 1], selfId, rpcMax, results)
      + if peer == selfId then []
        else Rpcs(peer, Reaching(BatchChunks(peer, batch, rpcMax), Fates(results, peer, at), 0))
  }

  /** The RPCs of all batches, batch after batch. */
  function PlaneLog(batches: seq<seq<Message>>, peers: seq<Peer>, selfId: Uuid, rpcMax: nat,
                    results: (Uuid, nat, nat) -> SendResult, at: nat): seq<Rpc>
    requires rpcMax > 0
  {
    if batches == [] then []
    else BatchLog(batches[0], at, peers, selfId, rpcMax, results)
         + PlaneLog(batches[1..], peers, selfId, rpcMax, results, at + 1)
  }

  method DispatchPlane(pending: seq<Message>, peers: seq<Peer>, selfId: Uuid, dispatchMax: nat, rpcMax: nat,
                       results: (Uuid, nat, nat) -> SendResult)
    returns (log: seq<Rpc>)
    requires dispatchMax > 0 && rpcMax > 0
    ensures log == PlaneLog(Chunks(pending, dispatchMax), peers, selfId, rpcMax, results, 0)
  {
    log := [];
    var batches := Chunks(pending, dispatchMax);
    for b := 0 to |batches|
      invariant log + PlaneLog(batches[b..], peers, selfId, rpcMax, results, b)
                == PlaneLog(batches, peers, selfId, rpcMax, results, 0)
    {
      assert batches[b..][1..] == batches[b + 1..];
      var sent := DispatchBatch(batches[b], b, peers, selfId, rpcMax, results);
      log := log + sent;
    }
    assert batches[|batches|..] == [];
  }

  method DispatchBatch(batch: seq<Message>, at: nat, peers: seq<Peer>, selfId: Uuid, rpcMax: nat,
                       results: (Uuid, nat, nat) -> SendResult)
    returns (log: seq<Rpc>)
    requires rpcMax > 0
    ensures log == BatchLog(batch, at, peers, selfId, rpcMax, results)
  {
    log := [];
    for n := 0 to |peers|
      invariant log == BatchLog(batch, at, peers[..n], selfId, rpcMax, results)
    {
      var peer := peers[n].id;
      assert peers[..n + 1][..n] == peers[..n];
      if peer != selfId {
        var outbound := Filter(batch, NotAbout(peer));
        if outbound != [] {
          var reached := SendToPeer(outbound, rpcMax, Fates(results, peer, at));
          log := log + Rpcs(peer, reached);
        }
      }
    }
    assert peers[..|peers|] == peers;
  }

  predicate Selected(peers: seq<Peer>, id: Uuid) {
    exists i :: 0 <= i < |peers| && peers[i].id == id
  }

  lemma {:induction false} BatchLogToPeer(batch: seq<Message>, at: nat, peers: seq<Peer>, selfId: Uuid, rpcMax: nat,
                                          results: (Uuid, nat, nat) -> SendResult, id: Uuid)
    requires rpcMax > 0 && DistinctPeers(peers)
    ensures ToPeer(BatchLog(batch, at, peers, selfId, rpcMax, results), id)
            == if Selected(peers, id) && id != selfId
               then Reaching(BatchChunks(id, batch, rpcMax), Fates(results, id, at), 0) else []
    decreases |peers|
  {
    if peers != [] {
      var before, peer := peers[..|peers| - 1], peers[|peers| - 1].id;
      BatchLogToPeer(batch, at, before, selfId, rpcMax, results, id);
      SelectedLast(peers, id);
      var sent := if peer == selfId then []
                  else Rpcs(peer, Reaching(BatchChunks(peer, batch, rpcMax), Fates(results, peer, at), 0));
      ToPeerAppend(BatchLog(batch, at, before, selfId, rpcMax, results), sent, id);
      ToPeerOfRpcs(peer, Reaching(BatchChunks(peer, batch, rpcMax), Fates(results, peer, at), 0), id);
    }
  }

  lemma SelectedLast(peers: seq<Peer>, id: Uuid)
    requires peers != [] && DistinctPeers(peers)
    ensures Selected(peers, id) <==> Selected(peers[..|peers| - 1], id) || peers[|peers| - 1].id == id
    ensures !(Selected(peers[..|peers| - 1], id) && peers[|peers| - 1].id == id)
  {
    var before := peers[..|peers| - 1];
    if Selected(before, id) {
      var i :| 0 <= i < |before| && before[i].id == id;
      assert peers[i].id == id;
    }
    if Selected(peers, id) {
      var i :| 0 <= i < |peers| && peers[i].id == id;
      assert i < |before| ==> before[i].id == id;
    }
  }

  /** Each selected peer other than the local node gets its own share of every batch, whatever is
      sent to the others; nobody else gets anything. */
  lemma {:induction false} PlaneLogToPeer(batches: seq<seq<Message>>, peers: seq<Peer>, selfId: Uuid, rpcMax: nat,
                                          results: (Uuid, nat, nat) -> SendResult, at: nat, id: Uuid)
    requires rpcMax > 0 && DistinctPeers(peers)
    ensures ToPeer(PlaneLog(batches, peers, selfId, rpcMax, results, at), id)
            == if Selected(peers, id) && id != selfId then BatchesTo(id, batches, rpcMax, results, at) else []
    decreases |batches|
  {
    if batches != [] {
      PlaneLogToPeer(batches[1..], peers, selfId, rpcMax, results, at + 1, id);
      BatchLogToPeer(batches[0], at, peers, selfId, rpcMax, results, id);
      ToPeerAppend(BatchLog(batches[0], at, peers, selfId, rpcMax, results),
                   PlaneLog(batches[1..], peers, selfId, rpcMax, results, at + 1), id);
    }
  }

  /** What a peer's share leaves out: the events and digests of that peer, by their own fields. */
  lemma {:induction false} ShareLeavesOutOwnEvents(ms: seq<Message>, peer: Uuid, m: Message)
    ensures m in Filter(ms, NotAbout(peer)) <==> m in ms && !Names(m, peer)
  {
    if ms != [] {
      ShareLeavesOutOwnEvents(ms[1..], peer, m);
      TargetsThePeerItNames(ms[0], peer);
      assert ms == [ms[0]] + ms[1..];
    }
  }

  /** The log holds an RPC that takes the message to the peer. */
  ghost predicate Takes(log: seq<Rpc>, peer: Uuid, m: Message) {
    exists rpc :: rpc in log && rpc.peer == peer && m in rpc.chunk
  }

  lemma {:induction false} TakesIff(log: seq<Rpc>, peer: Uuid, m: Message)
    ensures Takes(log, peer, m) <==> m in Flatten(ToPeer(log, peer))
  {
    if log != [] {
      var before, rpc := log[..|log| - 1], log[|log| - 1];
      assert log == before + [rpc];
      TakesIff(before, peer, m);
      assert Takes(log, peer, m) <==> Takes(before, peer, m) || (rpc.peer == peer && m in rpc.chunk);
      if rpc.peer == peer {
        FlattenAppend(ToPeer(before, peer), [rpc.chunk]);
        assert [rpc.chunk][1..] == [];
      } else {
        assert ToPeer(log, peer) == ToPeer(before, peer);
      }
    }
  }

  // ----- Who gets anything -----

  /** Some RPC of the log went to the peer. */
  ghost predicate Reached(log: seq<Rpc>, peer: Uuid) {
    exists rpc :: rpc in log && rpc.peer == peer
  }

  lemma ReachedAppend(a: seq<Rpc>, b: seq<Rpc>, peer: Uuid)
    ensures Reached(a + b, peer) <==> Reached(a, peer) || Reached(b, peer)
  {
  }

  lemma ReachedByRpcs(to: Uuid, chunks: seq<seq<Message>>, peer: Uuid)
    ensures Reached(Rpcs(to, chunks), peer) <==> to == peer && chunks != []
  {
    if to == peer && chunks != [] {
      assert Rpcs(to, chunks)[0] in Rpcs(to, chunks);
    }
  }

  lemma SelectedOneMore(peers: seq<Peer>, id: Uuid)
    requires peers != []
    ensures Selected(peers, id) <==> Selected(peers[..|peers| - 1], id) || peers[|peers| - 1].id == id
  {
    var before := peers[..|peers| - 1];
    if Selected(before, id) {
      var i :| 0 <= i < |before| && before[i].id == id;
      assert peers[i].id == id;
    }
    if Selected(peers, id) {
      var i :| 0 <= i < |peers| && peers[i].id == id;
      assert i < |before| ==> before[i].id == id;
    }
  }

  lemma {:induction false} BatchReaches(batch: seq<Message>, at: nat, peers: seq<Peer>, selfId: Uuid, rpcMax: nat,
                                        results: (Uuid, nat, nat) -> SendResult, id: Uuid)
    requires rpcMax > 0
    ensures Reached(BatchLog(batch, at, peers, selfId, rpcMax, results), id) <==>
              Selected(peers, id) && id != selfId && Reaching(BatchChunks(id, batch, rpcMax), Fates(results, id, at), 0) != []
    decreases |peers|
  {
    if peers != [] {
      var before, peer := peers[..|peers| - 1], peers[|peers| - 1].id;
      BatchReaches(batch, at, before, selfId, rpcMax, results, id);
      SelectedOneMore(peers, id);
      var chunks := Reaching(BatchChunks(peer, batch, rpcMax), Fates(results, peer, at), 0);
      ReachedAppend(BatchLog(batch, at, before, selfId, rpcMax, results),
                    if peer == selfId then [] else Rpcs(peer, chunks), id);
      ReachedByRpcs(peer, chunks, id);
    }
  }

  /** The list has a message that is no event or digest of any node. */
  ghost predicate ForAll(ms: seq<Message>) {
    exists m :: m in ms && !m.Topology? && !m.SchedulerDigest?
  }

  lemma DeliveredReaches(batch: seq<Message>, rpcMax: nat, results: (Uuid, nat, nat) -> SendResult, at: nat, id: Uuid)
    requires rpcMax > 0 && ForAll(batch) && forall b: nat, c: nat :: results(id, b, c) == Delivered
    ensures Reaching(BatchChunks(id, batch, rpcMax), Fates(results, id, at), 0) != []
  {
    var m :| m in batch && !m.Topology? && !m.SchedulerDigest?;
    ShareLeavesOutOwnEvents(batch, id, m);
    var chunks := BatchChunks(id, batch, rpcMax);
    AllDelivered(chunks, Fates(results, id, at), 0);
  }

  /** With no send failure, a plane that has something for everyone reaches exactly the peers chosen for
      it, other than the local node. */
  lemma {:induction false} PlaneReaches(batches: seq<seq<Message>>, peers: seq<Peer>, selfId: Uuid, rpcMax: nat,
                                        results: (Uuid, nat, nat) -> SendResult, at: nat, id: Uuid)
    requires rpcMax > 0 && ForAll(Flatten(batches)) && forall b: nat, c: nat :: results(id, b, c) == Delivered
    ensures Reached(PlaneLog(batches, peers, selfId, rpcMax, results, at), id) <==> Selected(peers, id) && id != selfId
    decreases |batches|
  {
    var first, rest := batches[0], batches[1..];
    BatchReaches(first, at, peers, selfId, rpcMax, results, id);
    ReachedAppend(BatchLog(first, at, peers, selfId, rpcMax, results),
                  PlaneLog(rest, peers, selfId, rpcMax, results, at + 1), id);
    if ForAll(first) {
      DeliveredReaches(first, rpcMax, results, at, id);
    } else {
      PlaneReaches(rest, peers, selfId, rpcMax, results, at + 1, id);
    }
    PlaneReachesOnly(rest, peers, selfId, rpcMax, results, at + 1, id);
  }

  lemma {:induction false} PlaneReachesOnly(batches: seq<seq<Message>>, peers: seq<Peer>, selfId: Uuid, rpcMax: nat,
                                            results: (Uuid, nat, nat) -> SendResult, at: nat, id: Uuid)
    requires rpcMax > 0
    ensures Reached(PlaneLog(batches, peers, selfId, rpcMax, results, at), id) ==> Selected(peers, id) && id != selfId
    decreases |batches|
  {
    if batches != [] {
      BatchReaches(batches[0], at, peers, selfId, rpcMax, results, id);
      ReachedAppend(BatchLog(batches[0], at, peers, selfId, rpcMax, results),
                    PlaneLog(batches[1..], peers, selfId, rpcMax, results, at + 1), id);
      PlaneReachesOnly(batches[1..], peers, selfId, rpcMax, results, at + 1, id);
    }
  }
}

/** Which node runs the controller loop of a session: rendezvous hashing over the eligible nodes
    (src/agents/manager.rs). The hash of a session and node is a parameter. */
module AgentOwner {
  import opened Basics

  datatype PeerState = PeerState(id: Uuid, schedulable: bool, down: bool)

  function Elements(nodes: seq<Uuid>): set<Uuid> {
    set n | n in nodes
  }

  /** The nodes that may own a session, whatever the order the peers are listed in. */
  function Eligible(local: PeerState, peers: seq<PeerState>): set<Uuid> {
    (if local.schedulable && !local.down then {local.id} else {})
    + set p | p in peers && p.schedulable && !p.down :: p.id
  }

  predicate Ascending(nodes: seq<Uuid>) {
    forall i, j :: 0 <= i < j < |nodes| ==> nodes[i] < nodes[j]
  }

  /** Insertion into an ordered set, kept as the list of its elements. */
  function InsertNode(nodes: seq<Uuid>, n: Uuid): seq<Uuid> {
    if nodes == [] then [n]
    else
      var last := |nodes| - 1;
      if nodes[last] < n then nodes + [n]
      else if nodes[last] == n then nodes
      else InsertNode(nodes[..last], n) + [nodes[last]]
  }

  lemma AppendNode(front: seq<Uuid>, n: Uuid)
    requires Ascending(front) && forall m :: m in Elements(front) ==> m < n
    ensures Ascending(front + [n]) && Elements(front + [n]) == Elements(front) + {n}
  {
    forall i | 0 <= i < |front| ensures front[i] < n {
      assert front[i] in Elements(front);
    }
  }

  lemma SplitLast(nodes: seq<Uuid>)
    requires Ascending(nodes) && nodes != []
    ensures var last := |nodes| - 1;
            && Ascending(nodes[..last]) && nodes == nodes[..last] + [nodes[last]]
            && Elements(nodes) == Elements(nodes[..last]) + {nodes[last]}
            && (forall m :: m in Elements(nodes[..last]) ==> m < nodes[last])
  {
    var last := |nodes| - 1;
    assert nodes == nodes[..last] + [nodes[last]];
    forall m | m in Elements(nodes[..last]) ensures m < nodes[last] {
      var i :| 0 <= i < last && nodes[i] == m;
    }
  }

  lemma {:induction false} InsertNodeCorrect(nodes: seq<Uuid>, n: Uuid)
    requires Ascending(nodes)
    ensures Ascending(InsertNode(nodes, n)) && Elements(InsertNode(nodes, n)) == Elements(nodes) + {n}
  {
    if nodes != [] {
      var last := |nodes| - 1;
      SplitLast(nodes);
      if nodes[last] < n {
        AppendNode(nodes, n);
      } else if nodes[last] > n {
        InsertNodeCorrect(nodes[..last], n);
        AppendNode(InsertNode(nodes[..last], n), nodes[last]);
      }
    }
  }

  method BuildEligibleNodes(local: PeerState, peers: seq<PeerState>) returns (nodes: seq<Uuid>)
    ensures Ascending(nodes) && Elements(nodes) == Eligible(local, peers)
  {
    nodes := [];
    if local.schedulable && !local.down {
      nodes := InsertNode(nodes, local.id);
    }
    for i := 0 to |peers|
      invariant Ascending(nodes) && Elements(nodes) == Eligible(local, peers[..i])
    {
      var peer := peers[i];
      assert peers[..i + 1] == peers[..i] + [peer];
      if peer.schedulable && !peer.down {
        InsertNodeCorrect(nodes, peer.id);
        nodes := InsertNode(nodes, peer.id);
      }
    }
    assert peers[..|peers|] == peers;
  }

  // ----- The owner -----

  /** The first candidate with the greatest score. */
  function Owner(score: Uuid -> nat, candidates: seq<Uuid>): Option<Uuid> {
    if candidates == [] then None
    else
      var last := |candidates| - 1;
      var best := Owner(score, candidates[..last]);
      if best.None? || score(candidates[last]) > score(best.value) then Some(candidates[last]) else best
  }

  method SelectOwner(score: Uuid -> nat, candidates: seq<Uuid>) returns (owner: Option<Uuid>)
    ensures owner == Owner(score, candidates)
  {
    var best: Option<(Uuid, nat)> := None;
    for i := 0 to |candidates|
      invariant best.None? <==> Owner(score, candidates[..i]).None?
      invariant best.Some? ==> Owner(score, candidates[..i]) == Some(best.value.0) && best.value.1 == score(best.value.0)
    {
      var node := candidates[i];
      assert candidates[..i + 1][..i] == candidates[..i];
      var nodeScore := score(node);
      match best {
        case None => best := Some((node, nodeScore));
        case Some((_, bestScore)) =>
          if nodeScore > bestScore {
            best := Some((node, nodeScore));
          }
      }
    }
    assert candidates[..|candidates|] == candidates;
    owner := if best.None? then None else Some(best.value.0);
  }

  /** `o` has the greatest score of the nodes, and the smallest identifier among the greatest. */
  ghost predicate Wins(score: Uuid -> nat, nodes: set<Uuid>, o: Uuid) {
    o in nodes && forall n :: n in nodes ==> score(n) < score(o) || (score(n) == score(o) && o <= n)
  }

  lemma LargerNodeJoins(score: Uuid -> nat, nodes: set<Uuid>, o: Uuid, n: Uuid)
    requires Wins(score, nodes, o) && forall m :: m in nodes ==> m < n
    ensures Wins(score, nodes + {n}, if score(n) > score(o) then n else o)
  {
  }

  lemma OwnerOfAppended(score: Uuid -> nat, rest: seq<Uuid>, n: Uuid)
    ensures Owner(score, rest + [n]) ==
              var best := Owner(score, rest);
              if best.None? || score(n) > score(best.value) then Some(n) else best
  {
    assert (rest + [n])[..|rest|] == rest;
  }

  lemma {:induction false} OwnerWins(score: Uuid -> nat, candidates: seq<Uuid>)
    requires Ascending(candidates)
    ensures Owner(score, candidates).None? <==> candidates == []
    ensures candidates != [] ==> Wins(score, Elements(candidates), Owner(score, candidates).value)
  {
    if candidates != [] {
      var last := |candidates| - 1;
      var rest, n := candidates[..last], candidates[last];
      SplitLast(candidates);
      OwnerOfAppended(score, rest, n);
      OwnerWins(score, rest);
      if rest == [] {
        assert Elements(candidates) == {n};
      } else {
        LargerNodeJoins(score, Elements(rest), Owner(score, rest).value, n);
      }
    }
  }

  /** The winner is the owner: the owner depends on the set of nodes only. */
  lemma WinnerIsOwner(score: Uuid -> nat, candidates: seq<Uuid>, o: Uuid)
    requires Ascending(candidates) && Wins(score, Elements(candidates), o)
    ensures Owner(score, candidates) == Some(o)
  {
    OwnerWins(score, candidates);
    assert o in candidates;
    var best := Owner(score, candidates).value;
    assert best in Elements(candidates);
  }

  lemma NoElements(nodes: seq<Uuid>)
    ensures Elements(nodes) == {} <==> nodes == []
  {
    if nodes != [] {
      assert nodes[0] in Elements(nodes);
    }
  }

  /** Nodes with the same eligible set pick the same owner, however each lists its peers. */
  lemma OwnersAgree(score: Uuid -> nat, a: seq<Uuid>, b: seq<Uuid>)
    requires Ascending(a) && Ascending(b) && Elements(a) == Elements(b)
    ensures Owner(score, a) == Owner(score, b)
  {
    NoElements(a);
    NoElements(b);
    OwnerWins(score, a);
    OwnerWins(score, b);
    if a != [] {
      WinnerIsOwner(score, b, Owner(score, a).value);
    }
  }

  /** Losing any nodes other than the owner leaves the owner. */
  lemma OwnerSurvivesOthersLeaving(score: Uuid -> nat, a: seq<Uuid>, b: seq<Uuid>)
    requires Ascending(a) && Ascending(b) && Elements(b) <= Elements(a)
    requires Owner(score, a).Some? && Owner(score, a).value in Elements(b)
    ensures Owner(score, b) == Owner(score, a)
  {
    OwnerWins(score, a);
    WinnerIsOwner(score, b, Owner(score, a).value);
  }

  /** Gaining nodes leaves the owner or moves the session to one of the new nodes. */
  lemma OwnerMovesOnlyToNewNodes(score: Uuid -> nat, a: seq<Uuid>, b: seq<Uuid>)
    requires Ascending(a) && Ascending(b) && Elements(a) <= Elements(b)
    ensures Owner(score, b) == Owner(score, a)
            || (Owner(score, b).Some? && Owner(score, b).value in Elements(b) - Elements(a))
  {
    NoElements(a);
    NoElements(b);
    OwnerWins(score, b);
    if b != [] {
      var o := Owner(score, b).value;
      if o in Elements(a) {
        WinnerIsOwner(score, a, o);
      }
    }
  }

  predicate CanOwn(p: PeerState) {
    p.schedulable && !p.down
  }

  /** A session has an owner exactly when some node is schedulable and not down, and it is such a node. */
  lemma OwnerIsSchedulable(score: Uuid -> nat, local: PeerState, peers: seq<PeerState>, nodes: seq<Uuid>)
    requires Ascending(nodes) && Elements(nodes) == Eligible(local, peers)
    ensures Owner(score, nodes).Some? <==> exists p :: p in [local] + peers && CanOwn(p)
    ensures Owner(score, nodes).Some? ==> exists p :: p in [local] + peers && CanOwn(p) && p.id == Owner(score, nodes).value
  {
    OwnerWins(score, nodes);
    NoElements(nodes);
    forall p | p in [local] + peers && CanOwn(p) ensures p.id in Eligible(local, peers) {
    }
    forall o | o in Eligible(local, peers) ensures exists p :: p in [local] + peers && CanOwn(p) && p.id == o {
      if CanOwn(local) && o == local.id {
        assert local in [local] + peers;
      } else {
        var p :| p in peers && p.schedulable && !p.down && p.id == o;
        assert p in [local] + peers;
      }
    }
  }
}

/** Choosing the nodes of an ingress pool: filter, order, bound, and spread round-robin over the
    values of a node label (src/ingress/types.rs). */
module IngressSelection {
  import opened Basics
  import opened Lists
  import opened Sorting
  import P = IngressPool

  datatype Node = Node(nodeId: Uuid, hostname: string, address: string, labels: map<string, string>)

  function NodeKey(n: Node): Key {
    [Text(n.hostname), Num(n.nodeId)]
  }

  /** The value of a label; a node without the label has the empty value. */
  function LabelValue(n: Node, key: string): string {
    if key in n.labels then n.labels[key] else ""
  }

  function Labelled(key: string, value: string): Node -> bool {
    n => LabelValue(n, key) == value
  }

  // ----- Round robin over queues -----

  function Min(a: nat, b: nat): nat {
    if a <= b then a else b
  }

  function Head(q: seq<Node>): seq<Node> {
    if q == [] then [] else [q[0]]
  }

  /** The first node of every queue that has one, in queue order. */
  function Heads(qs: seq<seq<Node>>): seq<Node> {
    if qs == [] then []
    else
      var last := |qs| - 1;
      Heads(qs[..last]) + Head(qs[last])
  }

  function Tail(q: seq<Node>): seq<Node> {
    if q == [] then [] else q[1..]
  }

  function Tails(qs: seq<seq<Node>>): seq<seq<Node>> {
    seq(|qs|, i requires 0 <= i < |qs| => Tail(qs[i]))
  }

  function Total(qs: seq<seq<Node>>): nat {
    if qs == [] then 0 else Total(qs[..|qs| - 1]) + |qs[|qs| - 1]|
  }

  lemma AppendQueue(front: seq<seq<Node>>, q: seq<Node>)
    ensures Heads(front + [q]) == Heads(front) + Head(q)
    ensures Tails(front + [q]) == Tails(front) + [Tail(q)]
    ensures Total(front + [q]) == Total(front) + |q|
  {
    assert (front + [q])[..|front|] == front;
  }

  lemma {:induction false} HeadsAndTails(qs: seq<seq<Node>>)
    ensures |Heads(qs)| + Total(Tails(qs)) == Total(qs)
    ensures Heads(qs) == [] ==> Total(qs) == 0
  {
    if qs != [] {
      var front, q := qs[..|qs| - 1], qs[|qs| - 1];
      assert qs == front + [q];
      HeadsAndTails(front);
      AppendQueue(front, q);
      AppendQueue(Tails(front), Tail(q));
    }
  }

  /** Every queue drained round by round. */
  function Interleave(qs: seq<seq<Node>>): seq<Node>
    decreases Total(qs)
  {
    if Total(qs) == 0 then []
    else
      HeadsAndTails(qs);
      Heads(qs) + Interleave(Tails(qs))
  }

  lemma {:induction false} InterleaveLength(qs: seq<seq<Node>>)
    ensures |Interleave(qs)| == Total(qs)
    decreases Total(qs)
  {
    if Total(qs) != 0 {
      HeadsAndTails(qs);
      InterleaveLength(Tails(qs));
    }
  }

  lemma InterleaveUnfolds(qs: seq<seq<Node>>)
    ensures Interleave(qs) == Heads(qs) + Interleave(Tails(qs))
    ensures Heads(qs) == [] ==> Interleave(qs) == []
  {
    HeadsAndTails(qs);
  }

  /** Queues with the first `j` popped once. */
  function Popped(qs: seq<seq<Node>>, j: nat): seq<seq<Node>>
    requires j <= |qs|
  {
    Tails(qs[..j]) + qs[j..]
  }

  lemma {:induction false} HeadsPrefix(qs: seq<seq<Node>>, j: nat)
    requires j <= |qs|
    ensures Heads(qs[..j]) <= Heads(qs)
    decreases |qs|
  {
    if j < |qs| {
      assert qs[..|qs| - 1][..j] == qs[..j];
      HeadsPrefix(qs[..|qs| - 1], j);
    } else {
      assert qs[..j] == qs;
    }
  }

  lemma PoppedStep(qs: seq<seq<Node>>, j: nat)
    requires j < |qs|
    ensures Popped(qs, j)[j] == qs[j]
    ensures Popped(qs, j)[j := Tail(qs[j])] == Popped(qs, j + 1)
  {
  }

  lemma PoppedEmpty(qs: seq<seq<Node>>, j: nat)
    requires j < |qs| && qs[j] == []
    ensures Popped(qs, j) == Popped(qs, j + 1)
  {
    PoppedStep(qs, j);
  }

  lemma HeadsOfNext(qs: seq<seq<Node>>, j: nat)
    requires j < |qs|
    ensures Heads(qs[..j + 1]) == Heads(qs[..j]) + Head(qs[j])
  {
    assert qs[..j + 1][..j] == qs[..j];
  }

  lemma HeadsStep(before: seq<Node>, qs: seq<seq<Node>>, j: nat)
    requires j < |qs|
    ensures before + Heads(qs[..j + 1]) == before + Heads(qs[..j]) + Head(qs[j])
  {
    HeadsOfNext(qs, j);
  }

  /** A round that ends at the limit or after the last queue. */
  lemma RoundIsPrefix(done: seq<Node>, qs: seq<seq<Node>>, j: nat, all: seq<Node>)
    requires j <= |qs| && done + Interleave(qs) == all
    ensures done + Heads(qs[..j]) <= all
  {
    HeadsPrefix(qs, j);
    InterleaveUnfolds(qs);
  }

  /** One pass over the buckets, stopped at the limit; `j` buckets were visited. */
  method OneRound(start: seq<seq<Node>>, before: seq<Node>, limit: nat)
    returns (buckets: seq<seq<Node>>, selected: seq<Node>, advanced: bool, ghost j: nat)
    requires |before| < limit
    ensures j <= |start| && buckets == Popped(start, j) && selected == before + Heads(start[..j])
    ensures advanced <==> selected != before
    ensures |selected| <= limit && (|selected| < limit ==> j == |start|)
  {
    buckets, selected, advanced := start, before, false;
    assert start[..0] == [];
    var i := 0;
    while i < |buckets| && |selected| < limit
      invariant i <= |buckets| == |start| && |selected| <= limit
      invariant buckets == Popped(start, i) && selected == before + Heads(start[..i])
      invariant advanced <==> selected != before
    {
      PoppedStep(start, i);
      HeadsStep(before, start, i);
      if buckets[i] == [] {
        PoppedEmpty(start, i);
      } else {
        selected := selected + [buckets[i][0]];
        buckets := buckets[i := buckets[i][1..]];
        advanced := true;
      }
      i := i + 1;
    }
    j := i;
  }

  /** Takes nodes round by round. The exit for a round that finds nothing is taken exactly when the
      limit is beyond the number of nodes. */
  method RoundRobin(queues: seq<seq<Node>>, limit: nat) returns (selected: seq<Node>, exhausted: bool)
    ensures |Interleave(queues)| == Total(queues)
    ensures selected == Interleave(queues)[..Min(limit, Total(queues))]
    ensures exhausted <==> limit > Total(queues)
  {
    ghost var all := Interleave(queues);
    InterleaveLength(queues);
    var buckets := queues;
    selected, exhausted := [], false;
    while |selected| < limit
      invariant |selected| <= limit && selected <= all && !exhausted
      invariant |selected| < limit ==> selected + Interleave(buckets) == all
      decreases limit - |selected|
    {
      var after, more, advanced, j := OneRound(buckets, selected, limit);
      RoundIsPrefix(selected, buckets, j, all);
      RoundAdvances(selected, buckets, j, all, more, limit);
      buckets, selected := after, more;
      if !advanced {
        exhausted := true;
        break;
      }
    }
  }

  lemma Joined(a: seq<Node>, b: seq<Node>, c: seq<Node>)
    ensures a + b + c == a + (b + c) && |a + b| == |a| + |b|
  {
  }

  lemma FullRound(before: seq<Node>, start: seq<seq<Node>>)
    ensures before + Heads(start) + Interleave(Tails(start)) == before + Interleave(start)
    ensures before + Heads(start) == before ==> Interleave(start) == []
  {
    InterleaveUnfolds(start);
    Joined(before, Heads(start), Interleave(Tails(start)));
  }

  /** A round short of the limit has gone through every queue; if it found nothing, nothing is
      left. */
  lemma RoundAdvances(before: seq<Node>, start: seq<seq<Node>>, j: nat, all: seq<Node>, selected: seq<Node>, limit: nat)
    requires j <= |start| && before + Interleave(start) == all && selected == before + Heads(start[..j])
    requires |before| < limit && (|selected| < limit ==> j == |start|)
    ensures |selected| < limit ==> selected + Interleave(Popped(start, j)) == all
    ensures selected == before ==> selected == all
  {
    if |selected| < limit {
      assert start[..j] == start && Popped(start, j) == Tails(start);
      FullRound(before, start);
    }
  }

  // ----- Fair shares -----

  /** Queue `i` holds only nodes with the `i`-th value, and the values are distinct. */
  ghost predicate Sorted(qs: seq<seq<Node>>, values: seq<string>, key: string) {
    && |qs| == |values|
    && (forall i, j :: 0 <= i < j < |values| ==> values[i] != values[j])
    && (forall i, n :: 0 <= i < |qs| && n in qs[i] ==> LabelValue(n, key) == values[i])
  }

  /** The node has the label with the value, or lacks it and the value is empty. */
  predicate HasLabel(n: Node, key: string, value: string) {
    if key in n.labels then n.labels[key] == value else value == ""
  }

  /** How many of the nodes have the value. */
  function Share(nodes: seq<Node>, key: string, value: string): nat {
    if nodes == [] then 0
    else
      var last := |nodes| - 1;
      Share(nodes[..last], key, value) + if HasLabel(nodes[last], key, value) then 1 else 0
  }

  lemma {:induction false} ShareAppend(a: seq<Node>, b: seq<Node>, key: string, value: string)
    ensures Share(a + b, key, value) == Share(a, key, value) + Share(b, key, value)
    decreases |b|
  {
    if b == [] {
      assert a + b == a;
    } else {
      var last := |b| - 1;
      assert (a + b)[..|a + b| - 1] == a + b[..last];
      ShareAppend(a, b[..last], key, value);
    }
  }

  lemma {:induction false} ShareIsFilter(nodes: seq<Node>, key: string, value: string)
    ensures Share(nodes, key, value) == |Filter(nodes, Labelled(key, value))|
  {
    if nodes != [] {
      var last := |nodes| - 1;
      ShareIsFilter(nodes[..last], key, value);
      FilterLast(nodes[..last], nodes[last], Labelled(key, value));
      assert nodes == nodes[..last] + [nodes[last]];
    }
  }

  lemma ShareOfHead(a: seq<Node>, q: seq<Node>, key: string, value: string, mine: string)
    requires AllLabelled(q, key, mine)
    ensures Share(a + Head(q), key, value) == Share(a, key, value) + if q != [] && mine == value then 1 else 0
  {
    if q == [] {
      assert a + Head(q) == a;
    } else {
      assert (a + [q[0]])[..|a|] == a && q[0] in q;
    }
  }

  ghost predicate AllLabelled(q: seq<Node>, key: string, value: string) {
    forall n :: n in q ==> LabelValue(n, key) == value
  }

  lemma SortedAt(qs: seq<seq<Node>>, values: seq<string>, key: string, i: nat, k: nat)
    requires Sorted(qs, values, key) && i < |qs| && k < |qs|
    ensures AllLabelled(qs[k], key, values[k]) && (values[i] == values[k] <==> i == k)
  {
  }

  lemma NextShare(qs: seq<seq<Node>>, k: nat, key: string, value: string, mine: string)
    requires k < |qs| && AllLabelled(qs[k], key, mine)
    ensures Share(Heads(qs[..k + 1]), key, value) ==
              Share(Heads(qs[..k]), key, value) + if qs[k] != [] && mine == value then 1 else 0
  {
    HeadsOfNext(qs, k);
    ShareOfHead(Heads(qs[..k]), qs[k], key, value, mine);
  }

  lemma OneMoreShare(qs: seq<seq<Node>>, values: seq<string>, key: string, i: nat, k: nat)
    requires Sorted(qs, values, key) && i < |qs| && k < |qs|
    ensures Share(Heads(qs[..k + 1]), key, values[i]) ==
              Share(Heads(qs[..k]), key, values[i]) + if i == k && qs[k] != [] then 1 else 0
  {
    SortedAt(qs, values, key, i, k);
    NextShare(qs, k, key, values[i], values[k]);
  }

  /** The first `k` queues give a round at most one node of each value. */
  lemma {:induction false} HeadsShare(qs: seq<seq<Node>>, values: seq<string>, key: string, i: nat, k: nat)
    requires Sorted(qs, values, key) && i < |qs| && k <= |qs|
    ensures Share(Heads(qs[..k]), key, values[i]) == if i < k && qs[i] != [] then 1 else 0
    decreases k
  {
    if k == 0 {
      assert Heads(qs[..0]) == [];
    } else {
      HeadsShare(qs, values, key, i, k - 1);
      OneMoreShare(qs, values, key, i, k - 1);
    }
  }

  /** A round cut short is a full round over the first queues. */
  lemma {:induction false} PartialRound(qs: seq<seq<Node>>, k: nat) returns (j: nat)
    requires k <= |Heads(qs)|
    ensures j <= |qs| && Heads(qs)[..k] == Heads(qs[..j])
  {
    if k == |Heads(qs)| {
      j := |qs|;
      assert qs[..j] == qs;
    } else {
      var last := |qs| - 1;
      j := PartialRound(qs[..last], k);
      assert qs[..last][..j] == qs[..j];
      assert Heads(qs)[..k] == Heads(qs[..last])[..k];
    }
  }

  /** After `r` full rounds and one more over the first `j` queues, every value has as many nodes
      as rounds reached it, or all it has. */
  ghost predicate Fair(selected: seq<Node>, qs: seq<seq<Node>>, values: seq<string>, key: string, r: nat, j: nat) {
    |qs| == |values| && forall i :: 0 <= i < |qs| ==>
      Share(selected, key, values[i]) == Min(|qs[i]|, if i < j then r + 1 else r)
  }

  lemma FirstRoundFair(qs: seq<seq<Node>>, values: seq<string>, key: string, j: nat)
    requires Sorted(qs, values, key) && j <= |qs|
    ensures Fair(Heads(qs[..j]), qs, values, key, 0, j)
  {
    forall i | 0 <= i < |qs| ensures Share(Heads(qs[..j]), key, values[i]) == Min(|qs[i]|, if i < j then 1 else 0) {
      HeadsShare(qs, values, key, i, j);
    }
  }

  lemma LaterRoundFair(qs: seq<seq<Node>>, values: seq<string>, key: string, more: seq<Node>, r: nat, j: nat)
    requires Sorted(qs, values, key) && Fair(more, Tails(qs), values, key, r, j)
    ensures Fair(Heads(qs) + more, qs, values, key, r + 1, j)
  {
    forall i | 0 <= i < |qs|
      ensures Share(Heads(qs) + more, key, values[i]) == Min(|qs[i]|, if i < j then r + 2 else r + 1)
    {
      ShareAppend(Heads(qs), more, key, values[i]);
      HeadsShare(qs, values, key, i, |qs|);
      assert qs[..|qs|] == qs;
      assert Tails(qs)[i] == Tail(qs[i]);
    }
  }

  lemma TailsSorted(qs: seq<seq<Node>>, values: seq<string>, key: string)
    requires Sorted(qs, values, key)
    ensures Sorted(Tails(qs), values, key)
  {
    forall i, n | 0 <= i < |qs| && n in Tails(qs)[i] ensures n in qs[i] {
      assert Tails(qs)[i] == Tail(qs[i]);
    }
  }

  lemma CutAfter(a: seq<Node>, b: seq<Node>, k: nat)
    requires k <= |a| + |b|
    ensures (a + b)[..k] == if k <= |a| then a[..k] else a + b[..k - |a|]
  {
  }

  /** Whatever the limit, round-robin is max-min fair. */
  lemma {:induction false} RoundRobinIsFair(qs: seq<seq<Node>>, values: seq<string>, key: string, limit: nat)
    returns (r: nat, j: nat)
    requires Sorted(qs, values, key) && limit <= |Interleave(qs)|
    ensures Fair(Interleave(qs)[..limit], qs, values, key, r, j)
    decreases Total(qs)
  {
    HeadsAndTails(qs);
    InterleaveUnfolds(qs);
    CutAfter(Heads(qs), Interleave(Tails(qs)), limit);
    if limit <= |Heads(qs)| {
      r := 0;
      j := PartialRound(qs, limit);
      FirstRoundFair(qs, values, key, j);
    } else {
      var rest := limit - |Heads(qs)|;
      TailsSorted(qs, values, key);
      r, j := RoundRobinIsFair(Tails(qs), values, key, rest);
      LaterRoundFair(qs, values, key, Interleave(Tails(qs))[..rest], r, j);
      r := r + 1;
    }
  }

  // ----- Buckets -----

  datatype Bucket = Bucket(value: string, nodes: seq<Node>)

  /** Adds a node to the bucket of its value, creating it in its place among the ordered values. */
  function AddTo(buckets: seq<Bucket>, value: string, n: Node): seq<Bucket> {
    if buckets == [] then [Bucket(value, [n])]
    else if buckets[0].value == value then [Bucket(value, buckets[0].nodes + [n])] + buckets[1..]
    else if CompareText(value, buckets[0].value) == Less then [Bucket(value, [n])] + buckets
    else [buckets[0]] + AddTo(buckets[1..], value, n)
  }

  function Group(nodes: seq<Node>, key: string): seq<Bucket> {
    if nodes == [] then []
    else
      var last := |nodes| - 1;
      AddTo(Group(nodes[..last], key), LabelValue(nodes[last], key), nodes[last])
  }

  function Queues(buckets: seq<Bucket>): seq<seq<Node>> {
    seq(|buckets|, i requires 0 <= i < |buckets| => buckets[i].nodes)
  }

  function Values(buckets: seq<Bucket>): seq<string> {
    seq(|buckets|, i requires 0 <= i < |buckets| => buckets[i].value)
  }

  ghost predicate Ordered(buckets: seq<Bucket>) {
    forall i, j :: 0 <= i < j < |buckets| ==> CompareText(buckets[i].value, buckets[j].value) == Less
  }

  /** The nodes filed under a value. */
  function FiledUnder(buckets: seq<Bucket>, value: string): seq<Node> {
    if buckets == [] then []
    else if buckets[0].value == value then buckets[0].nodes
    else FiledUnder(buckets[1..], value)
  }

  lemma {:induction false} AddToFiles(buckets: seq<Bucket>, value: string, n: Node, other: string)
    requires Ordered(buckets)
    ensures FiledUnder(AddTo(buckets, value, n), other) == FiledUnder(buckets, other) + if other == value then [n] else []
  {
    if buckets != [] {
      var b, rest := buckets[0], buckets[1..];
      if b.value == value {
        assert ([Bucket(value, b.nodes + [n])] + rest)[1..] == rest;
      } else if CompareText(value, b.value) == Less {
        assert ([Bucket(value, [n])] + buckets)[1..] == buckets;
        NotFiledBelow(buckets, value);
      } else {
        AddToFiles(rest, value, n, other);
        assert ([b] + AddTo(rest, value, n))[1..] == AddTo(rest, value, n);
      }
    }
  }

  /** A value below the first is not filed. */
  lemma {:induction false} NotFiledBelow(buckets: seq<Bucket>, value: string)
    requires Ordered(buckets) && buckets != [] && CompareText(value, buckets[0].value) == Less
    ensures FiledUnder(buckets, value) == []
  {
    CompareTextLaws(value, buckets[0].value);
    var rest := buckets[1..];
    if rest != [] {
      CompareTextTransitive(value, buckets[0].value, rest[0].value);
      NotFiledBelow(rest, value);
    }
  }

  lemma PrependOrdered(b: Bucket, rest: seq<Bucket>)
    requires Ordered(rest) && (rest != [] ==> CompareText(b.value, rest[0].value) == Less)
    ensures Ordered([b] + rest)
  {
    forall j | 0 <= j < |rest| ensures CompareText(b.value, rest[j].value) == Less {
      if j > 0 {
        CompareTextTransitive(b.value, rest[0].value, rest[j].value);
      }
    }
  }

  lemma {:induction false} AddToOrdered(buckets: seq<Bucket>, value: string, n: Node)
    requires Ordered(buckets)
    ensures Ordered(AddTo(buckets, value, n)) && AddTo(buckets, value, n) != []
    ensures AddTo(buckets, value, n)[0].value == value
            || (buckets != [] && AddTo(buckets, value, n)[0].value == buckets[0].value)
  {
    if buckets != [] {
      var b, rest := buckets[0], buckets[1..];
      CompareTextLaws(b.value, value);
      if b.value == value {
        PrependOrdered(Bucket(value, b.nodes + [n]), rest);
      } else if CompareText(value, b.value) == Less {
        PrependOrdered(Bucket(value, [n]), buckets);
      } else {
        AddToOrdered(rest, value, n);
        PrependOrdered(b, AddTo(rest, value, n));
      }
    }
  }

  function Contents(buckets: seq<Bucket>): multiset<Node> {
    multiset(Flatten(Queues(buckets)))
  }

  lemma ContentsOf(b: Bucket, rest: seq<Bucket>)
    ensures Contents([b] + rest) == multiset(b.nodes) + Contents(rest)
  {
    var qs := Queues([b] + rest);
    assert qs[0] == b.nodes && qs[1..] == Queues(rest);
  }

  lemma {:induction false} AddToTotal(buckets: seq<Bucket>, value: string, n: Node)
    ensures Contents(AddTo(buckets, value, n)) == Contents(buckets) + multiset{n}
  {
    if buckets == [] {
      ContentsOf(Bucket(value, [n]), []);
      assert [Bucket(value, [n])] + [] == [Bucket(value, [n])];
    } else {
      var b, rest := buckets[0], buckets[1..];
      ContentsOf(b, rest);
      assert buckets == [b] + rest;
      if b.value == value {
        ContentsOf(Bucket(value, b.nodes + [n]), rest);
      } else if CompareText(value, b.value) == Less {
        ContentsOf(Bucket(value, [n]), buckets);
      } else {
        AddToTotal(rest, value, n);
        ContentsOf(b, AddTo(rest, value, n));
      }
    }
  }

  /** The buckets are in order of their values. */
  lemma {:induction false} GroupOrdered(nodes: seq<Node>, key: string)
    ensures Ordered(Group(nodes, key))
  {
    if nodes != [] {
      var last := |nodes| - 1;
      GroupOrdered(nodes[..last], key);
      AddToOrdered(Group(nodes[..last], key), LabelValue(nodes[last], key), nodes[last]);
    }
  }

  /** Every node is filed under its own value, in the order given. */
  lemma {:induction false} GroupFiles(nodes: seq<Node>, key: string, value: string)
    ensures FiledUnder(Group(nodes, key), value) == Filter(nodes, Labelled(key, value))
  {
    if nodes != [] {
      var last := |nodes| - 1;
      var before, n := nodes[..last], nodes[last];
      GroupFiles(before, key, value);
      GroupOrdered(before, key);
      AddToFiles(Group(before, key), LabelValue(n, key), n, value);
      FilterLast(before, n, Labelled(key, value));
      assert nodes == before + [n];
    }
  }

  /** The buckets hold the nodes and nothing else. */
  lemma {:induction false} GroupTotal(nodes: seq<Node>, key: string)
    ensures Contents(Group(nodes, key)) == multiset(nodes)
  {
    if nodes != [] {
      var last := |nodes| - 1;
      GroupTotal(nodes[..last], key);
      OneMoreInGroup(nodes[..last], nodes[last], key);
      assert nodes == nodes[..last] + [nodes[last]];
    }
  }

  lemma OneMoreInGroup(before: seq<Node>, n: Node, key: string)
    ensures Contents(Group(before + [n], key)) == Contents(Group(before, key)) + multiset{n}
  {
    assert (before + [n])[..|before|] == before;
    AddToTotal(Group(before, key), LabelValue(n, key), n);
  }

  lemma {:induction false} BucketIsFiled(buckets: seq<Bucket>, i: nat)
    requires Ordered(buckets) && i < |buckets|
    ensures FiledUnder(buckets, buckets[i].value) == buckets[i].nodes
  {
    if i > 0 {
      CompareTextLaws(buckets[0].value, buckets[i].value);
      BucketIsFiled(buckets[1..], i - 1);
    }
  }

  lemma {:induction false} FilterHolds(nodes: seq<Node>, keep: Node -> bool)
    ensures forall n :: n in Filter(nodes, keep) ==> keep(n)
  {
    if nodes != [] {
      FilterHolds(nodes[1..], keep);
    }
  }

  lemma GroupSorted(nodes: seq<Node>, key: string)
    ensures Sorted(Queues(Group(nodes, key)), Values(Group(nodes, key)), key)
    ensures forall i :: 0 <= i < |Group(nodes, key)| ==>
              Group(nodes, key)[i].nodes == Filter(nodes, Labelled(key, Group(nodes, key)[i].value))
  {
    var buckets := Group(nodes, key);
    GroupOrdered(nodes, key);
    forall i | 0 <= i < |buckets|
      ensures buckets[i].nodes == Filter(nodes, Labelled(key, buckets[i].value))
      ensures forall n :: n in buckets[i].nodes ==> LabelValue(n, key) == buckets[i].value
    {
      GroupFiles(nodes, key, buckets[i].value);
      BucketIsFiled(buckets, i);
      FilterHolds(nodes, Labelled(key, buckets[i].value));
    }
    forall i, j | 0 <= i < j < |buckets| ensures buckets[i].value != buckets[j].value {
      CompareTextLaws(buckets[i].value, buckets[j].value);
    }
  }

  method GroupNodes(nodes: seq<Node>, key: string) returns (buckets: seq<Bucket>)
    ensures buckets == Group(nodes, key)
  {
    buckets := [];
    for i := 0 to |nodes|
      invariant buckets == Group(nodes[..i], key)
    {
      assert nodes[..i + 1][..i] == nodes[..i];
      buckets := AddTo(buckets, LabelValue(nodes[i], key), nodes[i]);
    }
    assert nodes[..|nodes|] == nodes;
  }

  // ----- What is drained is what was there -----

  lemma {:induction false} TotalIsLength(qs: seq<seq<Node>>)
    ensures Total(qs) == |Flatten(qs)|
  {
    if qs != [] {
      var last := |qs| - 1;
      TotalIsLength(qs[..last]);
      FlattenLast(qs[..last], qs[last]);
      assert qs == qs[..last] + [qs[last]];
    }
  }

  lemma QueueSplits(q: seq<Node>)
    ensures multiset(q) == multiset(Head(q)) + multiset(Tail(q))
  {
    assert q == Head(q) + Tail(q);
  }

  lemma OneMoreQueue(f: seq<Node>, h: seq<Node>, rest: seq<Node>, q: seq<Node>)
    requires multiset(f) == multiset(h) + multiset(rest)
    ensures multiset(f + q) == multiset(h + Head(q)) + multiset(rest + Tail(q))
  {
    QueueSplits(q);
  }

  lemma LastQueue(qs: seq<seq<Node>>)
    requires qs != []
    ensures var last := |qs| - 1;
            && Flatten(qs) == Flatten(qs[..last]) + qs[last]
            && Flatten(Tails(qs)) == Flatten(Tails(qs[..last])) + Tail(qs[last])
  {
    var last := |qs| - 1;
    assert qs == qs[..last] + [qs[last]];
    FlattenLast(qs[..last], qs[last]);
    assert Tails(qs) == Tails(qs[..last]) + [Tail(qs[last])];
    FlattenLast(Tails(qs[..last]), Tail(qs[last]));
  }

  lemma {:induction false} RoundContents(qs: seq<seq<Node>>)
    ensures multiset(Flatten(qs)) == multiset(Heads(qs)) + multiset(Flatten(Tails(qs)))
  {
    if qs != [] {
      var front, q := qs[..|qs| - 1], qs[|qs| - 1];
      RoundContents(front);
      LastQueue(qs);
      OneMoreQueue(Flatten(front), Heads(front), Flatten(Tails(front)), q);
    }
  }

  lemma FlattenLast(front: seq<seq<Node>>, q: seq<Node>)
    ensures Flatten(front + [q]) == Flatten(front) + q
  {
    FlattenAppend(front, [q]);
    assert [q][1..] == [];
  }

  lemma {:induction false} InterleaveContents(qs: seq<seq<Node>>)
    ensures multiset(Interleave(qs)) == multiset(Flatten(qs))
    decreases Total(qs)
  {
    RoundContents(qs);
    TotalIsLength(qs);
    if Total(qs) != 0 {
      HeadsAndTails(qs);
      InterleaveContents(Tails(qs));
    }
  }

  // ----- The whole selection -----

  /** The matching candidates, by host name and then identifier. */
  function Eligible(candidates: seq<Node>, matches: Node -> bool): seq<Node> {
    SortByKey(Filter(candidates, matches), NodeKey)
  }

  function SortedQueues(buckets: seq<Bucket>): seq<seq<Node>> {
    seq(|buckets|, i requires 0 <= i < |buckets| => SortByKey(buckets[i].nodes, NodeKey))
  }

  /** The order in which nodes are taken. */
  function Ranking(eligible: seq<Node>, spreadBy: Option<string>): seq<Node> {
    match spreadBy
    case None => eligible
    case Some(key) => Interleave(SortedQueues(Group(eligible, key)))
  }

  function Limit(maxNodes: Option<nat>, eligible: nat): nat {
    if maxNodes.Some? then Min(maxNodes.value, eligible) else eligible
  }

  lemma {:induction false} SortedStays(s: seq<Node>)
    requires SortedByKey(s, NodeKey)
    ensures SortByKey(s, NodeKey) == s
  {
    if s != [] {
      var last := |s| - 1;
      SortedStays(s[..last]);
      assert s == s[..last] + [s[last]];
    }
  }

  lemma {:induction false} FilterSorted(s: seq<Node>, keep: Node -> bool)
    requires SortedByKey(s, NodeKey)
    ensures SortedByKey(Filter(s, keep), NodeKey)
  {
    if s != [] {
      FilterSorted(s[1..], keep);
      FilterSubset(s[1..], keep);
      var rest := Filter(s[1..], keep);
      forall i | 0 <= i < |rest| ensures CompareKeys(NodeKey(s[0]), NodeKey(rest[i])) != Greater {
        assert rest[i] in s[1..];
        var k :| 0 <= k < |s[1..]| && s[1..][k] == rest[i];
        assert s[k + 1] == rest[i];
      }
    }
  }

  /** Sorting the buckets again changes nothing. */
  lemma BucketsAreSorted(eligible: seq<Node>, key: string)
    requires SortedByKey(eligible, NodeKey)
    ensures SortedQueues(Group(eligible, key)) == Queues(Group(eligible, key))
  {
    var buckets := Group(eligible, key);
    GroupSorted(eligible, key);
    forall i | 0 <= i < |buckets| ensures SortByKey(buckets[i].nodes, NodeKey) == buckets[i].nodes {
      FilterSorted(eligible, Labelled(key, buckets[i].value));
      SortedStays(buckets[i].nodes);
    }
  }

  lemma RankingContents(eligible: seq<Node>, spreadBy: Option<string>)
    requires SortedByKey(eligible, NodeKey)
    ensures multiset(Ranking(eligible, spreadBy)) == multiset(eligible) && |Ranking(eligible, spreadBy)| == |eligible|
  {
    if spreadBy.Some? {
      BucketsAreSorted(eligible, spreadBy.value);
      GroupTotal(eligible, spreadBy.value);
      InterleaveContents(Queues(Group(eligible, spreadBy.value)));
      SameSize(Ranking(eligible, spreadBy), eligible);
    }
  }

  lemma EligibleSorted(candidates: seq<Node>, matches: Node -> bool)
    ensures SortedByKey(Eligible(candidates, matches), NodeKey)
    ensures multiset(Eligible(candidates, matches)) == multiset(Filter(candidates, matches))
  {
    SortByKeyCorrect(Filter(candidates, matches), NodeKey);
  }

  /** The nodes of the pool. */
  function Selection(pool: P.Pool, matches: Node -> bool, candidates: seq<Node>): seq<Node> {
    var eligible := Eligible(candidates, matches);
    EligibleSorted(candidates, matches);
    RankingContents(eligible, pool.spreadBy);
    Ranking(eligible, pool.spreadBy)[..Limit(pool.maxNodes, |eligible|)]
  }

  method SelectSpreadNodes(eligible: seq<Node>, key: string, limit: nat) returns (selected: seq<Node>, exhausted: bool)
    ensures var ranking := Interleave(SortedQueues(Group(eligible, key)));
            selected == ranking[..Min(limit, |ranking|)] && (exhausted <==> limit > |ranking|)
  {
    var buckets := GroupNodes(eligible, key);
    var queues: seq<seq<Node>> := [];
    for i := 0 to |buckets|
      invariant queues == SortedQueues(buckets)[..i]
    {
      queues := queues + [SortByKey(buckets[i].nodes, NodeKey)];
    }
    assert queues == SortedQueues(buckets);
    selected, exhausted := RoundRobin(queues, limit);
  }

  /** The bound is never beyond the nodes, so the exit for an empty round is never taken. */
  method SelectIngressPoolNodes(pool: P.Pool, matches: Node -> bool, candidates: seq<Node>)
    returns (selected: seq<Node>, exhausted: bool)
    ensures selected == Selection(pool, matches, candidates)
    ensures !exhausted
  {
    var eligible := SortByKey(Filter(candidates, matches), NodeKey);
    var limit := Limit(pool.maxNodes, |eligible|);
    EligibleSorted(candidates, matches);
    RankingContents(eligible, pool.spreadBy);
    match pool.spreadBy {
      case Some(key) =>
        selected, exhausted := SelectSpreadNodes(eligible, key, limit);
      case None => selected, exhausted := eligible[..limit], false;
    }
  }

  // ----- What the selection promises -----

  lemma {:induction false} PrefixContents(s: seq<Node>, k: nat)
    requires k <= |s|
    ensures multiset(s[..k]) <= multiset(s)
  {
    assert s == s[..k] + s[k..];
  }

  /** As many nodes as the bound and the candidates allow, all of them eligible, and none more often
      than it is a candidate. */
  lemma SelectionIsExact(pool: P.Pool, matches: Node -> bool, candidates: seq<Node>)
    ensures pool.maxNodes.Some? ==> |Selection(pool, matches, candidates)| <= pool.maxNodes.value
    ensures |Selection(pool, matches, candidates)| <= |Filter(candidates, matches)|
    ensures || |Selection(pool, matches, candidates)| == |Filter(candidates, matches)|
            || (pool.maxNodes.Some? && |Selection(pool, matches, candidates)| == pool.maxNodes.value)
    ensures multiset(Selection(pool, matches, candidates)) <= multiset(Filter(candidates, matches))
  {
    var eligible := Eligible(candidates, matches);
    EligibleSorted(candidates, matches);
    RankingContents(eligible, pool.spreadBy);
    SameSize(eligible, Filter(candidates, matches));
    PrefixContents(Ranking(eligible, pool.spreadBy), Limit(pool.maxNodes, |eligible|));
  }

  /** A pool with a smaller bound selects a prefix of what a larger bound selects. */
  lemma SmallerBoundIsPrefix(pool: P.Pool, smaller: nat, matches: Node -> bool, candidates: seq<Node>)
    requires pool.maxNodes.Some? ==> smaller <= pool.maxNodes.value
    ensures Selection(pool.(maxNodes := Some(smaller)), matches, candidates) <= Selection(pool, matches, candidates)
  {
    var eligible := Eligible(candidates, matches);
    EligibleSorted(candidates, matches);
    RankingContents(eligible, pool.spreadBy);
  }

  lemma {:induction false} FilterContents(a: seq<Node>, keep: Node -> bool, n: Node)
    ensures multiset(Filter(a, keep))[n] == if keep(n) then multiset(a)[n] else 0
  {
    if a != [] {
      FilterContents(a[1..], keep, n);
      assert a == [a[0]] + a[1..];
    }
  }

  /** A node identifier names one node. */
  ghost predicate IdsIdentify(candidates: seq<Node>) {
    forall m, n :: m in candidates && n in candidates && m.nodeId == n.nodeId ==> m == n
  }

  /** The selection does not depend on the order of the candidates. */
  lemma SelectionIgnoresOrder(pool: P.Pool, matches: Node -> bool, a: seq<Node>, b: seq<Node>)
    requires multiset(a) == multiset(b) && IdsIdentify(a)
    ensures Selection(pool, matches, a) == Selection(pool, matches, b)
  {
    var fa, fb := Filter(a, matches), Filter(b, matches);
    forall n ensures multiset(fa)[n] == multiset(fb)[n] {
      FilterContents(a, matches, n);
      FilterContents(b, matches, n);
    }
    FilterSubset(a, matches);
    forall x, y | x in fa && y in fa && NodeKey(x) == NodeKey(y) ensures x == y {
      assert NodeKey(x)[1] == NodeKey(y)[1];
    }
    SortIgnoresInputOrder(fa, fb, NodeKey);
  }

  /** How many of the candidates match and have the value. */
  function Supply(candidates: seq<Node>, matches: Node -> bool, key: string, value: string): nat {
    Share(Filter(candidates, matches), key, value)
  }

  /** Every value's share is what `r` rounds give it, or one more, or all it has. */
  ghost predicate FairShares(selected: seq<Node>, candidates: seq<Node>, matches: Node -> bool, key: string, r: nat) {
    forall value ::
      var supply := Supply(candidates, matches, key, value);
      Share(selected, key, value) == Min(supply, r) || Share(selected, key, value) == Min(supply, r + 1)
  }

  lemma {:induction false} FiledMeansListed(buckets: seq<Bucket>, value: string)
    requires FiledUnder(buckets, value) != []
    ensures exists i :: 0 <= i < |buckets| && buckets[i].value == value
  {
    if buckets[0].value != value {
      FiledMeansListed(buckets[1..], value);
      var i :| 0 <= i < |buckets[1..]| && buckets[1..][i].value == value;
      assert buckets[i + 1].value == value;
    }
  }

  lemma ShareWithin(s: seq<Node>, k: nat, key: string, value: string)
    requires k <= |s|
    ensures Share(s[..k], key, value) <= Share(s, key, value)
  {
    assert s == s[..k] + s[k..];
    ShareAppend(s[..k], s[k..], key, value);
  }

  /** The share of one value, from the fairness of the queues. */
  lemma ShareOfValue(eligible: seq<Node>, key: string, selected: seq<Node>, r: nat, j: nat, value: string)
    requires var buckets := Group(eligible, key); Fair(selected, Queues(buckets), Values(buckets), key, r, j)
    requires Share(selected, key, value) <= Share(eligible, key, value)
    ensures var supply := Share(eligible, key, value);
            Share(selected, key, value) == Min(supply, r) || Share(selected, key, value) == Min(supply, r + 1)
  {
    var buckets := Group(eligible, key);
    GroupFiles(eligible, key, value);
    ShareIsFilter(eligible, key, value);
    if FiledUnder(buckets, value) != [] {
      FiledMeansListed(buckets, value);
      var i :| 0 <= i < |buckets| && buckets[i].value == value;
      GroupOrdered(eligible, key);
      BucketIsFiled(buckets, i);
      assert Queues(buckets)[i] == buckets[i].nodes && Values(buckets)[i] == value;
    }
  }

  lemma SameShare(a: seq<Node>, b: seq<Node>, key: string, value: string)
    requires multiset(a) == multiset(b)
    ensures Share(a, key, value) == Share(b, key, value)
  {
    var keep := Labelled(key, value);
    forall n ensures multiset(Filter(a, keep))[n] == multiset(Filter(b, keep))[n] {
      FilterContents(a, keep, n);
      FilterContents(b, keep, n);
    }
    SameSize(Filter(a, keep), Filter(b, keep));
    ShareIsFilter(a, key, value);
    ShareIsFilter(b, key, value);
  }

  /** Spreading is max-min fair over the label values: there is a number of rounds that every
      value's share matches, give or take the last round. */
  lemma SpreadIsFair(pool: P.Pool, matches: Node -> bool, candidates: seq<Node>) returns (r: nat)
    requires pool.spreadBy.Some?
    ensures FairShares(Selection(pool, matches, candidates), candidates, matches, pool.spreadBy.value, r)
  {
    var eligible, key := Eligible(candidates, matches), pool.spreadBy.value;
    var qs, values := Queues(Group(eligible, key)), Values(Group(eligible, key));
    var selected, limit := Selection(pool, matches, candidates), Limit(pool.maxNodes, |eligible|);
    var ranking := Ranking(eligible, pool.spreadBy);
    EligibleSorted(candidates, matches);
    RankingContents(eligible, pool.spreadBy);
    BucketsAreSorted(eligible, key);
    GroupSorted(eligible, key);
    var j;
    r, j := RoundRobinIsFair(qs, values, key, limit);
    forall value
      ensures var supply := Supply(candidates, matches, key, value);
              Share(selected, key, value) == Min(supply, r) || Share(selected, key, value) == Min(supply, r + 1)
    {
      ShareWithin(ranking, limit, key, value);
      SameShare(ranking, eligible, key, value);
      SameShare(eligible, Filter(candidates, matches), key, value);
      ShareOfValue(eligible, key, selected, r, j, value);
    }
  }

  /** The pool has enough nodes. */
  predicate IsReady(pool: P.Pool, selected: seq<Node>) {
    |selected| >= pool.minNodes
  }

  /** A pool is ready exactly when enough candidates match and its bound lets enough be taken; for a
      validated pool the bound always does. */
  lemma ReadyIff(pool: P.Pool, matches: Node -> bool, candidates: seq<Node>)
    ensures IsReady(pool, Selection(pool, matches, candidates)) <==>
              && |Filter(candidates, matches)| >= pool.minNodes
              && (pool.maxNodes.Some? ==> pool.maxNodes.value >= pool.minNodes)
    ensures P.Validated(pool) ==>
              (IsReady(pool, Selection(pool, matches, candidates)) <==> |Filter(candidates, matches)| >= pool.minNodes)
  {
    SelectionIsExact(pool, matches, candidates);
  }
}

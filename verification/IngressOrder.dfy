/** Which of the matching nodes an ingress pool takes: the first by host name and identifier, within
    each label value when it spreads, and values in dictionary order (src/ingress/types.rs). */
module IngressOrder {
  import opened Basics
  import opened Lists
  import opened Sorting
  import opened IngressSelection
  import P = IngressPool

  /** The host name decides, then the identifier. */
  predicate Precedes(a: Node, b: Node) {
    CompareText(a.hostname, b.hostname) == Less || (a.hostname == b.hostname && a.nodeId <= b.nodeId)
  }

  lemma NodeKeyByFields(a: Node, b: Node)
    ensures CompareKeys(NodeKey(a), NodeKey(b)) != Greater <==> Precedes(a, b)
  {
    assert NodeKey(a) == [Text(a.hostname)] + [Num(a.nodeId)] && NodeKey(b) == [Text(b.hostname)] + [Num(b.nodeId)];
    CompareHead(Text(a.hostname), [Num(a.nodeId)], Text(b.hostname), [Num(b.nodeId)]);
    assert [Num(a.nodeId)] == [Num(a.nodeId)] + [] && [Num(b.nodeId)] == [Num(b.nodeId)] + [];
    CompareHead(Num(a.nodeId), [], Num(b.nodeId), []);
    CompareTextLaws(a.hostname, b.hostname);
  }

  // ----- Each value's nodes in order -----

  lemma InFilter(s: seq<Node>, keep: Node -> bool, n: Node)
    ensures n in Filter(s, keep) <==> n in s && keep(n)
  {
    FilterContents(s, keep, n);
    assert n in Filter(s, keep) <==> n in multiset(Filter(s, keep));
  }

  lemma {:induction false} HeadsAreFirst(qs: seq<seq<Node>>, n: Node)
    requires n in Heads(qs)
    ensures exists j :: 0 <= j < |qs| && qs[j] != [] && qs[j][0] == n
  {
    var last := |qs| - 1;
    if n in Head(qs[last]) {
      assert qs[last][0] == n;
    } else {
      HeadsAreFirst(qs[..last], n);
      var j :| 0 <= j < last && qs[..last][j] != [] && qs[..last][j][0] == n;
      assert qs[j][0] == n;
    }
  }

  /** The only node of value `i` in a round is the first of queue `i`. */
  lemma HeadOfValue(qs: seq<seq<Node>>, values: seq<string>, key: string, i: nat, n: Node)
    requires Sorted(qs, values, key) && i < |qs| && n in Heads(qs) && LabelValue(n, key) == values[i]
    ensures qs[i] != [] && n == qs[i][0]
  {
    HeadsAreFirst(qs, n);
    var j :| 0 <= j < |qs| && qs[j] != [] && qs[j][0] == n;
    SortedAt(qs, values, key, i, j);
    assert n in qs[j];
  }

  lemma HeadsFiltered(qs: seq<seq<Node>>, values: seq<string>, key: string, i: nat)
    requires Sorted(qs, values, key) && i < |qs|
    ensures Filter(Heads(qs), Labelled(key, values[i])) == Head(qs[i])
  {
    var f := Filter(Heads(qs), Labelled(key, values[i]));
    RoundShare(qs, values, key, i);
    if f != [] {
      InFilter(Heads(qs), Labelled(key, values[i]), f[0]);
      HeadOfValue(qs, values, key, i, f[0]);
    }
  }

  lemma RoundShare(qs: seq<seq<Node>>, values: seq<string>, key: string, i: nat)
    requires Sorted(qs, values, key) && i < |qs|
    ensures |Filter(Heads(qs), Labelled(key, values[i]))| == |Head(qs[i])|
  {
    HeadsShare(qs, values, key, i, |qs|);
    assert qs[..|qs|] == qs;
    ShareIsFilter(Heads(qs), key, values[i]);
  }

  /** Taking turns keeps every queue's own order. */
  lemma {:induction false} InterleaveFiltered(qs: seq<seq<Node>>, values: seq<string>, key: string, i: nat)
    requires Sorted(qs, values, key) && i < |qs|
    ensures Filter(Interleave(qs), Labelled(key, values[i])) == qs[i]
    decreases Total(qs)
  {
    HeadsAndTails(qs);
    if Total(qs) == 0 {
      NothingLeft(qs, i);
    } else {
      TailsSorted(qs, values, key);
      InterleaveFiltered(Tails(qs), values, key, i);
      HeadsFiltered(qs, values, key, i);
      RoundFiltered(qs, Labelled(key, values[i]));
      assert Tails(qs)[i] == Tail(qs[i]);
      assert qs[i] == Head(qs[i]) + Tail(qs[i]);
    }
  }

  lemma RoundFiltered(qs: seq<seq<Node>>, keep: Node -> bool)
    ensures Filter(Interleave(qs), keep) == Filter(Heads(qs), keep) + Filter(Interleave(Tails(qs)), keep)
  {
    InterleaveUnfolds(qs);
    FilterAppend(Heads(qs), Interleave(Tails(qs)), keep);
  }

  lemma {:induction false} NothingLeft(qs: seq<seq<Node>>, i: nat)
    requires Total(qs) == 0 && i < |qs|
    ensures qs[i] == []
  {
    if i < |qs| - 1 {
      NothingLeft(qs[..|qs| - 1], i);
    }
  }

  // ----- The first nodes are taken -----

  lemma CutSorted(front: seq<Node>, back: seq<Node>, n: Node, m: Node)
    requires SortedByKey(front + back, NodeKey) && n in front && m in back
    ensures Precedes(n, m)
  {
    var i :| 0 <= i < |front| && front[i] == n;
    var j :| 0 <= j < |back| && back[j] == m;
    assert (front + back)[i] == n && (front + back)[|front| + j] == m;
    NodeKeyByFields(n, m);
  }

  lemma CutFiltered(front: seq<Node>, back: seq<Node>, key: string, value: string, n: Node, m: Node)
    requires SortedByKey(Filter(front + back, Labelled(key, value)), NodeKey) && n in front && m in back
    requires HasLabel(n, key, value) && HasLabel(m, key, value)
    ensures Precedes(n, m)
  {
    FilterAppend(front, back, Labelled(key, value));
    InFilter(front, Labelled(key, value), n);
    InFilter(back, Labelled(key, value), m);
    CutSorted(Filter(front, Labelled(key, value)), Filter(back, Labelled(key, value)), n, m);
  }

  /** The nodes of one value, in the order of the ranking, are sorted. */
  lemma RankingFiltered(eligible: seq<Node>, key: string, value: string)
    requires SortedByKey(eligible, NodeKey)
    ensures SortedByKey(Filter(Ranking(eligible, Some(key)), Labelled(key, value)), NodeKey)
  {
    var buckets := Group(eligible, key);
    var ranked := Filter(Ranking(eligible, Some(key)), Labelled(key, value));
    BucketsAreSorted(eligible, key);
    GroupSorted(eligible, key);
    if ranked != [] {
      InFilter(Ranking(eligible, Some(key)), Labelled(key, value), ranked[0]);
      RankingContents(eligible, Some(key));
      assert ranked[0] in multiset(Ranking(eligible, Some(key)));
      InFilter(eligible, Labelled(key, value), ranked[0]);
      GroupFiles(eligible, key, value);
      FiledMeansListed(buckets, value);
      var i :| 0 <= i < |buckets| && buckets[i].value == value;
      assert Values(buckets)[i] == value && Queues(buckets)[i] == buckets[i].nodes;
      InterleaveFiltered(Queues(buckets), Values(buckets), key, i);
      FilterSorted(eligible, Labelled(key, value));
    }
  }

  /** A node that is taken comes before every matching node that is not, by host name and then
      identifier; when the pool spreads, before those with the same value of the label. */
  lemma FirstNodesAreTaken(pool: P.Pool, matches: Node -> bool, candidates: seq<Node>, n: Node, m: Node)
    requires n in Selection(pool, matches, candidates) && m !in Selection(pool, matches, candidates)
    requires m in Filter(candidates, matches)
    requires pool.spreadBy.Some? ==>
               exists value :: HasLabel(n, pool.spreadBy.value, value) && HasLabel(m, pool.spreadBy.value, value)
    ensures Precedes(n, m)
  {
    var eligible := Eligible(candidates, matches);
    EligibleSorted(candidates, matches);
    var ranking := Ranking(eligible, pool.spreadBy);
    var limit := WhereItIsCut(pool, matches, candidates, m);
    if pool.spreadBy.None? {
      assert ranking == ranking[..limit] + ranking[limit..];
      CutSorted(ranking[..limit], ranking[limit..], n, m);
    } else {
      var key := pool.spreadBy.value;
      var value :| HasLabel(n, key, value) && HasLabel(m, key, value);
      RankingFiltered(eligible, key, value);
      assert ranking == ranking[..limit] + ranking[limit..];
      CutFiltered(ranking[..limit], ranking[limit..], key, value, n, m);
    }
  }

  /** What is not taken is in the rest of the ranking. */
  lemma WhereItIsCut(pool: P.Pool, matches: Node -> bool, candidates: seq<Node>, m: Node) returns (limit: nat)
    requires m !in Selection(pool, matches, candidates) && m in Filter(candidates, matches)
    ensures var ranking := Ranking(Eligible(candidates, matches), pool.spreadBy);
            && limit <= |ranking| && Selection(pool, matches, candidates) == ranking[..limit] && m in ranking[limit..]
  {
    var eligible := Eligible(candidates, matches);
    EligibleSorted(candidates, matches);
    RankingContents(eligible, pool.spreadBy);
    limit := Limit(pool.maxNodes, |eligible|);
    SameMembers(Filter(candidates, matches), eligible, m);
    SameMembers(eligible, Ranking(eligible, pool.spreadBy), m);
    InTheRest(Ranking(eligible, pool.spreadBy), limit, m);
  }

  lemma SameMembers(a: seq<Node>, b: seq<Node>, n: Node)
    requires multiset(a) == multiset(b) && n in a
    ensures n in b
  {
    assert n in multiset(b);
  }

  lemma InTheRest(s: seq<Node>, k: nat, n: Node)
    requires k <= |s| && n in s && n !in s[..k]
    ensures n in s[k..]
  {
    assert s == s[..k] + s[k..];
  }

  // ----- The first values are served first -----

  lemma ShareAt(eligible: seq<Node>, key: string, selected: seq<Node>, r: nat, j: nat, value: string) returns (i: nat)
    requires var buckets := Group(eligible, key); Fair(selected, Queues(buckets), Values(buckets), key, r, j)
    requires Share(eligible, key, value) > 0
    ensures i < |Group(eligible, key)| && Group(eligible, key)[i].value == value
    ensures Share(selected, key, value) == Min(Share(eligible, key, value), if i < j then r + 1 else r)
  {
    var buckets := Group(eligible, key);
    GroupFiles(eligible, key, value);
    ShareIsFilter(eligible, key, value);
    FiledMeansListed(buckets, value);
    i :| 0 <= i < |buckets| && buckets[i].value == value;
    GroupOrdered(eligible, key);
    BucketIsFiled(buckets, i);
    assert Queues(buckets)[i] == buckets[i].nodes && Values(buckets)[i] == value;
  }

  /** A value that comes earlier in dictionary order gets no fewer nodes than a later one, unless it
      gets all it has. */
  lemma EarlierValuesFirst(pool: P.Pool, matches: Node -> bool, candidates: seq<Node>, v: string, w: string)
    requires pool.spreadBy.Some? && CompareText(v, w) == Less
    ensures var selected, key := Selection(pool, matches, candidates), pool.spreadBy.value;
            Share(selected, key, v) >= Share(selected, key, w)
            || Share(selected, key, v) == Supply(candidates, matches, key, v)
  {
    var eligible, key := Eligible(candidates, matches), pool.spreadBy.value;
    var selected, limit := Selection(pool, matches, candidates), Limit(pool.maxNodes, |eligible|);
    EligibleSorted(candidates, matches);
    RankingContents(eligible, pool.spreadBy);
    BucketsAreSorted(eligible, key);
    GroupSorted(eligible, key);
    var r, j := RoundRobinIsFair(Queues(Group(eligible, key)), Values(Group(eligible, key)), key, limit);
    SameShare(eligible, Filter(candidates, matches), key, v);
    AtMostSupply(eligible, pool.spreadBy, limit, key, v);
    AtMostSupply(eligible, pool.spreadBy, limit, key, w);
    if Share(eligible, key, v) > 0 && Share(eligible, key, w) > 0 {
      var i := ShareAt(eligible, key, selected, r, j, v);
      var k := ShareAt(eligible, key, selected, r, j, w);
      GroupOrdered(eligible, key);
      CompareTextLaws(v, w);
    }
  }

  lemma AtMostSupply(eligible: seq<Node>, spreadBy: Option<string>, limit: nat, key: string, value: string)
    requires SortedByKey(eligible, NodeKey) && limit <= |Ranking(eligible, spreadBy)|
    ensures Share(Ranking(eligible, spreadBy)[..limit], key, value) <= Share(eligible, key, value)
  {
    RankingContents(eligible, spreadBy);
    ShareWithin(Ranking(eligible, spreadBy), limit, key, value);
    SameShare(Ranking(eligible, spreadBy), eligible, key, value);
  }
}

/** Root-schema metadata: merging peer advertisements and negotiating a version
    (src/cluster/root_schema.rs). */
module RootSchema {
  import opened Basics

  const LEGACY_VERSION := 1

  datatype Info = Info(minimum: nat, supported: nat, updatedAt: nat, generation: nat)

  datatype Built = Built(info: Info) | Rejected

  function Build(minimum: nat, supported: nat, updatedAt: nat, generation: nat): Built {
    if minimum < LEGACY_VERSION || supported < LEGACY_VERSION || minimum > supported then Rejected
    else Built(Info(minimum, supported, updatedAt, generation))
  }

  predicate ValidRange(i: Info) {
    LEGACY_VERSION <= i.minimum <= i.supported
  }

  function Precedence(i: Info): Key {
    [Num(i.generation), Num(i.updatedAt), Num(i.supported), Num(i.minimum)]
  }

  /** The right one wins unless the left one is strictly newer. */
  function Merge(left: Info, right: Info): Info {
    if CompareKeys(Precedence(right), Precedence(left)) != Less then right else left
  }

  predicate Supports(i: Info, version: nat) {
    i.minimum <= version <= i.supported
  }

  function HighestCommon(left: Info, right: Info): Option<nat> {
    var low := if left.minimum >= right.minimum then left.minimum else right.minimum;
    var high := if left.supported <= right.supported then left.supported else right.supported;
    if low <= high then Some(high) else None
  }

  // ----- Merging -----

  /** The precedence key is the whole snapshot, so a tie is an equality. */
  lemma PrecedenceIdentifies(a: Info, b: Info)
    ensures Precedence(a) == Precedence(b) <==> a == b
  {
    var x, y := Precedence(a), Precedence(b);
    if x == y {
      assert x[0] == y[0] && x[1] == y[1] && x[2] == y[2] && x[3] == y[3];
    }
  }

  predicate AtMost(a: Info, b: Info) {
    CompareKeys(Precedence(a), Precedence(b)) != Greater
  }

  /** Merging is taking the greater of two snapshots under a total order. */
  lemma MergeIsMaximum(a: Info, b: Info)
    ensures Merge(a, b) == a || Merge(a, b) == b
    ensures AtMost(a, Merge(a, b)) && AtMost(b, Merge(a, b))
    ensures Merge(a, b) == Merge(b, a) && Merge(a, a) == a
  {
    CompareKeysLaws(Precedence(a), Precedence(b));
    CompareKeysLaws(Precedence(a), Precedence(a));
    CompareKeysLaws(Precedence(b), Precedence(b));
    PrecedenceIdentifies(a, b);
  }

  lemma AtMostIsOrder(a: Info, b: Info, c: Info)
    ensures AtMost(a, b) && AtMost(b, c) ==> AtMost(a, c)
    ensures AtMost(a, b) && AtMost(b, a) ==> a == b
  {
    if AtMost(a, b) && AtMost(b, c) {
      CompareKeysTransitive(Precedence(a), Precedence(b), Precedence(c));
    }
    CompareKeysLaws(Precedence(a), Precedence(b));
    PrecedenceIdentifies(a, b);
  }

  /** The order in which advertisements are merged: any binary tree over them. */
  datatype MergeTree = Leaf(info: Info) | Join(left: MergeTree, right: MergeTree)

  function Merged(t: MergeTree): Info {
    match t
    case Leaf(info) => info
    case Join(l, r) => Merge(Merged(l), Merged(r))
  }

  function Leaves(t: MergeTree): set<Info> {
    match t
    case Leaf(info) => {info}
    case Join(l, r) => Leaves(l) + Leaves(r)
  }

  ghost predicate Greatest(i: Info, among: set<Info>) {
    i in among && forall j :: j in among ==> AtMost(j, i)
  }

  lemma {:induction false} MergedIsGreatest(t: MergeTree)
    ensures Greatest(Merged(t), Leaves(t))
  {
    match t {
      case Leaf(info) => CompareKeysLaws(Precedence(info), Precedence(info));
      case Join(l, r) =>
        MergedIsGreatest(l);
        MergedIsGreatest(r);
        MergeIsMaximum(Merged(l), Merged(r));
        forall j | j in Leaves(t) ensures AtMost(j, Merged(t)) {
          AtMostIsOrder(j, Merged(l), Merged(t));
          AtMostIsOrder(j, Merged(r), Merged(t));
        }
    }
  }

  /** Any two merge trees over the same advertisements, in any order, grouping and multiplicity,
      end in the same snapshot, which is one of them and has a valid range if all do. */
  lemma MergeConverges(s: MergeTree, t: MergeTree)
    requires Leaves(s) == Leaves(t)
    ensures Merged(s) == Merged(t)
    ensures (forall i :: i in Leaves(s) ==> ValidRange(i)) ==> ValidRange(Merged(s))
  {
    MergedIsGreatest(s);
    MergedIsGreatest(t);
    AtMostIsOrder(Merged(s), Merged(t), Merged(s));
  }

  lemma JoinOf(l: MergeTree, r: MergeTree)
    ensures Merged(Join(l, r)) == Merge(Merged(l), Merged(r)) && Leaves(Join(l, r)) == Leaves(l) + Leaves(r)
    ensures l.Leaf? ==> Merged(l) == l.info && Leaves(l) == {l.info}
    ensures r.Leaf? ==> Merged(r) == r.info && Leaves(r) == {r.info}
  {
  }

  /** Merging is associative. */
  lemma MergeAssociates(a: Info, b: Info, c: Info)
    ensures Merge(Merge(a, b), c) == Merge(a, Merge(b, c))
  {
    var ab, bc := Join(Leaf(a), Leaf(b)), Join(Leaf(b), Leaf(c));
    JoinOf(Leaf(a), Leaf(b));
    JoinOf(Leaf(b), Leaf(c));
    JoinOf(ab, Leaf(c));
    JoinOf(Leaf(a), bc);
    MergeConverges(Join(ab, Leaf(c)), Join(Leaf(a), bc));
  }

  // ----- Negotiation -----

  /** The negotiated version is the greatest both sides support; there is none exactly when no
      version is supported by both. A snapshot is built exactly when its range is valid. */
  lemma NegotiationIsExact(a: Info, b: Info)
    ensures HighestCommon(a, b).None? <==> !exists v: nat :: Supports(a, v) && Supports(b, v)
    ensures HighestCommon(a, b).Some? ==>
              && Supports(a, HighestCommon(a, b).value) && Supports(b, HighestCommon(a, b).value)
              && forall v: nat :: Supports(a, v) && Supports(b, v) ==> v <= HighestCommon(a, b).value
    ensures HighestCommon(a, b) == HighestCommon(b, a)
    ensures Build(a.minimum, a.supported, a.updatedAt, a.generation) == Built(a) <==> ValidRange(a)
  {
    if HighestCommon(a, b).Some? {
      assert Supports(a, HighestCommon(a, b).value) && Supports(b, HighestCommon(a, b).value);
    }
  }

  // ----- Which advertisement wins -----

  function Fields(i: Info): seq<int> {
    [i.generation, i.updatedAt, i.supported, i.minimum]
  }

  lemma AtMostByFields(a: Info, b: Info)
    ensures AtMost(a, b) <==> NotBelow(Fields(b), Fields(a))
  {
    assert Nums(Fields(a)) == Precedence(a) && Nums(Fields(b)) == Precedence(b);
    NumsCompare(Fields(b), Fields(a));
    CompareKeysLaws(Precedence(a), Precedence(b));
  }

  /** Whatever the order and grouping of the merges, the result is the advertisement with the highest
      generation; among those the latest, then the one with the highest supported version. */
  lemma HighestGenerationWins(t: MergeTree, i: Info)
    requires i in Leaves(t)
    ensures var m := Merged(t);
            && m in Leaves(t)
            && m.generation >= i.generation
            && (m.generation == i.generation ==>
                  m.updatedAt > i.updatedAt
                  || (m.updatedAt == i.updatedAt &&
                      (m.supported > i.supported || (m.supported == i.supported && m.minimum >= i.minimum))))
  {
    var m := Merged(t);
    MergedIsGreatest(t);
    AtMostByFields(i, m);
    assert Fields(m) == [m.generation] + ([m.updatedAt] + ([m.supported] + [m.minimum]));
    assert Fields(i) == [i.generation] + ([i.updatedAt] + ([i.supported] + [i.minimum]));
    NotBelowHead(m.generation, [m.updatedAt] + ([m.supported] + [m.minimum]),
                 i.generation, [i.updatedAt] + ([i.supported] + [i.minimum]));
    NotBelowHead(m.updatedAt, [m.supported] + [m.minimum], i.updatedAt, [i.supported] + [i.minimum]);
    NotBelowHead(m.supported, [m.minimum], i.supported, [i.minimum]);
  }
}

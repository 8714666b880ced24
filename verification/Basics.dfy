/** Shared vocabulary: optional values, identifiers, lexicographic keys. */
module Basics {

  datatype Option<+T> = None | Some(value: T)

  /** A UUID. Only its identity and its byte order matter to the code modelled here. */
  type Uuid = nat

  /** One cluster view: a cluster lineage together with an epoch. */
  datatype ViewId = ViewId(clusterId: Uuid, epoch: nat)

  datatype Ordering = Less | Equal | Greater
  {
    function Reverse(): Ordering {
      match this
      case Less => Greater
      case Equal => Equal
      case Greater => Less
    }
  }

  // ----- Comparison keys -----
  //
  // A chain `a.cmp(b).then(..).then(..)` is the lexicographic order of the list of compared
  // fields. `Key` is such a list.

  datatype Atom = Num(n: int) | Text(text: string)

  type Key = seq<Atom>

  function Flag(b: bool): Atom {
    Num(if b then 1 else 0)
  }

  /** An absent value sorts below every present one. */
  function OptionalKey(o: Option<int>): Key {
    match o
    case None => [Num(0), Num(0)]
    case Some(n) => [Num(1), Num(n)]
  }

  function CompareText(a: string, b: string): Ordering {
    if a == [] && b == [] then Equal
    else if a == [] then Less
    else if b == [] then Greater
    else if a[0] != b[0] then (if a[0] < b[0] then Less else Greater)
    else CompareText(a[1..], b[1..])
  }

  function CompareAtoms(a: Atom, b: Atom): Ordering {
    match (a, b)
    case (Num(x), Num(y)) => if x < y then Less else if x == y then Equal else Greater
    case (Text(x), Text(y)) => CompareText(x, y)
    case (Num(_), Text(_)) => Less
    case (Text(_), Num(_)) => Greater
  }

  function CompareKeys(a: Key, b: Key): Ordering {
    if a == [] && b == [] then Equal
    else if a == [] then Less
    else if b == [] then Greater
    else if a[0] != b[0] then CompareAtoms(a[0], b[0])
    else CompareKeys(a[1..], b[1..])
  }

  lemma {:induction false} CompareTextLaws(a: string, b: string)
    ensures CompareText(a, b) == Equal <==> a == b
    ensures CompareText(b, a) == CompareText(a, b).Reverse()
  {
    if a != [] && b != [] && a[0] == b[0] {
      CompareTextLaws(a[1..], b[1..]);
      assert a == [a[0]] + a[1..] && b == [b[0]] + b[1..];
    }
  }

  lemma {:induction false} CompareTextTransitive(a: string, b: string, c: string)
    requires CompareText(a, b) != Greater && CompareText(b, c) != Greater
    ensures CompareText(a, c) != Greater
    ensures CompareText(a, b) == Less || CompareText(b, c) == Less ==> CompareText(a, c) == Less
  {
    if a != [] && b != [] && c != [] && a[0] == b[0] == c[0] {
      CompareTextTransitive(a[1..], b[1..], c[1..]);
    }
  }

  lemma CompareAtomsLaws(a: Atom, b: Atom)
    ensures CompareAtoms(a, b) == Equal <==> a == b
    ensures CompareAtoms(b, a) == CompareAtoms(a, b).Reverse()
  {
    if a.Text? && b.Text? {
      CompareTextLaws(a.text, b.text);
    }
  }

  lemma CompareAtomsTransitive(a: Atom, b: Atom, c: Atom)
    requires CompareAtoms(a, b) == Less && CompareAtoms(b, c) == Less
    ensures CompareAtoms(a, c) == Less
  {
    if a.Text? && b.Text? && c.Text? {
      CompareTextTransitive(a.text, b.text, c.text);
    }
  }

  /** Keys are totally ordered, and a tie means equality. */
  lemma {:induction false} CompareKeysLaws(a: Key, b: Key)
    ensures CompareKeys(a, b) == Equal <==> a == b
    ensures CompareKeys(b, a) == CompareKeys(a, b).Reverse()
  {
    if a != [] && b != [] {
      CompareAtomsLaws(a[0], b[0]);
      if a[0] == b[0] {
        CompareKeysLaws(a[1..], b[1..]);
        assert a == [a[0]] + a[1..] && b == [b[0]] + b[1..];
      }
    }
  }

  lemma {:induction false} CompareKeysTransitive(a: Key, b: Key, c: Key)
    requires CompareKeys(a, b) != Greater && CompareKeys(b, c) != Greater
    ensures CompareKeys(a, c) != Greater
    ensures CompareKeys(a, b) == Less || CompareKeys(b, c) == Less ==> CompareKeys(a, c) == Less
  {
    if a != [] && b != [] && c != [] {
      CompareAtomsLaws(a[0], b[0]);
      CompareAtomsLaws(b[0], c[0]);
      CompareAtomsLaws(a[0], c[0]);
      if a[0] == b[0] == c[0] {
        CompareKeysTransitive(a[1..], b[1..], c[1..]);
      } else if a[0] != b[0] && b[0] != c[0] {
        CompareAtomsTransitive(a[0], b[0], c[0]);
      }
    }
  }

  /** The first entries decide unless they are the same. */
  lemma CompareHead(x: Atom, a: Key, y: Atom, b: Key)
    ensures CompareKeys([x] + a, [y] + b) == if x != y then CompareAtoms(x, y) else CompareKeys(a, b)
  {
    assert ([x] + a)[1..] == a && ([y] + b)[1..] == b;
  }

  // ----- What the orders mean -----

  /** In the first field where the lists differ, `a` has the greater number. */
  predicate NotBelow(a: seq<int>, b: seq<int>)
    requires |a| == |b|
  {
    a == [] || a[0] > b[0] || (a[0] == b[0] && NotBelow(a[1..], b[1..]))
  }

  function Nums(xs: seq<int>): Key {
    seq(|xs|, i requires 0 <= i < |xs| => Num(xs[i]))
  }

  lemma {:induction false} NumsCompare(a: seq<int>, b: seq<int>)
    requires |a| == |b|
    ensures CompareKeys(Nums(a), Nums(b)) != Less <==> NotBelow(a, b)
  {
    if a != [] {
      assert Nums(a)[1..] == Nums(a[1..]) && Nums(b)[1..] == Nums(b[1..]);
      NumsCompare(a[1..], b[1..]);
    }
  }

  /** Text is in dictionary order: it comes before another when it is a proper beginning of it, or has
      the smaller character where they first differ. */
  lemma {:induction false} TextIsDictionaryOrder(a: string, b: string)
    ensures CompareText(a, b) == Less <==>
              a < b || exists k :: 0 <= k < |a| && k < |b| && a[..k] == b[..k] && a[k] < b[k]
  {
    if a == [] || b == [] {
    } else if a[0] != b[0] {
      assert a[..0] == b[..0];
    } else {
      var p, q := a[1..], b[1..];
      TextIsDictionaryOrder(p, q);
      assert a == [a[0]] + p && b == [b[0]] + q;
      if k :| 0 <= k < |p| && k < |q| && p[..k] == q[..k] && p[k] < q[k] {
        assert a[..k + 1] == [a[0]] + p[..k] && b[..k + 1] == [b[0]] + q[..k];
        assert a[k + 1] < b[k + 1];
      }
      if k :| 0 <= k < |a| && k < |b| && a[..k] == b[..k] && a[k] < b[k] {
        assert p[..k - 1] == a[..k][1..] && q[..k - 1] == b[..k][1..];
        assert p[k - 1] < q[k - 1];
      }
    }
  }

  /** The time is present and after the other, which may be absent. */
  predicate AfterTime(a: Option<int>, b: Option<int>) {
    a.Some? && (b.None? || a.value > b.value)
  }

  lemma NotBelowHead(x: int, a: seq<int>, y: int, b: seq<int>)
    requires |a| == |b|
    ensures NotBelow([x] + a, [y] + b) <==> x > y || (x == y && NotBelow(a, b))
  {
    assert ([x] + a)[1..] == a && ([y] + b)[1..] == b;
  }

  function TimeFields(t: Option<int>): seq<int> {
    if t.None? then [0, 0] else [1, t.value]
  }

  lemma NotBelowTime(s: Option<int>, a: seq<int>, t: Option<int>, b: seq<int>)
    requires |a| == |b|
    ensures NotBelow(TimeFields(s) + a, TimeFields(t) + b) <==> AfterTime(s, t) || (s == t && NotBelow(a, b))
  {
    var x, y := TimeFields(s), TimeFields(t);
    assert x + a == [x[0]] + ([x[1]] + a) && y + b == [y[0]] + ([y[1]] + b);
    NotBelowHead(x[0], [x[1]] + a, y[0], [y[1]] + b);
    NotBelowHead(x[1], a, y[1], b);
  }
}

/** Stable sorting by a comparison key, as done by the library sort the source calls. */
module Sorting {
  import opened Basics

  /** Inserts after every element whose key is not greater. */
  function InsertByKey<T>(sorted: seq<T>, x: T, key: T -> Key): seq<T> {
    if sorted == [] then [x]
    else
      var last := |sorted| - 1;
      if CompareKeys(key(sorted[last]), key(x)) != Greater then sorted + [x]
      else InsertByKey(sorted[..last], x, key) + [sorted[last]]
  }

  function SortByKey<T>(s: seq<T>, key: T -> Key): seq<T> {
    if s == [] then [] else InsertByKey(SortByKey(s[..|s| - 1], key), s[|s| - 1], key)
  }

  ghost predicate SortedByKey<T>(s: seq<T>, key: T -> Key) {
    forall i, j :: 0 <= i < j < |s| ==> CompareKeys(key(s[i]), key(s[j])) != Greater
  }

  /** Elements with the same key are the same element. */
  ghost predicate KeyIdentifies<T>(s: seq<T>, key: T -> Key) {
    forall x, y :: x in s && y in s && key(x) == key(y) ==> x == y
  }

  lemma {:induction false} InsertByKeyCorrect<T>(sorted: seq<T>, x: T, key: T -> Key)
    requires SortedByKey(sorted, key)
    ensures multiset(InsertByKey(sorted, x, key)) == multiset(sorted) + multiset{x}
    ensures SortedByKey(InsertByKey(sorted, x, key), key)
  {
    if sorted != [] {
      var last := |sorted| - 1;
      var y := sorted[last];
      assert sorted == sorted[..last] + [y];
      if CompareKeys(key(y), key(x)) != Greater {
        forall i | 0 <= i <= last ensures CompareKeys(key(sorted[i]), key(x)) != Greater {
          if i < last { CompareKeysTransitive(key(sorted[i]), key(y), key(x)); }
        }
      } else {
        InsertByKeyCorrect(sorted[..last], x, key);
        var r := InsertByKey(sorted[..last], x, key);
        CompareKeysLaws(key(y), key(x));
        forall i | 0 <= i < |r| ensures CompareKeys(key(r[i]), key(y)) != Greater {
          assert r[i] in multiset(r);
          assert r[i] == x || r[i] in sorted[..last];
        }
      }
    }
  }

  lemma {:induction false} SortByKeyCorrect<T>(s: seq<T>, key: T -> Key)
    ensures multiset(SortByKey(s, key)) == multiset(s)
    ensures SortedByKey(SortByKey(s, key), key)
  {
    if s != [] {
      var last := |s| - 1;
      SortByKeyCorrect(s[..last], key);
      InsertByKeyCorrect(SortByKey(s[..last], key), s[last], key);
      assert s == s[..last] + [s[last]];
    }
  }

  /** Every element's key is at most the last one's. */
  lemma LastIsGreatest<T>(s: seq<T>, x: T, key: T -> Key)
    requires SortedByKey(s, key) && x in s
    ensures CompareKeys(key(x), key(s[|s| - 1])) != Greater
  {
    var i :| 0 <= i < |s| && s[i] == x;
    CompareKeysLaws(key(x), key(x));
  }

  lemma SameLast<T>(a: seq<T>, b: seq<T>, key: T -> Key)
    requires SortedByKey(a, key) && SortedByKey(b, key) && multiset(a) == multiset(b)
    requires KeyIdentifies(a, key) && a != [] && b != []
    ensures a[|a| - 1] == b[|b| - 1]
  {
    var x, y := a[|a| - 1], b[|b| - 1];
    assert x in multiset(b) && y in multiset(a);
    LastIsGreatest(a, y, key);
    LastIsGreatest(b, x, key);
    CompareKeysLaws(key(x), key(y));
  }

  lemma WithoutLast<T>(s: seq<T>, key: T -> Key)
    requires s != []
    ensures multiset(s[..|s| - 1]) == multiset(s) - multiset{s[|s| - 1]}
    ensures SortedByKey(s, key) ==> SortedByKey(s[..|s| - 1], key)
    ensures KeyIdentifies(s, key) ==> KeyIdentifies(s[..|s| - 1], key)
  {
    assert s == s[..|s| - 1] + [s[|s| - 1]];
  }

  lemma SameSize<T>(a: seq<T>, b: seq<T>)
    requires multiset(a) == multiset(b)
    ensures |a| == |b|
  {
    assert |multiset(a)| == |a| && |multiset(b)| == |b|;
  }

  /** What makes two sorted sequences comparable element by element. */
  ghost predicate SortedAlike<T>(a: seq<T>, b: seq<T>, key: T -> Key) {
    SortedByKey(a, key) && SortedByKey(b, key) && multiset(a) == multiset(b) && KeyIdentifies(a, key)
  }

  lemma PeelLast<T>(a: seq<T>, b: seq<T>, key: T -> Key)
    requires SortedAlike(a, b, key) && a != [] && |a| == |b|
    ensures a[|a| - 1] == b[|b| - 1]
    ensures SortedAlike(a[..|a| - 1], b[..|b| - 1], key)
  {
    SameLast(a, b, key);
    WithoutLast(a, key);
    WithoutLast(b, key);
  }

  /** A sorted arrangement is unique when keys identify elements. */
  lemma {:induction false} SortedUnique<T>(a: seq<T>, b: seq<T>, key: T -> Key)
    requires SortedAlike(a, b, key)
    ensures a == b
    decreases |a|
  {
    SameSize(a, b);
    if a != [] {
      var last := |a| - 1;
      PeelLast(a, b, key);
      var x, y := a[..last], b[..last];
      SortedUnique(x, y, key);
      assert a == x + [a[last]] && b == y + [b[last]];
    }
  }

  /** The sorted result does not depend on the order of the input. */
  lemma SortIgnoresInputOrder<T>(a: seq<T>, b: seq<T>, key: T -> Key)
    requires multiset(a) == multiset(b) && KeyIdentifies(a, key)
    ensures SortByKey(a, key) == SortByKey(b, key)
  {
    SortByKeyCorrect(a, key);
    SortByKeyCorrect(b, key);
    forall x | x in SortByKey(a, key) ensures x in a {
      assert x in multiset(SortByKey(a, key));
    }
    SortedUnique(SortByKey(a, key), SortByKey(b, key), key);
  }
}

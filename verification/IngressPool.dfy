/** Ingress pool rows: validation, deletion, and the choice of one row among concurrent ones
    (src/ingress/types.rs, src/ingress/registry.rs). */
module IngressPool {
  import opened Basics
  import opened Lists
  import Text

  /** `placement` stands for the placement policy by its position in the policies' total order. */
  datatype Pool = Pool(id: Uuid, name: string, minNodes: nat, maxNodes: Option<nat>, placement: nat,
                       spreadBy: Option<string>, generation: nat, createdAt: string, updatedAt: string, deleted: bool)

  // ----- Drafts -----

  datatype Draft = Draft(name: string, minNodes: nat, maxNodes: Option<nat>, placement: nat, spreadBy: Option<string>)

  datatype DraftError = EmptyName | ZeroMinNodes | ZeroMaxNodes | MaxBelowMin

  datatype DraftResult = Ok(pool: Pool) | Err(error: DraftError)

  /** `idOf` is the hash of a name. */
  function IntoValue(d: Draft, idOf: string -> Uuid, now: string): DraftResult {
    var name := Text.Trim(d.name);
    if name == [] then Err(EmptyName)
    else if d.minNodes == 0 then Err(ZeroMinNodes)
    else if d.maxNodes == Some(0) then Err(ZeroMaxNodes)
    else if d.maxNodes.Some? && d.maxNodes.value < d.minNodes then Err(MaxBelowMin)
    else Ok(Pool(idOf(name), name, d.minNodes, d.maxNodes, d.placement, d.spreadBy, 1, now, now, false))
  }

  /** What every validated row satisfies. */
  predicate Validated(p: Pool) {
    && p.name != [] && Text.Trimmed(p.name)
    && p.minNodes > 0
    && (p.maxNodes.Some? ==> p.minNodes <= p.maxNodes.value)
  }

  /** Validation accepts a draft exactly when its trimmed form is a valid row. */
  lemma ValidationIsExact(d: Draft, idOf: string -> Uuid, now: string)
    ensures var name := Text.Trim(d.name);
            var row := Pool(idOf(name), name, d.minNodes, d.maxNodes, d.placement, d.spreadBy, 1, now, now, false);
            IntoValue(d, idOf, now) == Ok(row) <==> Validated(row)
    ensures IntoValue(d, idOf, now).Ok? ==> Validated(IntoValue(d, idOf, now).pool)
  {
    Text.TrimResult(d.name);
  }

  // ----- Deletion -----

  const MAX_U64 := 0xFFFF_FFFF_FFFF_FFFF

  function Deleted(p: Pool, now: string): Pool {
    if p.deleted then p
    else p.(deleted := true, generation := if p.generation < MAX_U64 then p.generation + 1 else p.generation, updatedAt := now)
  }

  /** The mutable row. */
  class IngressPoolRow {
    const spec: Pool
    var generation: nat
    var updatedAt: string
    var deleted: bool

    function Value(): Pool
      reads this
    {
      spec.(generation := generation, updatedAt := updatedAt, deleted := deleted)
    }

    constructor (p: Pool)
      ensures Value() == p
    {
      spec, generation, updatedAt, deleted := p, p.generation, p.updatedAt, p.deleted;
    }

    method MarkDeleted(now: string)
      modifies this
      ensures Value() == Deleted(old(Value()), now)
    {
      if deleted {
        return;
      }
      deleted := true;
      if generation < MAX_U64 {
        generation := generation + 1;
      }
      updatedAt := now;
    }
  }

  // ----- The canonical row -----

  function OptionalText(o: Option<string>): Key {
    match o
    case None => [Num(0), Text("")]
    case Some(t) => [Num(1), Text(t)]
  }

  function PoolKey(p: Pool): Key {
    [Flag(p.deleted), Num(p.generation), Text(p.updatedAt), Text(p.name), Num(p.minNodes)]
    + OptionalKey(p.maxNodes) + [Num(p.placement)] + OptionalText(p.spreadBy) + [Text(p.createdAt), Num(p.id)]
  }

  function ComparePools(a: Pool, b: Pool): Ordering {
    CompareKeys(PoolKey(a), PoolKey(b))
  }

  /** The comparator looks at every field, so rows that tie are the same row. */
  lemma TiesAreEqual(a: Pool, b: Pool)
    ensures ComparePools(a, b) == Equal <==> a == b
  {
    var k, l := PoolKey(a), PoolKey(b);
    CompareKeysLaws(k, l);
    if k == l {
      assert k[0] == l[0] && k[1] == l[1] && k[2] == l[2] && k[3] == l[3] && k[4] == l[4];
      assert k[5] == l[5] && k[6] == l[6] && k[7] == l[7] && k[8] == l[8] && k[9] == l[9];
      assert k[10] == l[10] && k[11] == l[11];
    }
  }

  /** The running best after all rows. */
  function Canonical(rows: seq<Pool>): Option<Pool> {
    if rows == [] then None
    else
      var last := |rows| - 1;
      var best := Canonical(rows[..last]);
      if best.None? || ComparePools(rows[last], best.value) == Greater then Some(rows[last]) else best
  }

  method SelectCanonical(rows: seq<Pool>) returns (best: Option<Pool>)
    ensures best == Canonical(rows)
  {
    best := None;
    for i := 0 to |rows|
      invariant best == Canonical(rows[..i])
    {
      assert rows[..i + 1][..i] == rows[..i];
      match best {
        case None => best := Some(rows[i]);
        case Some(current) =>
          if ComparePools(rows[i], current) == Greater {
            best := Some(rows[i]);
          }
      }
    }
    assert rows[..|rows|] == rows;
  }

  /** The row a lookup returns: none when the canonical row is a delete marker. */
  function Visible(rows: seq<Pool>): Option<Pool> {
    if Canonical(rows).Some? && !Canonical(rows).value.deleted then Canonical(rows) else None
  }

  ghost predicate IsCanonical(p: Pool, rows: set<Pool>) {
    p in rows && forall q :: q in rows ==> ComparePools(q, p) != Greater
  }

  function Rows(rows: seq<Pool>): set<Pool> {
    set p | p in rows
  }

  lemma CanonicalUnique(p: Pool, q: Pool, rows: set<Pool>)
    requires IsCanonical(p, rows) && IsCanonical(q, rows)
    ensures p == q
  {
    CompareKeysLaws(PoolKey(p), PoolKey(q));
    TiesAreEqual(p, q);
  }

  lemma CanonicalOfTwo(best: Pool, rows: set<Pool>, p: Pool)
    requires IsCanonical(best, rows)
    ensures IsCanonical(if ComparePools(p, best) == Greater then p else best, rows + {p})
  {
    CompareKeysLaws(PoolKey(p), PoolKey(best));
    CompareKeysLaws(PoolKey(p), PoolKey(p));
    if ComparePools(p, best) == Greater {
      forall q | q in rows ensures ComparePools(q, p) != Greater {
        CompareKeysTransitive(PoolKey(q), PoolKey(best), PoolKey(p));
      }
    }
  }

  lemma CanonicalLast(rest: seq<Pool>, p: Pool)
    ensures Canonical(rest + [p]) ==
              var best := Canonical(rest);
              if best.None? || ComparePools(p, best.value) == Greater then Some(p) else best
    ensures Rows(rest + [p]) == Rows(rest) + {p}
  {
    assert (rest + [p])[..|rest|] == rest;
  }

  lemma {:induction false} CanonicalIsGreatest(rows: seq<Pool>)
    ensures Canonical(rows).None? <==> rows == []
    ensures rows != [] ==> IsCanonical(Canonical(rows).value, Rows(rows))
  {
    if rows != [] {
      var rest, p := rows[..|rows| - 1], rows[|rows| - 1];
      assert rows == rest + [p];
      CanonicalLast(rest, p);
      CanonicalIsGreatest(rest);
      if rest == [] {
        assert Rows(rows) == {p};
        CompareKeysLaws(PoolKey(p), PoolKey(p));
      } else {
        CanonicalOfTwo(Canonical(rest).value, Rows(rest), p);
      }
    }
  }

  lemma NoRows(rows: seq<Pool>)
    ensures Rows(rows) == {} <==> rows == []
  {
    if rows != [] {
      assert rows[0] in Rows(rows);
    }
  }

  /** The canonical row depends only on which rows there are: not on order, not on repeats. */
  lemma CanonicalIgnoresOrder(a: seq<Pool>, b: seq<Pool>)
    requires Rows(a) == Rows(b)
    ensures Canonical(a) == Canonical(b)
  {
    NoRows(a);
    NoRows(b);
    CanonicalIsGreatest(a);
    CanonicalIsGreatest(b);
    if a != [] {
      CanonicalUnique(Canonical(a).value, Canonical(b).value, Rows(a));
    }
  }

  /** The canonical rows of the parts that have one. */
  function CanonicalRows(parts: seq<seq<Pool>>): seq<Pool> {
    if parts == [] then []
    else (if Canonical(parts[0]).Some? then [Canonical(parts[0]).value] else []) + CanonicalRows(parts[1..])
  }

  /** The greater of two choices. */
  function Join(x: Option<Pool>, y: Option<Pool>): Option<Pool> {
    if x.None? then y
    else if y.None? then x
    else if ComparePools(y.value, x.value) == Greater then y else x
  }

  lemma Above(p: Pool, q: Pool, rows: set<Pool>)
    requires IsCanonical(p, rows) && ComparePools(p, q) != Greater
    ensures forall r :: r in rows ==> ComparePools(r, q) != Greater
  {
    forall r | r in rows ensures ComparePools(r, q) != Greater {
      CompareKeysTransitive(PoolKey(r), PoolKey(p), PoolKey(q));
    }
  }

  lemma JoinIsCanonical(p: Pool, q: Pool, a: set<Pool>, b: set<Pool>)
    requires IsCanonical(p, a) && IsCanonical(q, b)
    ensures IsCanonical(if ComparePools(q, p) == Greater then q else p, a + b)
  {
    CompareKeysLaws(PoolKey(p), PoolKey(q));
    if ComparePools(q, p) == Greater {
      Above(p, q, a);
    } else {
      Above(q, p, b);
    }
  }

  lemma CanonicalAppend(a: seq<Pool>, b: seq<Pool>)
    ensures Canonical(a + b) == Join(Canonical(a), Canonical(b))
  {
    CanonicalIsGreatest(a);
    CanonicalIsGreatest(b);
    CanonicalIsGreatest(a + b);
    if a == [] {
      assert a + b == b;
    } else if b == [] {
      assert a + b == a;
    } else {
      assert Rows(a + b) == Rows(a) + Rows(b);
      JoinIsCanonical(Canonical(a).value, Canonical(b).value, Rows(a), Rows(b));
      CanonicalUnique(Canonical(a + b).value, Join(Canonical(a), Canonical(b)).value, Rows(a + b));
    }
  }

  /** Choosing among the parts' choices chooses what choosing among everything does, however the
      rows are divided. */
  lemma {:induction false} CanonicalOfParts(parts: seq<seq<Pool>>)
    ensures Canonical(Flatten(parts)) == Canonical(CanonicalRows(parts))
  {
    if parts != [] {
      var first, rest := parts[0], parts[1..];
      var one := if Canonical(first).Some? then [Canonical(first).value] else [];
      CanonicalOfParts(rest);
      CanonicalAppend(first, Flatten(rest));
      CanonicalAppend(one, CanonicalRows(rest));
      assert one != [] ==> one[..0] == [];
      assert Canonical(one) == Canonical(first);
    }
  }

  lemma DeleteOutranks(p: Pool, q: Pool)
    requires p.deleted && !q.deleted
    ensures ComparePools(p, q) == Greater
  {
  }

  /** A pool is hidden exactly when it has no row or any row is a delete marker. */
  lemma AnyDeleteHides(rows: seq<Pool>)
    ensures Visible(rows).None? <==> rows == [] || exists p :: p in rows && p.deleted
  {
    CanonicalIsGreatest(rows);
    if rows != [] {
      var best := Canonical(rows).value;
      forall p | p in rows && p.deleted ensures best.deleted {
        assert p in Rows(rows);
        if !best.deleted {
          DeleteOutranks(p, best);
        }
      }
    }
  }

  /** Deleting hides the pool from every snapshot that holds the marker, whatever stale rows are
      there too. */
  lemma DeletedStaysHidden(p: Pool, now: string, rows: seq<Pool>)
    requires Deleted(p, now) in rows
    ensures Visible(rows).None?
  {
    AnyDeleteHides(rows);
  }

  lemma ComparePoolsByFields(p: Pool, q: Pool)
    requires ComparePools(q, p) != Greater
    ensures q.deleted ==> p.deleted
    ensures p.deleted == q.deleted ==> p.generation >= q.generation
    ensures p.deleted == q.deleted && p.generation == q.generation ==> CompareText(q.updatedAt, p.updatedAt) != Greater
  {
    var a, b := PoolKey(q), PoolKey(p);
    assert a == [a[0]] + ([a[1]] + ([a[2]] + a[3..])) && b == [b[0]] + ([b[1]] + ([b[2]] + b[3..]));
    CompareHead(a[0], [a[1]] + ([a[2]] + a[3..]), b[0], [b[1]] + ([b[2]] + b[3..]));
    CompareHead(a[1], [a[2]] + a[3..], b[1], [b[2]] + b[3..]);
    CompareHead(a[2], a[3..], b[2], b[3..]);
    CompareTextLaws(q.updatedAt, p.updatedAt);
  }

  /** Of the rows of a pool a delete marker wins if there is one; among the live rows, or among the
      markers, the one with the highest generation, and of those one with the last update time. */
  lemma HighestGenerationIsCanonical(rows: seq<Pool>, q: Pool)
    requires q in rows
    ensures Canonical(rows).Some?
    ensures var p := Canonical(rows).value;
            && p in rows && (q.deleted ==> p.deleted)
            && (p.deleted == q.deleted ==> p.generation >= q.generation)
            && (p.deleted == q.deleted && p.generation == q.generation ==>
                  CompareText(q.updatedAt, p.updatedAt) != Greater)
  {
    CanonicalIsGreatest(rows);
    assert q in Rows(rows);
    ComparePoolsByFields(Canonical(rows).value, q);
  }

  /** Deleting marks the row, moves its generation on once, and keeps what the pool is. */
  lemma DeletionMovesOn(p: Pool, now: string)
    ensures var d := Deleted(p, now);
            && d.deleted && Deleted(d, now) == d
            && d.id == p.id && d.name == p.name && d.minNodes == p.minNodes && d.maxNodes == p.maxNodes
            && d.createdAt == p.createdAt
            && (!p.deleted && p.generation < MAX_U64 ==> d.generation > p.generation && d.updatedAt == now)
            && (!p.deleted ==> ComparePools(d, p) == Greater)
  {
    if !p.deleted {
      DeleteOutranks(Deleted(p, now), p);
    }
  }

  /** Which error a rejected draft gets: the first of the four that applies. */
  lemma DraftErrorIsFirst(d: Draft, idOf: string -> Uuid, now: string)
    ensures IntoValue(d, idOf, now).Err? ==>
              match IntoValue(d, idOf, now).error
              case EmptyName => Text.Trim(d.name) == []
              case ZeroMinNodes => Text.Trim(d.name) != [] && d.minNodes == 0
              case ZeroMaxNodes => Text.Trim(d.name) != [] && d.minNodes > 0 && d.maxNodes == Some(0)
              case MaxBelowMin =>
                Text.Trim(d.name) != [] && d.maxNodes.Some? && 0 < d.maxNodes.value < d.minNodes
  {
  }
}

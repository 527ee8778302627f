/**
 * The order in which the repositories list their rows: `listAll(Sort.by(field).and("id"))`
 * sorts by one field and breaks ties by the primary key `id`. Names compare
 * lexicographically by Unicode code point.
 */
module ListingOrder {

  /** The sort key of a row: the sort field followed by the id tie-break. */
  datatype SortKey =
    | ByName(name: string, id: int)
    | ByIndex(index: int, id: int)
    | ById(id: int)

  /** Strict lexicographic order on strings: the first differing character decides,
      and a proper prefix comes first. */
  predicate LexLess(a: string, b: string)
  {
    if a == [] then b != []
    else b != [] && (a[0] < b[0] || (a[0] == b[0] && LexLess(a[1..], b[1..])))
  }

  lemma {:induction false} LexLessIrreflexive(a: string)
    ensures !LexLess(a, a)
  {
    if a != [] {
      LexLessIrreflexive(a[1..]);
    }
  }

  lemma {:induction false} LexLessTransitive(a: string, b: string, c: string)
    requires LexLess(a, b) && LexLess(b, c)
    ensures LexLess(a, c)
  {
    if a != [] && a[0] == b[0] && b[0] == c[0] {
      LexLessTransitive(a[1..], b[1..], c[1..]);
    }
  }

  lemma {:induction false} LexLessTotal(a: string, b: string)
    ensures a == b || LexLess(a, b) || LexLess(b, a)
  {
    if a != [] && b != [] && a[0] == b[0] {
      LexLessTotal(a[1..], b[1..]);
      if a[1..] == b[1..] {
        assert a == [a[0]] + a[1..] && b == [b[0]] + b[1..];
      }
    }
  }

  /** Position of the key's variant; only rows of one table are ever compared, so
      this merely makes the order total. */
  function VariantRank(k: SortKey): nat
  {
    match k
    case ByName(_, _) => 0
    case ByIndex(_, _) => 1
    case ById(_) => 2
  }

  /** `a` is listed strictly before `b`: by the sort field, then by id. */
  predicate Precedes(a: SortKey, b: SortKey)
  {
    match (a, b)
    case (ByName(n1, i1), ByName(n2, i2)) => LexLess(n1, n2) || (n1 == n2 && i1 < i2)
    case (ByIndex(g1, i1), ByIndex(g2, i2)) => g1 < g2 || (g1 == g2 && i1 < i2)
    case (ById(i1), ById(i2)) => i1 < i2
    case _ => VariantRank(a) < VariantRank(b)
  }

  lemma PrecedesIrreflexive(a: SortKey)
    ensures !Precedes(a, a)
  {
    if a.ByName? {
      LexLessIrreflexive(a.name);
    }
  }

  lemma PrecedesTransitive(a: SortKey, b: SortKey, c: SortKey)
    requires Precedes(a, b) && Precedes(b, c)
    ensures Precedes(a, c)
  {
    if a.ByName? && b.ByName? && c.ByName? {
      if LexLess(a.name, b.name) && LexLess(b.name, c.name) {
        LexLessTransitive(a.name, b.name, c.name);
      }
    }
  }

  /** Two different keys are always ordered one way or the other. */
  lemma PrecedesTotal(a: SortKey, b: SortKey)
    requires a != b
    ensures Precedes(a, b) || Precedes(b, a)
  {
    if a.ByName? && b.ByName? {
      LexLessTotal(a.name, b.name);
    }
  }

  /** Every row is listed strictly before every later row. */
  ghost predicate StrictlySorted<R>(rows: seq<R>, key: R -> SortKey)
  {
    forall i, j :: 0 <= i < j < |rows| ==> Precedes(key(rows[i]), key(rows[j]))
  }

  /** Every stored row carries the id it is stored under (the primary key). */
  ghost predicate KeyedBy<R>(table: map<int, R>, key: R -> SortKey)
  {
    forall k :: k in table ==> key(table[k]).id == k
  }

  /** `rows` lists exactly the rows of `table`, each once, in sort order. */
  ghost predicate IsListing<R>(table: map<int, R>, key: R -> SortKey, rows: seq<R>)
  {
    && StrictlySorted(rows, key)
    && (forall y :: y in rows ==> key(y).id in table && table[key(y).id] == y)
    && (forall k :: k in table ==> table[k] in rows)
  }

  lemma PrecedesAll<R>(x: R, rows: seq<R>, key: R -> SortKey)
    requires StrictlySorted(rows, key) && rows != []
    requires Precedes(key(x), key(rows[0]))
    ensures forall j :: 0 <= j < |rows| ==> Precedes(key(x), key(rows[j]))
  {
    forall j | 0 < j < |rows|
      ensures Precedes(key(x), key(rows[j]))
    {
      PrecedesTransitive(key(x), key(rows[0]), key(rows[j]));
    }
  }

  /** Inserts `x` into a sorted listing at its place. */
  function Insert<R(!new)>(rows: seq<R>, x: R, key: R -> SortKey): (r: seq<R>)
    requires StrictlySorted(rows, key)
    requires forall i :: 0 <= i < |rows| ==> key(rows[i]) != key(x)
    ensures StrictlySorted(r, key)
    ensures |r| == |rows| + 1
    ensures forall y :: y in r <==> y == x || y in rows
  {
    if rows == [] then [x]
    else if Precedes(key(x), key(rows[0])) then
      PrecedesAll(x, rows, key);
      [x] + rows
    else
      PrecedesTotal(key(x), key(rows[0]));
      var tail := Insert(rows[1..], x, key);
      assert forall y :: y in tail ==> Precedes(key(rows[0]), key(y));
      [rows[0]] + tail
  }

  /**
   * `listAll(Sort...)`: enumerates the table in whatever order the store yields
   * its rows and returns them in sort order.
   */
  method ListAll<R(!new)>(table: map<int, R>, key: R -> SortKey) returns (rows: seq<R>)
    requires KeyedBy(table, key)
    ensures IsListing(table, key, rows)
  {
    rows := [];
    var remaining := table.Keys;
    while remaining != {}
      invariant remaining <= table.Keys
      invariant StrictlySorted(rows, key)
      invariant forall y :: y in rows ==> key(y).id in table && key(y).id !in remaining && table[key(y).id] == y
      invariant forall k :: k in table && k !in remaining ==> table[k] in rows
      decreases remaining
    {
      assert (forall k :: k !in remaining) ==> remaining == {};
      var k :| k in remaining;
      rows := Insert(rows, table[k], key);
      remaining := remaining - {k};
    }
  }

  /** Two sorted listings with the same rows are the same listing. */
  lemma {:induction false} SortedWithSameRowsEqual<R>(r1: seq<R>, r2: seq<R>, key: R -> SortKey)
    requires StrictlySorted(r1, key) && StrictlySorted(r2, key)
    requires forall y :: y in r1 <==> y in r2
    ensures r1 == r2
  {
    assert r2 != [] ==> r2[0] in r2;
    if r1 == [] {
    } else {
      assert r1[0] in r2;
      var h1, h2 := r1[0], r2[0];
      if h1 != h2 {
        assert h2 in r1;
        var i :| 0 <= i < |r1| && r1[i] == h2;
        var j :| 0 <= j < |r2| && r2[j] == h1;
        PrecedesTransitive(key(h1), key(h2), key(h1));
        PrecedesIrreflexive(key(h1));
      }
      forall y
        ensures y in r1[1..] ==> y in r2[1..]
        ensures y in r2[1..] ==> y in r1[1..]
      {
        if y in r1[1..] {
          TailMember(r1, r2, key, y);
        }
        if y in r2[1..] {
          TailMember(r2, r1, key, y);
        }
      }
      SortedWithSameRowsEqual(r1[1..], r2[1..], key);
      assert r1 == [h1] + r1[1..] && r2 == [h2] + r2[1..];
    }
  }

  lemma TailMember<R>(r1: seq<R>, r2: seq<R>, key: R -> SortKey, y: R)
    requires StrictlySorted(r1, key) && StrictlySorted(r2, key)
    requires r1 != [] && r2 != [] && r1[0] == r2[0]
    requires y in r1[1..] && y in r2
    ensures y in r2[1..]
  {
    var m :| 1 <= m < |r1| && r1[m] == y;
    var n :| 0 <= n < |r2| && r2[n] == y;
    if n == 0 {
      assert Precedes(key(r1[0]), key(r1[m]));
      PrecedesIrreflexive(key(y));
    } else {
      assert r2[1..][n - 1] == y;
    }
  }

  /** The listing of a table is unique: `listAll` is deterministic whatever order
      the store enumerates its rows in. */
  lemma ListingUnique<R>(table: map<int, R>, key: R -> SortKey, r1: seq<R>, r2: seq<R>)
    requires IsListing(table, key, r1) && IsListing(table, key, r2)
    ensures r1 == r2
  {
    SortedWithSameRowsEqual(r1, r2, key);
  }
}

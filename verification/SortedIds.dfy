/** Collecting the keys of a map that satisfy a filter, in ascending order: the listing
    convention of the in-memory repositories. */
module SortedIds {

  ghost predicate Ascending(q: seq<nat>) {
    forall i, j | 0 <= i < j < |q| :: q[i] < q[j]
  }

  function InsertId(x: nat, q: seq<nat>): seq<nat> {
    if q == [] || x < q[0] then [x] + q else [q[0]] + InsertId(x, q[1..])
  }

  lemma {:induction false} InsertIdAscends(x: nat, q: seq<nat>)
    requires Ascending(q) && x !in q
    ensures Ascending(InsertId(x, q))
    ensures forall y :: y in InsertId(x, q) <==> y == x || y in q
  {
    if q != [] && !(x < q[0]) {
      InsertIdAscends(x, q[1..]);
      var tail := InsertId(x, q[1..]);
      assert forall y :: y in q <==> y == q[0] || y in q[1..];
      forall j | 0 <= j < |tail| ensures q[0] < tail[j] {
        assert tail[j] in tail;
        if tail[j] != x {
          var i :| 0 <= i < |q[1..]| && q[1..][i] == tail[j];
          assert q[0] < q[i + 1];
        } else {
          assert q[0] in q;
        }
      }
    }
  }

  lemma {:induction false} AscendingUnique(p: seq<nat>, q: seq<nat>)
    requires Ascending(p) && Ascending(q) && forall x :: x in p <==> x in q
    ensures p == q
  {
    assert |p| > 0 ==> p[0] in q;
    assert |q| > 0 ==> q[0] in p;
    if p != [] {
      forall x ensures x in p[1..] <==> x in q[1..] {
        assert x in p <==> x == p[0] || x in p[1..];
        assert x in q <==> x == q[0] || x in q[1..];
      }
      AscendingUnique(p[1..], q[1..]);
    }
  }

  /** sort.Slice over distinct ids collected in any order. */
  method Sort(ids: set<nat>) returns (q: seq<nat>)
    ensures Ascending(q)
    ensures forall x :: x in q <==> x in ids
  {
    q := [];
    var left := ids;
    while left != {}
      invariant left <= ids && Ascending(q)
      invariant forall x :: x in q <==> x in ids - left
      decreases |left|
    {
      var x :| x in left;
      InsertIdAscends(x, q);
      q := InsertId(x, q);
      left := left - {x};
    }
  }
}

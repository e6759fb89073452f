/** Row ordering for `ORDER BY id DESC LIMIT size OFFSET offset` and for the
    first row `fetchone()` returns. */
module Ordering {

  predicate StrictlyDescending(s: seq<int>) {
    forall i, j :: 0 <= i < j < |s| ==> s[i] > s[j]
  }

  predicate IsGreatest(s: set<int>, m: int) {
    m in s && forall y :: y in s ==> y <= m
  }

  predicate IsLeast(s: set<int>, m: int) {
    m in s && forall y :: y in s ==> m <= y
  }

  /** A set that is not empty has an element. */
  lemma NonEmptyHasElement(s: set<int>)
    requires s != {}
    ensures exists x :: x in s
  {
    if forall x :: x !in s {
      assert false;
    }
  }

  lemma {:induction false} GreatestExists(s: set<int>)
    requires s != {}
    ensures exists m :: IsGreatest(s, m)
  {
    NonEmptyHasElement(s);
    var x :| x in s;
    var rest := s - {x};
    if rest == {} {
      forall y | y in s ensures y <= x { assert y !in rest; }
      assert IsGreatest(s, x);
    } else {
      GreatestExists(rest);
      var m :| IsGreatest(rest, m);
      var g := if x <= m then m else x;
      forall y | y in s ensures y <= g { if y != x { assert y in rest; } }
      assert IsGreatest(s, g);
    }
  }

  /** The largest element of a non-empty set. */
  function Greatest(s: set<int>): (m: int)
    requires s != {}
    ensures IsGreatest(s, m)
  {
    GreatestExists(s);
    var m :| IsGreatest(s, m);
    m
  }

  /** The smallest element of a non-empty set: the negation of the largest negated element. */
  function Least(s: set<int>): (m: int)
    requires s != {}
    ensures IsLeast(s, m)
  {
    NonEmptyHasElement(s);
    var neg := set x | x in s :: -x;
    assert forall y :: y in s ==> -y in neg;
    var x :| x in s;
    assert -x in neg;
    var g := Greatest(neg);
    assert -g in s;
    -g
  }

  /** The ids of a table in `ORDER BY id DESC` order: each exactly once, largest first. */
  function DescendingIds(s: set<int>): (r: seq<int>)
    ensures StrictlyDescending(r)
    ensures |r| == |s|
    ensures forall x :: x in s <==> x in r
    decreases |s|
  {
    if s == {} then []
    else
      var m := Greatest(s);
      var rest := DescendingIds(s - {m});
      assert forall j :: 0 <= j < |rest| ==> rest[j] in s - {m};
      [m] + rest
  }

  /** In a strictly descending sequence every later element is below the head. */
  lemma TailBelowHead(r: seq<int>)
    requires StrictlyDescending(r) && |r| > 0
    ensures forall x :: x in r[1..] ==> x < r[0]
  {
    forall x | x in r[1..] ensures x < r[0] {
      var k :| 0 <= k < |r| - 1 && r[1..][k] == x;
      assert r[k + 1] == x;
    }
  }

  /** `DescendingIds` is the only strictly descending listing of the ids. */
  lemma {:induction false} DescendingIdsUnique(s: set<int>, r: seq<int>)
    requires StrictlyDescending(r)
    requires forall x :: x in s <==> x in r
    ensures r == DescendingIds(s)
    decreases |r|
  {
    if r == [] {
      NoElementsEmpty(s);
    } else {
      var tail := r[1..];
      assert r == [r[0]] + tail;
      TailBelowHead(r);
      assert r[0] in r;
      var m := Greatest(s);
      assert m in r;
      assert r[0] == m;
      forall x ensures x in s - {m} <==> x in tail {
        if x in tail { assert x in r; }
        if x in s - {m} { assert x in r; }
      }
      DescendingIdsUnique(s - {m}, tail);
    }
  }

  lemma NoElementsEmpty(s: set<int>)
    requires forall x :: x !in s
    ensures s == {}
  {
    var empty: set<int> := {};
    forall x ensures x in s <==> x in empty { }
    assert s == empty;
  }

  /** The largest id comes first: the newest row heads the listing. */
  lemma {:induction false} GreatestListedFirst(s: set<int>, id: int)
    requires id in s && forall x :: x in s ==> x <= id
    ensures DescendingIds(s)[0] == id
  {
    assert id <= Greatest(s);
  }

  /** `LIMIT size OFFSET offset` applied to a listing. */
  function Window(ids: seq<int>, offset: nat, size: nat): (w: seq<int>)
    ensures |w| <= size
    ensures |w| == if offset >= |ids| then 0 else if offset + size <= |ids| then size else |ids| - offset
    ensures forall i :: 0 <= i < |w| ==> offset + i < |ids| && w[i] == ids[offset + i]
  {
    if offset >= |ids| then []
    else ids[offset .. if offset + size <= |ids| then offset + size else |ids|]
  }

  /** A window of a descending listing is itself descending. */
  lemma WindowDescending(ids: seq<int>, offset: nat, size: nat)
    requires StrictlyDescending(ids)
    ensures StrictlyDescending(Window(ids, offset, size))
  {
  }

  /** With a fixed page size, every id on one page is larger than every id on the next. */
  lemma {:induction false} ConsecutivePagesOrdered(ids: seq<int>, page: nat, size: nat)
    requires StrictlyDescending(ids)
    ensures var w1, w2 := Window(ids, page * size, size), Window(ids, (page + 1) * size, size);
      forall i, j :: 0 <= i < |w1| && 0 <= j < |w2| ==> w1[i] > w2[j]
  {
    var w1, w2 := Window(ids, page * size, size), Window(ids, (page + 1) * size, size);
    forall i, j | 0 <= i < |w1| && 0 <= j < |w2| ensures w1[i] > w2[j] {
      assert page * size + i < (page + 1) * size + j;
    }
  }
}

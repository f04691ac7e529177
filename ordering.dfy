/** The order the store returns rows in when asked for `points` descending,
    which is also the order `Array.prototype.sort` leaves with the comparator
    `b.points - a.points`: points descending, equal points in input order. */
module Ordering {
  import opened Store

  /** Points never increase along `s`. */
  predicate SortedDesc(s: Table)
  {
    forall i, j :: 0 <= i < j < |s| ==> s[i].points >= s[j].points
  }

  /** `x` placed into a descending `s` after every row with more points and
      before every row with as many or fewer. */
  function Insert(x: User, s: Table): Table
  {
    if s == [] || s[0].points <= x.points then [x] + s else [s[0]] + Insert(x, s[1..])
  }

  /** `s` in points-descending order, rows with equal points in the order
      `s` has them (a stable sort). */
  function SortDesc(s: Table): Table
  {
    if s == [] then [] else Insert(s[0], SortDesc(s[1..]))
  }

  /** The rows of `s` with exactly `v` points, in order. */
  function WithPoints(s: Table, v: int): Table
  {
    if s == [] then [] else (if s[0].points == v then [s[0]] else []) + WithPoints(s[1..], v)
  }

  /** Every row of `Insert(x, s)` is `x` or a row of `s`, so a bound on both
      bounds the result. */
  lemma {:induction false} InsertBounded(x: User, s: Table, b: int)
    requires x.points <= b && forall i :: 0 <= i < |s| ==> s[i].points <= b
    ensures forall i :: 0 <= i < |Insert(x, s)| ==> Insert(x, s)[i].points <= b
    decreases |s|
  {
    if s != [] && s[0].points > x.points {
      InsertBounded(x, s[1..], b);
      var r := Insert(x, s);
      assert forall i :: 1 <= i < |r| ==> r[i] == Insert(x, s[1..])[i - 1];
    } else {
      var r := Insert(x, s);
      assert forall i :: 1 <= i < |r| ==> r[i] == s[i - 1];
    }
  }

  lemma {:induction false} InsertSorted(x: User, s: Table)
    requires SortedDesc(s)
    ensures SortedDesc(Insert(x, s))
    decreases |s|
  {
    var r := Insert(x, s);
    if s == [] || s[0].points <= x.points {
      assert forall i :: 1 <= i < |r| ==> r[i] == s[i - 1];
    } else {
      var tail := s[1..];
      assert forall i :: 0 <= i < |tail| ==> tail[i] == s[i + 1];
      InsertSorted(x, tail);
      InsertBounded(x, tail, s[0].points);
      assert forall i :: 1 <= i < |r| ==> r[i] == Insert(x, tail)[i - 1];
    }
  }

  lemma {:induction false} InsertPermutes(x: User, s: Table)
    ensures multiset(Insert(x, s)) == multiset(s) + multiset{x}
    decreases |s|
  {
    if s != [] && s[0].points > x.points {
      InsertPermutes(x, s[1..]);
      assert s == [s[0]] + s[1..];
    }
  }

  lemma WithPointsCons(u: User, t: Table, v: int)
    ensures WithPoints([u] + t, v) == (if u.points == v then [u] else []) + WithPoints(t, v)
  {
    assert ([u] + t)[0] == u && ([u] + t)[1..] == t;
  }

  lemma {:induction false} InsertStable(x: User, s: Table, v: int)
    ensures WithPoints(Insert(x, s), v) == (if x.points == v then [x] else []) + WithPoints(s, v)
    decreases |s|
  {
    if s == [] || s[0].points <= x.points {
      assert Insert(x, s) == [x] + s;
      WithPointsCons(x, s, v);
    } else {
      var rest := Insert(x, s[1..]);
      assert Insert(x, s) == [s[0]] + rest;
      assert s == [s[0]] + s[1..];
      InsertStable(x, s[1..], v);
      WithPointsCons(s[0], rest, v);
      WithPointsCons(s[0], s[1..], v);
      if s[0].points == v {
        assert x.points != v;
      }
    }
  }

  /** The ranking is in descending order of points, holds the same rows as
      its input (a permutation), and keeps rows with equal points in input
      order. */
  lemma {:induction false} SortDescCorrect(s: Table)
    ensures SortedDesc(SortDesc(s))
    ensures multiset(SortDesc(s)) == multiset(s)
    ensures forall v :: WithPoints(SortDesc(s), v) == WithPoints(s, v)
    decreases |s|
  {
    if s != [] {
      SortDescCorrect(s[1..]);
      InsertSorted(s[0], SortDesc(s[1..]));
      InsertPermutes(s[0], SortDesc(s[1..]));
      assert s == [s[0]] + s[1..];
      forall v
        ensures WithPoints(SortDesc(s), v) == WithPoints(s, v)
      {
        InsertStable(s[0], SortDesc(s[1..]), v);
        assert WithPoints(s, v) == (if s[0].points == v then [s[0]] else []) + WithPoints(s[1..], v);
      }
    }
  }
}

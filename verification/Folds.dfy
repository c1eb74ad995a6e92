/** Totals over groups of rows, in any commutative way of adding. */
module Folds {
  import opened Sums

  /** How totals are formed: what one row adds, and how two totals add up. */
  datatype Adding<!R, !A> = Adding(plus: (A, A) -> A, zero: A, one: R -> A)

  ghost predicate Regroups<R, A>(m: Adding<R, A>, x: A, y: A, z: A) {
    m.plus(m.plus(x, y), z) == m.plus(x, m.plus(y, z)) == m.plus(m.plus(x, z), y)
  }

  ghost predicate HasUnit<R, A>(m: Adding<R, A>, x: A) {
    m.plus(x, m.zero) == x == m.plus(m.zero, x)
  }

  ghost predicate Lawful<R, A(!new)>(m: Adding<R, A>) {
    (forall x, y, z :: Regroups(m, x, y, z)) && forall x :: HasUnit(m, x)
  }

  /** The total of the rows in a group. */
  function Total<R, A>(m: Adding<R, A>, group: R -> bool, rows: seq<R>): A {
    if rows == [] then m.zero
    else
      var before, last := Total(m, group, rows[..|rows| - 1]), rows[|rows| - 1];
      if group(last) then m.plus(before, m.one(last)) else before
  }

  lemma {:induction false} TotalSnoc<R, A>(m: Adding<R, A>, group: R -> bool, rows: seq<R>, r: R)
    ensures Total(m, group, rows + [r]) ==
            if group(r) then m.plus(Total(m, group, rows), m.one(r)) else Total(m, group, rows)
  {
    assert (rows + [r])[..|rows|] == rows;
  }

  /** A row may be taken out of the middle and added last. */
  lemma {:induction false} TotalMovesLast<R, A(!new)>(m: Adding<R, A>, group: R -> bool, a: seq<R>, r: R, b: seq<R>)
    requires Lawful(m)
    ensures Total(m, group, a + [r] + b) == Total(m, group, a + b + [r])
    decreases |b|
  {
    if b == [] {
      assert a + [r] + b == a + b + [r];
    } else {
      var n := |b| - 1;
      var c := b[..n];
      TotalMovesLast(m, group, a, r, c);
      assert a + [r] + b == (a + [r] + c) + [b[n]] && a + b == (a + c) + [b[n]];
      TotalSnoc(m, group, a + [r] + c, b[n]);
      TotalSnoc(m, group, a + c, r);
      TotalSnoc(m, group, a + c, b[n]);
      TotalSnoc(m, group, a + b, r);
      assert Regroups(m, Total(m, group, a + c), m.one(r), m.one(b[n]));
    }
  }

  /** Where the last element of one sequence is found in a reordering of it. */
  lemma {:induction false} PullLast<R>(s: seq<R>, t: seq<R>) returns (front: seq<R>, back: seq<R>)
    requires s != [] && multiset(s) == multiset(t)
    ensures t == front + [s[|s| - 1]] + back
    ensures multiset(s[..|s| - 1]) == multiset(front + back)
  {
    var n, r := |s| - 1, s[|s| - 1];
    assert r in multiset(t);
    var j :| 0 <= j < |t| && t[j] == r;
    front, back := t[..j], t[j + 1..];
    WithoutOne(s, n);
    WithoutOne(t, j);
    assert s[..n] + s[n + 1..] == s[..n];
  }

  /** Totals do not depend on the order of the rows. */
  lemma {:induction false} TotalIgnoresOrder<R, A(!new)>(m: Adding<R, A>, group: R -> bool, s: seq<R>, t: seq<R>)
    requires Lawful(m) && multiset(s) == multiset(t)
    ensures Total(m, group, s) == Total(m, group, t)
    decreases |s|
  {
    if s == [] {
      assert |multiset(t)| == 0;
      assert t == [];
    } else {
      var n, r := |s| - 1, s[|s| - 1];
      var front, back := PullLast(s, t);
      TotalIgnoresOrder(m, group, s[..n], front + back);
      TotalMovesLast(m, group, front, r, back);
      TotalSnoc(m, group, s[..n], r);
      TotalSnoc(m, group, front + back, r);
      assert s == s[..n] + [r];
    }
  }

  /** The total of a group that falls into two parts. */
  lemma {:induction false} TotalSplits<R, A(!new)>(
      m: Adding<R, A>, whole: R -> bool, a: R -> bool, b: R -> bool, rows: seq<R>)
    requires Lawful(m)
    requires forall r | r in rows :: (whole(r) <==> a(r) || b(r)) && !(a(r) && b(r))
    ensures Total(m, whole, rows) == m.plus(Total(m, a, rows), Total(m, b, rows))
  {
    if rows == [] {
      assert HasUnit(m, m.zero);
    } else {
      var n := |rows| - 1;
      var r, x, y := rows[n], Total(m, a, rows[..n]), Total(m, b, rows[..n]);
      assert r in rows;
      TotalSplits(m, whole, a, b, rows[..n]);
      assert Regroups(m, x, y, m.one(r));
    }
  }

  lemma {:induction false} TotalAgrees<R, A>(m: Adding<R, A>, a: R -> bool, b: R -> bool, rows: seq<R>)
    requires forall r | r in rows :: a(r) <==> b(r)
    ensures Total(m, a, rows) == Total(m, b, rows)
  {
    if rows != [] {
      assert rows[|rows| - 1] in rows;
      TotalAgrees(m, a, b, rows[..|rows| - 1]);
    }
  }

  lemma {:induction false} TotalOfNone<R, A>(m: Adding<R, A>, group: R -> bool, rows: seq<R>)
    requires forall r | r in rows :: !group(r)
    ensures Total(m, group, rows) == m.zero
  {
    if rows != [] {
      assert rows[|rows| - 1] in rows;
      TotalOfNone(m, group, rows[..|rows| - 1]);
    }
  }
}

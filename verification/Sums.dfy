/** Sums over sequences and over finite sets, images of sequences, and what reordering leaves unchanged. */
module Sums {

  // ----- sequences -----

  function Image<T, R>(f: T -> R, s: seq<T>): (r: seq<R>)
    ensures |r| == |s| && forall i | 0 <= i < |s| :: r[i] == f(s[i])
  {
    if s == [] then [] else Image(f, s[..|s| - 1]) + [f(s[|s| - 1])]
  }

  lemma {:induction false} WithoutOne<T>(s: seq<T>, i: nat)
    requires i < |s|
    ensures multiset(s[..i] + s[i + 1..]) == multiset(s) - multiset{s[i]}
  {
    assert s == s[..i] + [s[i]] + s[i + 1..];
  }

  lemma {:induction false} ImageCut<T, R>(f: T -> R, s: seq<T>, i: nat)
    requires i < |s|
    ensures Image(f, s)[..i] + Image(f, s)[i + 1..] == Image(f, s[..i] + s[i + 1..])
  {
    var cut, image, rest := s[..i] + s[i + 1..], Image(f, s), Image(f, s[..i] + s[i + 1..]);
    forall k | 0 <= k < |cut| ensures (image[..i] + image[i + 1..])[k] == rest[k] {
      assert cut[k] == s[if k < i then k else k + 1];
    }
  }

  lemma {:induction false} ImageWithoutOne<T, R>(f: T -> R, s: seq<T>, i: nat)
    requires i < |s|
    ensures f(s[i]) in multiset(Image(f, s))
    ensures multiset(Image(f, s[..i] + s[i + 1..])) == multiset(Image(f, s)) - multiset{f(s[i])}
  {
    assert Image(f, s)[i] in Image(f, s);
    WithoutOne(Image(f, s), i);
    ImageCut(f, s, i);
  }

  lemma {:induction false} SameButOne<T>(a: multiset<T>, b: multiset<T>, x: T)
    requires x in a && x in b && a - multiset{x} == b - multiset{x}
    ensures a == b
  {
    assert a == a - multiset{x} + multiset{x};
    assert b == b - multiset{x} + multiset{x};
  }

  /** Where the first element of a sequence went in a reordering. */
  lemma {:induction false} Elsewhere<T>(s: seq<T>, t: seq<T>) returns (i: nat)
    requires s != [] && multiset(s) == multiset(t)
    ensures i < |t| && t[i] == s[0]
    ensures multiset(s[..0] + s[1..]) == multiset(t[..i] + t[i + 1..])
    ensures |s[..0] + s[1..]| < |s|
  {
    assert s[0] in multiset(t);
    i :| 0 <= i < |t| && t[i] == s[0];
    WithoutOne(s, 0);
    WithoutOne(t, i);
  }

  /** Reordering the arguments reorders the results. */
  lemma {:induction false} ImagePermutation<T, R>(f: T -> R, s: seq<T>, t: seq<T>)
    requires multiset(s) == multiset(t)
    ensures multiset(Image(f, s)) == multiset(Image(f, t))
  {
    if s == [] {
      assert |multiset(t)| == 0;
    } else {
      var i := Elsewhere(s, t);
      ImagePermutation(f, s[..0] + s[1..], t[..i] + t[i + 1..]);
      ImageWithoutOne(f, s, 0);
      ImageWithoutOne(f, t, i);
      SameButOne(multiset(Image(f, s)), multiset(Image(f, t)), f(s[0]));
    }
  }

  // ----- sums -----

  function SumBy<T>(f: T -> int, s: seq<T>): int {
    if s == [] then 0 else f(s[0]) + SumBy(f, s[1..])
  }

  ghost function SumOver<T>(f: T -> int, s: set<T>): int {
    if s == {} then 0 else var x :| x in s; f(x) + SumOver(f, s - {x})
  }

  lemma {:induction false} SumByConcat<T>(f: T -> int, s: seq<T>, t: seq<T>)
    ensures SumBy(f, s + t) == SumBy(f, s) + SumBy(f, t)
  {
    if s == [] {
      assert s + t == t;
    } else {
      assert (s + t)[1..] == s[1..] + t;
      SumByConcat(f, s[1..], t);
    }
  }

  lemma {:induction false} SumBySnoc<T>(f: T -> int, s: seq<T>, x: T)
    ensures SumBy(f, s + [x]) == SumBy(f, s) + f(x)
  {
    SumByConcat(f, s, [x]);
    assert SumBy(f, [x]) == f(x) + SumBy(f, []);
  }

  lemma {:induction false} SumByWithoutOne<T>(f: T -> int, s: seq<T>, i: nat)
    requires i < |s|
    ensures SumBy(f, s) == f(s[i]) + SumBy(f, s[..i] + s[i + 1..])
  {
    assert s == s[..i] + ([s[i]] + s[i + 1..]);
    SumByConcat(f, s[..i], [s[i]] + s[i + 1..]);
    SumByConcat(f, [s[i]], s[i + 1..]);
    SumBySnoc(f, [], s[i]);
    assert [] + [s[i]] == [s[i]];
    SumByConcat(f, s[..i], s[i + 1..]);
  }

  /** The order of the summands does not matter. */
  lemma {:induction false} SumByPermutation<T>(f: T -> int, s: seq<T>, t: seq<T>)
    requires multiset(s) == multiset(t)
    ensures SumBy(f, s) == SumBy(f, t)
  {
    if s == [] {
      assert |multiset(t)| == 0;
    } else {
      var i := Elsewhere(s, t);
      SumByPermutation(f, s[..0] + s[1..], t[..i] + t[i + 1..]);
      SumByWithoutOne(f, s, 0);
      SumByWithoutOne(f, t, i);
    }
  }

  /** Taking any one element out of a set takes its summand out of the sum. */
  lemma {:induction false} SumOverRemove<T>(f: T -> int, s: set<T>, x: T)
    requires x in s
    ensures SumOver(f, s) == f(x) + SumOver(f, s - {x})
    decreases |s|
  {
    var y :| y in s && SumOver(f, s) == f(y) + SumOver(f, s - {y});
    if y != x {
      SumOverRemove(f, s - {y}, x);
      SumOverRemove(f, s - {x}, y);
      assert s - {y} - {x} == s - {x} - {y};
    }
  }

  lemma {:induction false} SumOverAdd<T>(f: T -> int, s: set<T>, x: T)
    requires x !in s
    ensures SumOver(f, s + {x}) == SumOver(f, s) + f(x)
  {
    SumOverRemove(f, s + {x}, x);
    assert s + {x} - {x} == s;
  }

  /** If no summand exceeds a bound, the sum is at most that many times the bound. */
  lemma {:induction false} SumOverAtMost<T>(f: T -> int, s: set<T>, bound: int)
    requires forall x | x in s :: f(x) <= bound
    ensures SumOver(f, s) <= |s| * bound
    decreases |s|
  {
    if s != {} {
      var x :| x in s;
      SumOverRemove(f, s, x);
      SumOverAtMost(f, s - {x}, bound);
      assert |s| * bound == (|s| - 1) * bound + bound;
    }
  }

  lemma {:induction false} SumOverAgrees<T>(f: T -> int, g: T -> int, s: set<T>)
    requires forall x | x in s :: f(x) == g(x)
    ensures SumOver(f, s) == SumOver(g, s)
    decreases |s|
  {
    if s != {} {
      var x :| x in s;
      SumOverRemove(f, s, x);
      SumOverRemove(g, s, x);
      SumOverAgrees(f, g, s - {x});
    }
  }

  lemma {:induction false} SumOverZero<T>(f: T -> int, s: set<T>)
    requires forall x | x in s :: f(x) == 0
    ensures SumOver(f, s) == 0
    decreases |s|
  {
    if s != {} {
      var x :| x in s;
      SumOverRemove(f, s, x);
      SumOverZero(f, s - {x});
    }
  }

  /** Summands no larger, over a smaller set, have no larger sum if the rest is not negative. */
  lemma {:induction false} SumOverMonotone<T>(f: T -> int, g: T -> int, s: set<T>, t: set<T>)
    requires s <= t && forall x | x in t :: (if x in s then f(x) else 0) <= g(x)
    ensures SumOver(f, s) <= SumOver(g, t)
    decreases |t|
  {
    if t != {} {
      var x :| x in t;
      SumOverRemove(g, t, x);
      if x in s {
        SumOverRemove(f, s, x);
        SumOverMonotone(f, g, s - {x}, t - {x});
      } else {
        SumOverMonotone(f, g, s, t - {x});
      }
    }
  }
}

/** How often something occurs in a sequence, and sizes of sets. */
module Counting {

  function Count<T(==)>(xs: seq<T>, x: T): nat {
    if |xs| == 0 then 0 else Count(xs[..|xs| - 1], x) + (if xs[|xs| - 1] == x then 1 else 0)
  }

  lemma {:induction false} CountUpdate<T>(xs: seq<T>, i: nat, y: T, x: T)
    requires i < |xs|
    ensures Count(xs[i := y], x) + (if xs[i] == x then 1 else 0) == Count(xs, x) + (if y == x then 1 else 0)
  {
    var n := |xs| - 1;
    if i == n {
      assert xs[i := y][..n] == xs[..n];
    } else {
      assert xs[i := y][..n] == xs[..n][i := y];
      CountUpdate(xs[..n], i, y, x);
    }
  }

  lemma CountAppend<T>(xs: seq<T>, y: T, x: T)
    ensures Count(xs + [y], x) == Count(xs, x) + (if y == x then 1 else 0)
  {
    assert (xs + [y])[..|xs|] == xs;
  }

  lemma {:induction false} CountPositive<T>(xs: seq<T>, i: nat)
    requires i < |xs|
    ensures Count(xs, xs[i]) > 0
  {
    if i < |xs| - 1 {
      CountPositive(xs[..|xs| - 1], i);
    }
  }

  lemma {:induction false} CountWitness<T>(xs: seq<T>, x: T) returns (i: nat)
    requires Count(xs, x) > 0
    ensures i < |xs| && xs[i] == x
  {
    if xs[|xs| - 1] == x {
      i := |xs| - 1;
    } else {
      i := CountWitness(xs[..|xs| - 1], x);
    }
  }

  lemma {:induction false} CountPrefix<T>(xs: seq<T>, n: nat, x: T)
    requires n <= |xs|
    ensures Count(xs[..n], x) <= Count(xs, x)
  {
    if n < |xs| {
      CountPrefix(xs[..|xs| - 1], n, x);
      assert xs[..|xs| - 1][..n] == xs[..n];
    } else {
      assert xs[..n] == xs;
    }
  }

  /** Two sequences with x and y in the same places. */
  lemma {:induction false} CountSame<T>(xs: seq<T>, ys: seq<T>, x: T, y: T)
    requires |xs| == |ys| && forall i | 0 <= i < |xs| :: xs[i] == x <==> ys[i] == y
    ensures Count(xs, x) == Count(ys, y)
  {
    if |xs| > 0 {
      CountSame(xs[..|xs| - 1], ys[..|ys| - 1], x, y);
    }
  }

  lemma {:induction false} SubsetSize<T>(a: set<T>, b: set<T>)
    requires a <= b
    ensures |a| <= |b|
  {
    if a != {} {
      var x :| x in a;
      SubsetSize(a - {x}, b - {x});
    }
  }
}

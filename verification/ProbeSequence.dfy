/**
 The probe sequence of the open-addressing table.

 Step i of a probe looks at the W consecutive positions that start at offset
 p + W * (1 + 2 + ... + i) on the ring of capacity + 1 positions. When W and the
 ring size are powers of two, these windows tile the ring: the first M / W steps
 visit every window exactly once.

 `x & mask` is written `x % (mask + 1)` throughout, which is the same for the
 masks used here (2^k - 1), also when an unsigned subtraction wraps, because
 mask + 1 divides 2^64.
 */
module ProbeSequence {

  predicate IsPow2(n: nat)
    decreases n
  {
    n == 1 || (n > 1 && n % 2 == 0 && IsPow2(n / 2))
  }

  /** The group widths of the two Group implementations. */
  predicate IsWidth(w: int) {
    w == 8 || w == 16
  }

  /** The sizes of ring a table can have: capacity + 1 (capacity 0 before the first insertion). */
  ghost predicate IsRing(m: int, w: int) {
    IsWidth(w) && m >= 1 && IsPow2(m)
  }

  /** The sum 1 + 2 + ... + i. */
  function Tri(i: nat): nat {
    if i == 0 then 0 else Tri(i - 1) + i
  }

  /** The number of different windows: one, if a window is as large as the ring. */
  function NumWindows(m: nat, w: nat): (n: nat)
    requires m > 0 && w > 0
    ensures n > 0
  {
    if m < w then 1 else assert m / w >= 1 by { DivAtLeastOne(m, w); } m / w
  }

  /** Where step i of the probe that starts at position p begins: each step advances by W more than the one before. */
  function WindowStart(p: nat, i: nat, m: nat, w: nat): (o: nat)
    requires m > 0
    ensures o < m
  {
    if i == 0 then p % m else (WindowStart(p, i - 1, m, w) + w * i) % m
  }

  /** Position s of the ring is one of the w positions that start at o. */
  predicate InWindow(o: nat, w: nat, m: nat, s: nat)
    requires m > 0
  {
    (s - o) % m < w
  }

  /** The window that position s is in, counted around the ring from p. */
  function Tile(p: nat, s: nat, m: nat, w: nat): nat
    requires m > 0 && w > 0
  {
    ((s - p) % m) / w
  }

  // ---------------------------------------------------------------- arithmetic

  lemma MulMono(c: nat, a: int, b: int)
    requires a <= b
    ensures c * a <= c * b
  {
    assert c * b == c * a + c * (b - a);
  }

  lemma MulStep(c: nat, a: int)
    ensures c * (a + 1) == c * a + c
    ensures c * (a - 1) == c * a - c
  {
  }

  lemma DivAtLeastOne(m: nat, w: nat)
    requires 0 < w <= m
    ensures m / w >= 1
  {
    assert m == w * (m / w) + m % w;
  }

  lemma MulBound(b: int, k: int)
    requires b >= 0
    ensures k >= 1 ==> b * k >= b
    ensures k <= -1 ==> b * k <= -b
  {
    if k >= 1 {
      MulMono(b, 1, k);
    }
    if k <= -1 {
      MulMono(b, k, -1);
    }
  }

  lemma DivModUnique(a: int, b: int, q: int, r: int)
    requires b > 0 && a == b * q + r && 0 <= r < b
    ensures a / b == q && a % b == r
  {
    assert b * (a / b) + a % b == a;
    assert b * (a / b - q) == r - a % b;
    MulBound(b, a / b - q);
  }

  /** x and y are the same position of a ring of m when they differ by a multiple of m. */
  lemma ModShift(x: int, k: int, m: int)
    requires m > 0
    ensures (x + m * k) % m == x % m
  {
    assert x == m * (x / m) + x % m;
    assert x + m * k == m * (x / m + k) + x % m by {
      assert m * (x / m + k) == m * (x / m) + m * k;
    }
    DivModUnique(x + m * k, m, x / m + k, x % m);
  }

  lemma ModSum(x: int, y: int, m: int)
    requires m > 0
    ensures (x + y % m) % m == (x + y) % m
    ensures (x % m + y) % m == (x + y) % m
    ensures (x - y % m) % m == (x - y) % m
  {
    ModAdd(x, y, m);
    ModAdd(y, x, m);
    ModSubtract(x, y, m);
  }

  lemma ModAdd(x: int, y: int, m: int)
    requires m > 0
    ensures (x + y % m) % m == (x + y) % m
  {
    assert y == m * (y / m) + y % m;
    ModShift(x + y % m, y / m, m);
  }

  lemma ModSubtract(x: int, y: int, m: int)
    requires m > 0
    ensures (x - y % m) % m == (x - y) % m
  {
    assert y == m * (y / m) + y % m;
    assert m * -(y / m) == -(m * (y / m));
    ModShift(x - y % m, -(y / m), m);
  }

  /** The position of a ring that has gone around at most once in either direction. */
  lemma ModNear(x: int, m: int)
    requires m > 0 && -m <= x < 2 * m
    ensures x % m == if x < 0 then x + m else if x < m then x else x - m
  {
    if x < 0 {
      DivModUnique(x, m, -1, x + m);
    } else if x < m {
      DivModUnique(x, m, 0, x);
    } else {
      DivModUnique(x, m, 1, x - m);
    }
  }

  /** Moving x by y along the ring moves its distance from o by y. */
  lemma RingShift(x: int, y: int, o: int, m: int)
    requires m > 0
    ensures ((x + y) % m - o) % m == ((x - o) % m + y) % m
  {
    ModSum(0 - o, x + y, m);
    ModSum(y, x - o, m);
    assert (0 - o) + (x + y) == y + (x - o);
    assert (0 - o) + (x + y) % m == (x + y) % m - o;
    assert y + (x - o) % m == (x - o) % m + y;
  }

  /** A smaller power of two divides a larger one. */
  lemma {:induction false} Pow2Divides(m: nat, w: nat)
    requires IsPow2(m) && IsPow2(w) && w <= m
    ensures m % w == 0 && m == w * (m / w) && m / w >= 1 && IsPow2(m / w)
    decreases m
  {
    if m == w {
      DivModUnique(m, w, 1, 0);
    } else {
      HalfPow2(m, w);
      Pow2Divides(m / 2, w);
      TwiceDivides(m, w, m / 2 / w);
    }
  }

  lemma TwiceDivides(m: nat, w: nat, q: nat)
    requires w > 0 && m % 2 == 0 && m / 2 == w * q
    ensures m % w == 0 && m / w == 2 * q && m == w * (m / w)
  {
    TwiceTimes(q, w);
    assert w * (2 * q) == 2 * (w * q);
    DivModUnique(m, w, 2 * q, 0);
  }

  lemma {:induction false} HalfPow2(m: nat, w: nat)
    requires IsPow2(m) && IsPow2(w) && w < m
    ensures w <= m / 2
    decreases m
  {
    if w > 1 {
      HalfPow2(m / 2, w / 2);
    }
  }

  lemma WidthIsPow2(w: nat)
    requires IsWidth(w)
    ensures IsPow2(w)
  {
    assert IsPow2(1) && IsPow2(2) && IsPow2(4) && IsPow2(8);
  }

  /** On a ring larger than one window, the windows divide the ring evenly. */
  lemma RingDivides(m: nat, w: nat)
    requires IsRing(m, w) && m >= w
    ensures m == w * NumWindows(m, w) && IsPow2(NumWindows(m, w))
  {
    WidthIsPow2(w);
    Pow2Divides(m, w);
  }

  /** A ring smaller than the group width divides it: then one window holds the ring (at least) twice. */
  lemma SmallRing(m: nat, w: nat)
    requires IsRing(m, w) && m < w
    ensures 2 * m <= w && w % m == 0
  {
    WidthIsPow2(w);
    HalfPow2(w, m);
    Pow2Divides(w, m);
  }

  // ------------------------------------------------------------ triangular steps

  lemma {:induction false} TriTwice(i: nat)
    ensures 2 * Tri(i) == i * (i + 1)
  {
    if i > 0 {
      TriTwice(i - 1);
    }
  }

  /** If a power of two divides a * b and a is odd, it divides b. */
  lemma {:induction false} OddFactor(p: nat, a: nat, b: nat, k: nat) returns (c: nat)
    requires IsPow2(p) && a % 2 == 1 && a * b == p * k
    ensures b == p * c
    decreases p
  {
    if p == 1 {
      c := b;
    } else {
      var x, h := a / 2, p / 2;
      assert a * b == 2 * (x * b) + b by { assert a == 2 * x + 1; }
      assert p * k == 2 * (h * k) by { assert p == 2 * h; }
      var b' := b / 2;
      assert b == 2 * b';
      assert a * b == 2 * (a * b');
      c := OddFactor(h, a, b', k);
      assert p * c == 2 * (h * c);
    }
  }

  /** If the power of two p divides a * b and a is odd, then b is at least p. */
  lemma FactorIsLarge(p: nat, a: nat, b: nat, k: nat)
    requires IsPow2(p) && a * b == p * k && a % 2 == 1 && b > 0
    ensures b >= p
  {
    var c := OddFactor(p, a, b, k);
    MulBound(p, c);
  }

  /** The first n triangular numbers are all different modulo n, for n a power of two. */
  lemma TriDistinct(i: nat, j: nat, n: nat)
    requires IsPow2(n) && i < j < n
    ensures Tri(i) % n != Tri(j) % n
  {
    if Tri(i) % n == Tri(j) % n {
      var k := SameResidue(Tri(i), Tri(j), n);
      TriDifference(i, j);
      FactorSign(n, k);
      OneFactorIsLarge(n, j - i, i + j + 1, k);
    }
  }

  lemma OneFactorIsLarge(n: nat, a: nat, b: nat, k: nat)
    requires IsPow2(n) && a * b == 2 * (n * k) && (a + b) % 2 == 1 && a > 0 && b > 0
    ensures a >= 2 * n || b >= 2 * n
  {
    TwiceTimes(n, k);
    OneIsOdd(a, b);
    TwicePow2(n);
    if a % 2 == 1 {
      FactorIsLarge(2 * n, a, b, k);
    } else {
      Commutes(a, b);
      FactorIsLarge(2 * n, b, a, k);
    }
  }

  lemma TwiceTimes(n: nat, k: nat)
    ensures (2 * n) * k == 2 * (n * k)
  {
  }

  lemma Commutes(a: nat, b: nat)
    ensures a * b == b * a
  {
  }

  lemma OneIsOdd(a: nat, b: nat)
    requires (a + b) % 2 == 1
    ensures a % 2 == 1 || b % 2 == 1
  {
  }

  lemma TwicePow2(n: nat)
    requires IsPow2(n)
    ensures IsPow2(2 * n)
  {
  }

  lemma SameResidue(x: nat, y: nat, n: nat) returns (k: int)
    requires n > 0 && x % n == y % n
    ensures y - x == n * k
  {
    k := y / n - x / n;
    assert y == n * (y / n) + y % n;
    assert x == n * (x / n) + x % n;
  }

  lemma FactorSign(n: nat, k: int)
    requires n * k > 0
    ensures k > 0
  {
  }

  lemma TriDifference(i: nat, j: nat)
    requires i < j
    ensures (j - i) * (i + j + 1) == 2 * (Tri(j) - Tri(i)) > 0
  {
    TriTwice(i);
    TriTwice(j);
    assert (j - i) * (i + j + 1) == j * (j + 1) - i * (i + 1);
    assert (j - i) * (i + j + 1) > 0;
  }

  ghost function TriResidues(k: nat, n: nat): set<int>
    requires n > 0
  {
    set i | 0 <= i < k :: Tri(i) % n
  }

  lemma {:induction false} TriResiduesSize(k: nat, n: nat)
    requires IsPow2(n) && k <= n
    ensures |TriResidues(k, n)| == k
  {
    if k > 0 {
      TriResiduesSize(k - 1, n);
      assert TriResidues(k, n) == TriResidues(k - 1, n) + {Tri(k - 1) % n};
      forall i | 0 <= i < k - 1 ensures Tri(i) % n != Tri(k - 1) % n {
        TriDistinct(i, k - 1, n);
      }
    }
  }

  ghost function UpTo(n: nat): set<int> {
    if n == 0 then {} else UpTo(n - 1) + {n - 1}
  }

  lemma {:induction false} UpToSize(n: nat)
    ensures |UpTo(n)| == n && forall x :: x in UpTo(n) <==> 0 <= x < n
  {
    if n > 0 {
      UpToSize(n - 1);
    }
  }

  lemma SubsetOfSameSize<T>(a: set<T>, b: set<T>)
    requires a <= b && |a| == |b|
    ensures a == b
  {
    assert b == a + (b - a);
    assert |b - a| == 0;
  }

  /** Every residue modulo n is met by one of the first n triangular numbers. */
  lemma TriCovers(t: nat, n: nat) returns (i: nat)
    requires IsPow2(n) && t < n
    ensures i < n && Tri(i) % n == t
  {
    var all := UpTo(n);
    UpToSize(n);
    TriResiduesSize(n, n);
    assert TriResidues(n, n) <= all;
    SubsetOfSameSize(TriResidues(n, n), all);
    assert t in TriResidues(n, n);
    i :| 0 <= i < n && Tri(i) % n == t;
  }

  // -------------------------------------------------------------------- windows

  /** On a ring of at least one window, step i covers exactly the tile numbered Tri(i) modulo the number of windows. */
  lemma WindowIsTile(p: nat, i: nat, s: nat, m: nat, w: nat)
    requires IsRing(m, w) && m >= w && p < m && s < m
    ensures InWindow(WindowStart(p, i, m, w), w, m, s) <==> Tile(p, s, m, w) == Tri(i) % NumWindows(m, w)
  {
    RingDivides(m, w);
    var n := NumWindows(m, w);
    var q := Tri(i) % n;
    WindowStartOfTile(p, i, m, w, n);
    DistanceFrom(s, p, w * q, m);
    TileRange(w, q, n, m);
    InTile((s - p) % m, q, w, m);
  }

  /** The distance of s from the position y beyond p. */
  lemma DistanceFrom(s: int, p: int, y: int, m: int)
    requires m > 0
    ensures (s - (p + y) % m) % m == ((s - p) % m - y) % m
  {
    ModSum(s, p + y, m);
    ModSum(s - p, -y, m);
  }

  /** The steps add up to W times a triangular number. */
  lemma {:induction false} WindowStartClosed(p: nat, i: nat, m: nat, w: nat)
    requires m > 0
    ensures WindowStart(p, i, m, w) == (p + w * Tri(i)) % m
  {
    if i > 0 {
      WindowStartClosed(p, i - 1, m, w);
      TriStep(w, i);
      AddModulo(WindowStart(p, i - 1, m, w), p + w * Tri(i - 1), w * i, p + w * Tri(i), m);
    } else {
      TimesZero(w);
    }
  }

  lemma AddModulo(o: int, x: int, y: int, z: int, m: int)
    requires m > 0 && o == x % m && z == x + y
    ensures (o + y) % m == z % m
  {
    ModAdd(y, x, m);
  }

  lemma TimesZero(w: nat)
    ensures w * Tri(0) == 0
  {
  }

  lemma TriStep(w: nat, i: nat)
    requires i > 0
    ensures w * Tri(i - 1) + w * i == w * Tri(i)
  {
  }

  lemma WindowStartOfTile(p: nat, i: nat, m: nat, w: nat, n: nat)
    requires m > 0 && w > 0 && n > 0 && m == w * n
    ensures WindowStart(p, i, m, w) == (p + w * (Tri(i) % n)) % m
  {
    WindowStartClosed(p, i, m, w);
    MulSplit(w, n, Tri(i), m);
    SamePosition(p + w * Tri(i), p + w * (Tri(i) % n), Tri(i) / n, m);
  }

  lemma MulSplit(w: nat, n: nat, t: nat, m: nat)
    requires n > 0 && m == w * n
    ensures w * t == m * (t / n) + w * (t % n)
  {
    MulSum(w, n, t / n, t % n, m);
    assert t == n * (t / n) + t % n;
  }

  lemma MulSum(w: nat, n: nat, k: nat, q: nat, m: nat)
    requires m == w * n
    ensures w * (n * k + q) == m * k + w * q
  {
    assert w * (n * k) == (w * n) * k;
  }

  lemma SamePosition(x: int, y: int, k: int, m: int)
    requires m > 0 && x == y + m * k
    ensures x % m == y % m
  {
    ModShift(y, k, m);
  }

  lemma TileRange(w: nat, q: nat, n: nat, m: nat)
    requires m == w * n && q < n
    ensures 0 <= w * q <= m - w
  {
    MulMono(w, q, n - 1);
    MulStep(w, n);
  }

  lemma InTile(x: nat, q: nat, w: nat, m: nat)
    requires 0 < w && x < m && 0 <= w * q <= m - w
    ensures (x - w * q) % m < w <==> x / w == q
  {
    ModNear(x - w * q, m);
    assert x == w * (x / w) + x % w;
    if 0 <= x - w * q < w {
      DivModUnique(x, w, q, x - w * q);
    }
  }

  /** Every position is in exactly one of the first NumWindows windows of a probe. */
  lemma ProbeVisitsEachPositionOnce(p: nat, s: nat, m: nat, w: nat) returns (i: nat)
    requires IsRing(m, w) && p < m && s < m
    ensures i < NumWindows(m, w) && InWindow(WindowStart(p, i, m, w), w, m, s)
    ensures forall j: nat :: j < NumWindows(m, w) && InWindow(WindowStart(p, j, m, w), w, m, s) ==> j == i
  {
    if m < w {
      i := 0;
    } else {
      RingDivides(m, w);
      var n := NumWindows(m, w);
      var t := Tile(p, s, m, w);
      assert t < n by {
        var x := (s - p) % m;
        assert x == w * (x / w) + x % w;
        assert w * n == m && w * t <= x;
        if t >= n { MulMono(w, n, t); }
      }
      i := TriCovers(t, n);
      WindowIsTile(p, i, s, m, w);
      forall j: nat | j < n && InWindow(WindowStart(p, j, m, w), w, m, s) ensures j == i {
        WindowIsTile(p, j, s, m, w);
        if j < i { TriDistinct(j, i, n); }
        if i < j { TriDistinct(i, j, n); }
      }
    }
  }

  /** The cursor of a probe: its members are the fields of probe_seq. */
  class ProbeSeq {
    const mask: nat
    const width: nat
    var offset: nat
    var index: nat
    ghost const start: nat
    ghost var step: nat

    ghost predicate Valid()
      reads this
    {
      && width > 0
      && start < mask + 1
      && index == width * step
      && offset == WindowStart(start, step, mask + 1, width)
    }

    constructor (hash: nat, mask: nat, width: nat)
      requires width > 0
      ensures Valid() && this.mask == mask && this.width == width
      ensures step == 0 && start == hash % (mask + 1)
    {
      this.mask, this.width := mask, width;
      offset, index := hash % (mask + 1), 0;
      start, step := hash % (mask + 1), 0;
    }

    /** The position of the i-th byte of the current window. */
    function At(i: nat): nat
      reads this
    {
      (offset + i) % (mask + 1)
    }

    method Next()
      requires Valid()
      modifies this
      ensures Valid() && step == old(step) + 1
    {
      index := index + width;
      offset := (offset + index) % (mask + 1);
      step := step + 1;
      assert width * step == width * old(step) + width;
    }
  }
}

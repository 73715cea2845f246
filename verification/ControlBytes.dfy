/**
 Control bytes: one per slot, then a sentinel, then copies of the first bytes so
 that a group can be loaded at any ring position without wrapping.

 A table of capacity c is described by its ring r, the c control bytes that
 belong to slots. Position c of the ring is the sentinel. Everything else in the
 control array is determined by r (see ByteAt).
 */
module ControlBytes {
  import opened ProbeSequence
  import Counting

  type Ctrl = x: int | -128 <= x <= 127

  const EMPTY: Ctrl := -128
  const DELETED: Ctrl := -2
  const SENTINEL: Ctrl := -1

  function H1(hash: nat): nat {
    hash / 128
  }

  function H2(hash: nat): (h: Ctrl)
    ensures IsFull(h)
  {
    hash % 128
  }

  /** The two parts of a hash make up the whole: the seven low bits, and the others. */
  lemma HashSplits(hash: nat)
    ensures 128 * H1(hash) + H2(hash) == hash && 0 <= H2(hash) < 128
  {
  }

  predicate IsEmpty(c: Ctrl) { c == EMPTY }
  predicate IsFull(c: Ctrl) { c >= 0 }
  predicate IsDeleted(c: Ctrl) { c == DELETED }
  predicate IsEmptyOrDeleted(c: Ctrl) { c < SENTINEL }

  /** The bytes a slot can have. */
  predicate IsMark(c: Ctrl) {
    IsEmpty(c) || IsDeleted(c) || IsFull(c)
  }

  ghost predicate IsRingOfMarks(r: seq<Ctrl>, w: int) {
    IsRing(|r| + 1, w) && forall s | 0 <= s < |r| :: IsMark(r[s])
  }

  /** Byte i of the control array of a table whose ring is r. */
  function ByteAt(r: seq<Ctrl>, i: nat): Ctrl {
    if i < |r| then r[i]
    else if i == |r| then SENTINEL
    else if i - |r| - 1 < |r| then r[i - |r| - 1]
    else EMPTY
  }

  /** The bytes a[0 .. |r| + w) are those of ring r; the last byte of the allocation is never read. */
  ghost predicate Mirrors(a: seq<Ctrl>, r: seq<Ctrl>, w: nat) {
    |a| == |r| + w + 1 && forall i | 0 <= i < |r| + w :: a[i] == ByteAt(r, i)
  }

  /** g is the group of w bytes loaded at ring position o. */
  ghost predicate IsGroup(g: seq<Ctrl>, r: seq<Ctrl>, o: nat, w: nat) {
    |g| == w && forall k | 0 <= k < w :: g[k] == ByteAt(r, o + k)
  }

  lemma GroupIsSlice(a: seq<Ctrl>, r: seq<Ctrl>, o: nat, w: nat)
    requires Mirrors(a, r, w) && o <= |r|
    ensures IsGroup(a[o..o + w], r, o, w)
  {
  }

  /**
   Byte k of the group at o is the byte of slot (o + k) % (capacity + 1), if that is a slot;
   otherwise it is the sentinel or, in a table smaller than a group, a dummy empty byte after the copies.
   */
  lemma GroupReadsRing(r: seq<Ctrl>, o: nat, k: nat, w: nat)
    requires IsRing(|r| + 1, w) && o <= |r| && k < w
    ensures o + k < 2 * |r| + 1 && (o + k) % (|r| + 1) < |r| ==> ByteAt(r, o + k) == r[(o + k) % (|r| + 1)]
    ensures o + k < 2 * |r| + 1 && (o + k) % (|r| + 1) == |r| ==> ByteAt(r, o + k) == SENTINEL
    ensures o + k >= 2 * |r| + 1 ==> ByteAt(r, o + k) == EMPTY && |r| + 1 < w
  {
    if o + k < 2 * |r| + 1 {
      ModNear(o + k, |r| + 1);
    }
  }

  /** A full byte in a group names a real slot with that byte. */
  lemma FullByteNamesSlot(r: seq<Ctrl>, o: nat, k: nat, w: nat)
    requires IsRing(|r| + 1, w) && o <= |r| && k < w && IsFull(ByteAt(r, o + k))
    ensures (o + k) % (|r| + 1) < |r| && r[(o + k) % (|r| + 1)] == ByteAt(r, o + k)
  {
    GroupReadsRing(r, o, k, w);
  }

  /** Every slot in the window at o is read by the group at o. */
  lemma WindowIsRead(r: seq<Ctrl>, o: nat, s: nat, w: nat) returns (k: nat)
    requires IsRing(|r| + 1, w) && o <= |r| && s < |r| && InWindow(o, w, |r| + 1, s)
    ensures k < w && k <= |r| && (o + k) % (|r| + 1) == s && ByteAt(r, o + k) == r[s]
  {
    k := (s - o) % (|r| + 1);
    ModSum(o, s - o, |r| + 1);
    ModNear(s, |r| + 1);
    GroupReadsRing(r, o, k, w);
  }

  /** A byte read by the group at o is in the window at o. */
  lemma ReadIsInWindow(m: nat, o: nat, k: nat, w: nat)
    requires m > 0 && o < m && k < w
    ensures InWindow(o, w, m, (o + k) % m)
  {
    ModSum(0 - o, o + k, m);
    assert (o + k) % m - o == (0 - o) + (o + k) % m;
    if k < m { ModNear(k, m); }
  }

  // ------------------------------------------------------------------ set_ctrl

  /** The index of the copy that set_ctrl writes for slot i. */
  function CloneIndex(i: nat, c: nat, w: nat): (j: int)
  {
    (i - w) % (c + 1) + 1 + (w - 1) % (c + 1)
  }

  /** One index formula serves small and large tables: it is the copy of i, or i itself when i has no copy. */
  lemma CloneIndexIs(i: nat, c: nat, w: nat)
    requires IsRing(c + 1, w) && i < c
    ensures CloneIndex(i, c, w) == if i < w then c + 1 + i else i
  {
    var m := c + 1;
    if m < w {
      SmallRing(m, w);
      ModMultiple(i, w, m);
      ModMultiple(m - 1, w - m, m);
      ModSum(w, -m, m);
      ModShift(w, -1, m);
      assert (w - m) % m == 0;
    } else {
      ModNear(w - 1, m);
      ModNear(i - w, m);
    }
  }

  lemma ModMultiple(x: nat, y: nat, m: nat)
    requires m > 0 && x < m && y % m == 0
    ensures (x - y) % m == x && (x + y) % m == x
  {
    ModSum(x, y, m);
    ModNear(x, m);
  }

  /** Writing both bytes keeps the control array the image of its ring. */
  lemma SetCtrlMirrors(a: seq<Ctrl>, r: seq<Ctrl>, i: nat, h: Ctrl, w: nat)
    requires IsRing(|r| + 1, w) && Mirrors(a, r, w) && i < |r|
    ensures 0 <= CloneIndex(i, |r|, w) < |a|
    ensures Mirrors(a[i := h][CloneIndex(i, |r|, w) := h], r[i := h], w)
  {
    CloneIndexIs(i, |r|, w);
    if |r| + 1 < w { SmallRing(|r| + 1, w); }
  }

  // ------------------------------------------------------------------- masks

  /** Trailing zeros of MatchEmpty: how many bytes come before the first empty one. */
  function NonEmptyPrefix(g: seq<Ctrl>): (k: nat)
    ensures k <= |g|
    ensures forall j | 0 <= j < k :: !IsEmpty(g[j])
    ensures k < |g| ==> IsEmpty(g[k])
  {
    if |g| == 0 || IsEmpty(g[0]) then 0 else 1 + NonEmptyPrefix(g[1..])
  }

  /** Leading zeros of MatchEmpty: how many bytes come after the last empty one. */
  function NonEmptySuffix(g: seq<Ctrl>): (k: nat)
    ensures k <= |g|
    ensures forall j | |g| - k <= j < |g| :: !IsEmpty(g[j])
    ensures k < |g| ==> IsEmpty(g[|g| - 1 - k])
  {
    if |g| == 0 || IsEmpty(g[|g| - 1]) then 0 else 1 + NonEmptySuffix(g[..|g| - 1])
  }

  predicate HasEmpty(g: seq<Ctrl>) {
    NonEmptyPrefix(g) < |g|
  }

  /** The lowest bit of MatchEmptyOrDeleted, |g| when there is none. */
  function LowestFree(g: seq<Ctrl>): (k: nat)
    ensures k <= |g|
    ensures forall j | 0 <= j < k :: !IsEmptyOrDeleted(g[j])
    ensures k < |g| ==> IsEmptyOrDeleted(g[k])
  {
    if |g| == 0 || IsEmptyOrDeleted(g[0]) then 0 else 1 + LowestFree(g[1..])
  }

  /** The byte-wise effect of ConvertSpecialToEmptyAndFullToDeleted. */
  function Converted(c: Ctrl): Ctrl {
    if IsFull(c) then DELETED else EMPTY
  }

  // ---------------------------------------------------------- counting the marks

  datatype Kind = Vacant | Tombstone | Occupied

  function KindOf(c: Ctrl): Kind {
    if IsFull(c) then Occupied else if IsDeleted(c) then Tombstone else Vacant
  }

  function Kinds(r: seq<Ctrl>): (kinds: seq<Kind>)
    ensures |kinds| == |r| && forall s | 0 <= s < |r| :: kinds[s] == KindOf(r[s])
  {
    seq(|r|, s requires 0 <= s < |r| => KindOf(r[s]))
  }

  function Count(r: seq<Ctrl>, d: Kind): nat {
    Counting.Count(Kinds(r), d)
  }

  lemma CountUpdate(r: seq<Ctrl>, i: nat, c: Ctrl, d: Kind)
    requires i < |r|
    ensures Count(r[i := c], d) + (if KindOf(r[i]) == d then 1 else 0) ==
            Count(r, d) + (if KindOf(c) == d then 1 else 0)
  {
    assert Kinds(r[i := c]) == Kinds(r)[i := KindOf(c)];
    Counting.CountUpdate(Kinds(r), i, KindOf(c), d);
  }

  lemma CountTotal(r: seq<Ctrl>)
    ensures Count(r, Vacant) + Count(r, Tombstone) + Count(r, Occupied) == |r|
  {
    AllKinds(Kinds(r));
  }

  lemma {:induction false} AllKinds(kinds: seq<Kind>)
    ensures Counting.Count(kinds, Vacant) + Counting.Count(kinds, Tombstone) + Counting.Count(kinds, Occupied) ==
            |kinds|
  {
    if |kinds| > 0 {
      var front, last := kinds[..|kinds| - 1], kinds[|kinds| - 1];
      AllKinds(front);
      assert kinds == front + [last];
      forall d ensures Counting.Count(kinds, d) == Counting.Count(front, d) + (if last == d then 1 else 0) {
        Counting.CountAppend(front, last, d);
      }
    }
  }

  lemma CountWitness(r: seq<Ctrl>, d: Kind) returns (s: nat)
    requires Count(r, d) > 0
    ensures s < |r| && KindOf(r[s]) == d
  {
    s := Counting.CountWitness(Kinds(r), d);
  }

  lemma CountNone(r: seq<Ctrl>, d: Kind)
    requires forall s | 0 <= s < |r| :: KindOf(r[s]) != d
    ensures Count(r, d) == 0
  {
    if Count(r, d) > 0 {
      var s := CountWitness(r, d);
    }
  }

  lemma CountSame(r: seq<Ctrl>, r': seq<Ctrl>, d: Kind, d': Kind)
    requires |r| == |r'| && forall s | 0 <= s < |r| :: KindOf(r[s]) == d <==> KindOf(r'[s]) == d'
    ensures Count(r, d) == Count(r', d')
  {
    Counting.CountSame(Kinds(r), Kinds(r'), d, d');
  }

  // --------------------------------------------------------- capacity arithmetic

  predicate IsValidCapacity(c: nat) {
    c > 0 && IsPow2(c + 1)
  }

  /** 7/8 of the capacity, the most slots that may be in use or deleted. */
  function CapacityToGrowth(c: nat, w: nat): (g: nat)
    ensures g <= c
  {
    if w == 8 && c == 7 then 6 else c - c / 8
  }

  /** A table with at least one group keeps an empty slot at full load. */
  lemma LargeTableKeepsEmpty(c: nat, w: nat)
    requires IsWidth(w) && c + 1 >= w
    ensures CapacityToGrowth(c, w) < c
    ensures CapacityToGrowth(c, w) >= 2
  {
  }

  /** A smaller table may use every slot. */
  lemma SmallTableUsesAll(c: nat, w: nat)
    requires IsRing(c + 1, w) && c + 1 < w
    ensures CapacityToGrowth(c, w) == c
  {
    SmallRing(c + 1, w);
  }

  lemma Pow2Eighths(n: nat)
    requires IsPow2(n) && n >= 8
    ensures n % 8 == 0
  {
    assert IsPow2(n / 2) && IsPow2(n / 2 / 2) && IsPow2(n / 2 / 2 / 2);
  }

  /** The limit is 7/8 of the ring, but for the tables that are smaller than that and the table of one 8-byte group. */
  lemma GrowthIsSevenEighths(c: nat, w: nat)
    requires IsWidth(w) && IsValidCapacity(c)
    ensures 8 * CapacityToGrowth(c, w) == if c < 7 then 8 * c else if c == 7 && w == 8 then 48 else 7 * (c + 1)
  {
    if c >= 7 {
      Pow2Eighths(c + 1);
    }
  }

  /** The next capacity has room for at least twice as many. */
  lemma GrowthDoubles(c: nat, w: nat)
    requires IsWidth(w) && IsValidCapacity(c)
    ensures IsValidCapacity(2 * c + 1) && CapacityToGrowth(2 * c + 1, w) >= 2 * CapacityToGrowth(c, w)
  {
    assert IsPow2(2 * c + 2);
    GrowthIsSevenEighths(c, w);
    GrowthIsSevenEighths(2 * c + 1, w);
  }

  /** Doubling always makes room. */
  lemma GrowthIncreases(c: nat, w: nat)
    requires IsWidth(w) && c > 0
    ensures CapacityToGrowth(2 * c + 1, w) > CapacityToGrowth(c, w)
  {
  }
}

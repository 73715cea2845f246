/**
 Why lookup is correct: no window that a probe visits before the window of an
 element may contain an empty byte (otherwise the search would stop early).
 This module states that invariant and shows what every update does to it.
 */
module TableTheory {
  import opened ProbeSequence
  import opened ControlBytes

  /** Raw slot memory, or a constructed element. */
  datatype Slot<K, V> = Raw | Held(key: K, value: V)

  // ----------------------------------------------------------- the probe invariant

  /** The one step of the probe from p whose window contains slot s. */
  ghost function StepOf(p: nat, s: nat, m: nat, w: nat): (i: nat)
    requires IsRing(m, w) && p < m && s < m
    ensures i < NumWindows(m, w) && InWindow(WindowStart(p, i, m, w), w, m, s)
  {
    assert exists i: nat :: i < NumWindows(m, w) && InWindow(WindowStart(p, i, m, w), w, m, s) by {
      var i := ProbeVisitsEachPositionOnce(p, s, m, w);
    }
    var i: nat :| i < NumWindows(m, w) && InWindow(WindowStart(p, i, m, w), w, m, s);
    i
  }

  lemma StepIsUnique(p: nat, s: nat, m: nat, w: nat, i: nat)
    requires IsRing(m, w) && p < m && s < m
    requires i < NumWindows(m, w) && InWindow(WindowStart(p, i, m, w), w, m, s)
    ensures StepOf(p, s, m, w) == i
  {
    var j := ProbeVisitsEachPositionOnce(p, s, m, w);
  }

  /** Some slot in the window at o is empty. */
  ghost predicate EmptyIn(r: seq<Ctrl>, o: nat, w: nat) {
    exists s :: 0 <= s < |r| && IsEmpty(r[s]) && InWindow(o, w, |r| + 1, s)
  }

  /** Some slot in the window at o is empty or deleted. */
  ghost predicate FreeIn(r: seq<Ctrl>, o: nat, w: nat) {
    exists s :: 0 <= s < |r| && IsEmptyOrDeleted(r[s]) && InWindow(o, w, |r| + 1, s)
  }

  /** Step j of the probe from p looks at an empty slot. */
  ghost predicate EmptyAt(r: seq<Ctrl>, p: nat, j: nat, w: nat) {
    EmptyIn(r, WindowStart(p, j, |r| + 1, w), w)
  }

  /** Step j of the probe from p looks at an empty or deleted slot. */
  ghost predicate FreeAt(r: seq<Ctrl>, p: nat, j: nat, w: nat) {
    FreeIn(r, WindowStart(p, j, |r| + 1, w), w)
  }

  /** A search from p reaches slot s: no earlier window of the probe holds an empty slot. */
  ghost predicate Reachable(r: seq<Ctrl>, p: nat, s: nat, w: nat)
    requires IsRing(|r| + 1, w) && p <= |r| && s <= |r|
  {
    forall j: nat | j < StepOf(p, s, |r| + 1, w) :: !EmptyAt(r, p, j, w)
  }

  /** Every slot in the earlier windows of the probe is full. */
  ghost predicate Settled(r: seq<Ctrl>, p: nat, s: nat, w: nat)
    requires IsRing(|r| + 1, w) && p <= |r| && s <= |r|
  {
    forall j: nat | j < StepOf(p, s, |r| + 1, w) :: !FreeAt(r, p, j, w)
  }

  /** In a table smaller than a group every slot is in the first window. */
  lemma SmallIsReachable(r: seq<Ctrl>, p: nat, s: nat, w: nat)
    requires IsRing(|r| + 1, w) && |r| + 1 < w && p <= |r| && s <= |r|
    ensures Reachable(r, p, s, w)
  {
  }

  lemma SettledIsReachable(r: seq<Ctrl>, p: nat, s: nat, w: nat)
    requires IsRing(|r| + 1, w) && p <= |r| && s <= |r| && Settled(r, p, s, w)
    ensures Reachable(r, p, s, w)
  {
    forall j: nat | j < StepOf(p, s, |r| + 1, w) ensures !EmptyAt(r, p, j, w) {
      assert !FreeAt(r, p, j, w);
    }
  }

  /** Filling slots, or turning them into tombstones, never cuts a search short. */
  lemma FewerEmptiesKeepReachable(r: seq<Ctrl>, r': seq<Ctrl>, p: nat, s: nat, w: nat)
    requires IsRing(|r| + 1, w) && |r'| == |r| && p <= |r| && s <= |r|
    requires forall x | 0 <= x < |r| :: IsEmpty(r'[x]) ==> IsEmpty(r[x])
    requires Reachable(r, p, s, w)
    ensures Reachable(r', p, s, w)
  {
    forall j: nat | j < StepOf(p, s, |r| + 1, w) ensures !EmptyAt(r', p, j, w) {
      assert !EmptyAt(r, p, j, w);
    }
  }

  /** Changing bytes that were not full, to anything, keeps every settled element settled if full bytes stay full. */
  lemma FullStaysKeepSettled(r: seq<Ctrl>, r': seq<Ctrl>, p: nat, s: nat, w: nat)
    requires IsRing(|r| + 1, w) && |r'| == |r| && p <= |r| && s <= |r|
    requires forall x | 0 <= x < |r| :: IsEmptyOrDeleted(r'[x]) ==> IsEmptyOrDeleted(r[x])
    requires Settled(r, p, s, w)
    ensures Settled(r', p, s, w)
  {
    forall j: nat | j < StepOf(p, s, |r| + 1, w) ensures !FreeAt(r', p, j, w) {
      assert !FreeAt(r, p, j, w);
    }
  }

  /** Every window that contains slot x contains an empty slot. */
  ghost predicate Covered(r: seq<Ctrl>, x: nat, w: nat) {
    forall o: nat :: o <= |r| && InWindow(o, w, |r| + 1, x) ==> EmptyIn(r, o, w)
  }

  /**
   Slot x may become empty without cutting any search short when every window that
   contains x contains another empty slot already.
   */
  lemma CoveredEraseKeepsReachable(r: seq<Ctrl>, x: nat, p: nat, s: nat, w: nat)
    requires IsRing(|r| + 1, w) && x < |r| && p <= |r| && s <= |r|
    requires Covered(r, x, w)
    requires Reachable(r, p, s, w)
    ensures Reachable(r[x := EMPTY], p, s, w)
  {
    var r' := r[x := EMPTY];
    forall j: nat | j < StepOf(p, s, |r| + 1, w) ensures !EmptyAt(r', p, j, w) {
      var o := WindowStart(p, j, |r| + 1, w);
      assert !EmptyAt(r, p, j, w);
      assert !InWindow(o, w, |r| + 1, x);
    }
  }

  // ------------------------------------------------------- groups and the invariant

  lemma GroupShowsSlot(r: seq<Ctrl>, g: seq<Ctrl>, o: nat, s: nat, w: nat) returns (x: nat)
    requires IsRing(|r| + 1, w) && o <= |r| && s < |r| && InWindow(o, w, |r| + 1, s) && IsGroup(g, r, o, w)
    ensures x < w && (o + x) % (|r| + 1) == s && g[x] == r[s]
  {
    x := WindowIsRead(r, o, s, w);
  }

  /**
   A group contains an empty byte if its window holds an empty slot; conversely except for the
   dummies of small tables.
   */
  lemma GroupShowsEmpty(r: seq<Ctrl>, g: seq<Ctrl>, o: nat, w: nat)
    requires IsRingOfMarks(r, w) && o <= |r| && IsGroup(g, r, o, w)
    ensures EmptyIn(r, o, w) ==> HasEmpty(g)
    ensures HasEmpty(g) && |r| + 1 >= w ==> EmptyIn(r, o, w)
  {
    if EmptyIn(r, o, w) {
      var s :| 0 <= s < |r| && IsEmpty(r[s]) && InWindow(o, w, |r| + 1, s);
      var k := WindowIsRead(r, o, s, w);
      assert IsEmpty(g[k]);
    }
    if HasEmpty(g) && |r| + 1 >= w {
      var k := NonEmptyPrefix(g);
      GroupReadsRing(r, o, k, w);
      ReadIsInWindow(|r| + 1, o, k, w);
    }
  }

  /** The group of a small table always shows a dummy, which ends a search after one window. */
  lemma SmallGroupHasEmpty(r: seq<Ctrl>, g: seq<Ctrl>, o: nat, w: nat)
    requires IsRing(|r| + 1, w) && |r| + 1 < w && o <= |r| && IsGroup(g, r, o, w)
    ensures HasEmpty(g)
  {
    SmallRing(|r| + 1, w);
    var k := 2 * |r| + 1 - o;
    GroupReadsRing(r, o, k, w);
    assert IsEmpty(g[k]);
  }

  /**
   The last step a search can need: one whose window holds an empty slot, or step 0 of a table
   smaller than a group.
   */
  lemma LastStep(r: seq<Ctrl>, p: nat, w: nat) returns (i: nat)
    requires IsRingOfMarks(r, w) && p <= |r| && (|r| + 1 >= w ==> Count(r, Vacant) > 0)
    ensures i < NumWindows(|r| + 1, w) && (|r| + 1 < w || EmptyAt(r, p, i, w))
  {
    if |r| + 1 < w {
      i := 0;
    } else {
      i := EmptyEndsProbe(r, p, w);
    }
  }

  /** The group of that step contains an empty byte. */
  lemma LastGroupHasEmpty(r: seq<Ctrl>, g: seq<Ctrl>, p: nat, i: nat, w: nat)
    requires IsRingOfMarks(r, w) && p <= |r| && (|r| + 1 < w || EmptyAt(r, p, i, w))
    requires IsGroup(g, r, WindowStart(p, i, |r| + 1, w), w)
    ensures HasEmpty(g)
  {
    if |r| + 1 < w {
      SmallGroupHasEmpty(r, g, WindowStart(p, i, |r| + 1, w), w);
    } else {
      GroupShowsEmpty(r, g, WindowStart(p, i, |r| + 1, w), w);
    }
  }

  /** Somewhere among the first NumWindows windows of a probe there is every empty slot. */
  lemma EmptyEndsProbe(r: seq<Ctrl>, p: nat, w: nat) returns (i: nat)
    requires IsRing(|r| + 1, w) && p <= |r| && Count(r, Vacant) > 0 && forall s | 0 <= s < |r| :: IsMark(r[s])
    ensures i < NumWindows(|r| + 1, w) && EmptyAt(r, p, i, w)
  {
    var s := CountWitness(r, Vacant);
    i := StepOf(p, s, |r| + 1, w);
  }

  /** A free slot of the window shows in the group. */
  lemma GroupShowsFree(r: seq<Ctrl>, g: seq<Ctrl>, o: nat, w: nat)
    requires IsRingOfMarks(r, w) && o <= |r| && IsGroup(g, r, o, w) && FreeIn(r, o, w)
    ensures LowestFree(g) < w && LowestFree(g) <= |r|
  {
    var x :| 0 <= x < |r| && IsEmptyOrDeleted(r[x]) && InWindow(o, w, |r| + 1, x);
    var j := WindowIsRead(r, o, x, w);
    assert IsEmptyOrDeleted(g[j]);
  }

  /** The lowest free byte of a group names a free slot of its window, if the window has one. */
  lemma LowestFreeNamesSlot(r: seq<Ctrl>, g: seq<Ctrl>, o: nat, w: nat) returns (s: nat)
    requires IsRingOfMarks(r, w) && o <= |r| && IsGroup(g, r, o, w) && FreeIn(r, o, w)
    ensures LowestFree(g) < w && s == (o + LowestFree(g)) % (|r| + 1)
    ensures s < |r| && IsEmptyOrDeleted(r[s]) && InWindow(o, w, |r| + 1, s)
  {
    GroupShowsFree(r, g, o, w);
    s := (o + LowestFree(g)) % (|r| + 1);
    GroupReadsRing(r, o, LowestFree(g), w);
    ReadIsInWindow(|r| + 1, o, LowestFree(g), w);
  }

  /**
   When no slot of the window is free, a group of a large table shows nothing free, and a group
   of a small table shows its first dummy, which the probe resolves to the sentinel.
   */
  lemma LowestFreeOfFullWindow(r: seq<Ctrl>, g: seq<Ctrl>, o: nat, w: nat)
    requires IsRingOfMarks(r, w) && o <= |r| && IsGroup(g, r, o, w) && !FreeIn(r, o, w)
    ensures |r| + 1 >= w ==> LowestFree(g) == w
    ensures |r| + 1 < w ==> LowestFree(g) < w && (o + LowestFree(g)) % (|r| + 1) == |r|
  {
    var k, m := LowestFree(g), |r| + 1;
    if k < w && o + k < 2 * m - 1 {
      GroupReadsRing(r, o, k, w);
      ReadIsInWindow(m, o, k, w);
    }
    if m < w {
      DummyIsFree(r, g, o, w);
      ModNear(2 * m - 1, m);
    }
  }

  /** In a small table the byte after the clones is empty, and every group reaches it. */
  lemma DummyIsFree(r: seq<Ctrl>, g: seq<Ctrl>, o: nat, w: nat)
    requires IsRingOfMarks(r, w) && o <= |r| && IsGroup(g, r, o, w) && |r| + 1 < w
    ensures 2 * |r| + 1 - o < w && IsEmpty(g[2 * |r| + 1 - o])
  {
    SmallRing(|r| + 1, w);
    GroupReadsRing(r, o, 2 * |r| + 1 - o, w);
  }

  /** The last step find_first_non_full can need. */
  lemma LastFreeStep(r: seq<Ctrl>, p: nat, w: nat) returns (i: nat)
    requires IsRingOfMarks(r, w) && p <= |r|
    requires |r| + 1 >= w ==> HasFree(r)
    ensures i < NumWindows(|r| + 1, w) && (|r| + 1 < w || FreeAt(r, p, i, w))
  {
    if |r| + 1 < w {
      i := 0;
    } else {
      var s :| 0 <= s < |r| && IsEmptyOrDeleted(r[s]);
      i := StepOf(p, s, |r| + 1, w);
    }
  }

  /** The group of that step shows a free byte. */
  lemma LastGroupHasFree(r: seq<Ctrl>, g: seq<Ctrl>, p: nat, i: nat, w: nat)
    requires IsRingOfMarks(r, w) && p <= |r| && (|r| + 1 < w || FreeAt(r, p, i, w))
    requires IsGroup(g, r, WindowStart(p, i, |r| + 1, w), w)
    ensures LowestFree(g) < w
  {
    var o := WindowStart(p, i, |r| + 1, w);
    if FreeIn(r, o, w) {
      var s := LowestFreeNamesSlot(r, g, o, w);
    } else {
      LowestFreeOfFullWindow(r, g, o, w);
    }
  }

  ghost predicate HasFree(r: seq<Ctrl>) {
    exists s :: 0 <= s < |r| && IsEmptyOrDeleted(r[s])
  }

  /** No free slot of the window at o comes before t in it. */
  ghost predicate FirstInWindow(r: seq<Ctrl>, o: nat, t: nat, w: nat) {
    forall s | 0 <= s < |r| && IsEmptyOrDeleted(r[s]) && InWindow(o, w, |r| + 1, s) ::
      (t - o) % (|r| + 1) <= (s - o) % (|r| + 1)
  }

  /**
   t is the first free slot of the probe from p: the windows before its own are full, and it is the
   first one in its own; or it is the sentinel, if no slot is free.
   */
  ghost predicate IsTarget(r: seq<Ctrl>, p: nat, t: nat, w: nat)
    requires IsRing(|r| + 1, w) && p <= |r|
  {
    && t <= |r|
    && (t < |r| ==> IsEmptyOrDeleted(r[t]) && Settled(r, p, t, w) && FirstInItsWindow(r, p, t, w))
    && (t == |r| ==> !HasFree(r))
  }

  ghost predicate FirstInItsWindow(r: seq<Ctrl>, p: nat, t: nat, w: nat)
    requires IsRing(|r| + 1, w) && p <= |r| && t <= |r|
  {
    FirstInWindow(r, WindowStart(p, StepOf(p, t, |r| + 1, w), |r| + 1, w), t, w)
  }

  lemma DistanceOf(o: nat, k: nat, m: nat)
    requires o < m && k < m
    ensures ((o + k) % m - o) % m == k
  {
    RingShift(o, k, o, m);
    ModNear(k, m);
  }

  /**
   A free slot of the window is as far from its start as its byte in the group, which is not below
   the lowest free one.
   */
  lemma FreeByteOf(r: seq<Ctrl>, g: seq<Ctrl>, o: nat, s: nat, w: nat)
    requires IsRingOfMarks(r, w) && o <= |r| && IsGroup(g, r, o, w) && s < |r| && IsEmptyOrDeleted(r[s])
    requires InWindow(o, w, |r| + 1, s)
    ensures LowestFree(g) <= (s - o) % (|r| + 1)
  {
    var k := WindowIsRead(r, o, s, w);
    assert IsEmptyOrDeleted(g[k]);
    DistanceOf(o, k, |r| + 1);
  }

  /** The slot of the lowest free byte is the first free one of the window. */
  lemma LowestIsFirst(r: seq<Ctrl>, g: seq<Ctrl>, o: nat, t: nat, w: nat)
    requires IsRingOfMarks(r, w) && o <= |r| && IsGroup(g, r, o, w) && (t - o) % (|r| + 1) == LowestFree(g)
    ensures FirstInWindow(r, o, t, w)
  {
    forall s | 0 <= s < |r| && IsEmptyOrDeleted(r[s]) && InWindow(o, w, |r| + 1, s)
      ensures LowestFree(g) <= (s - o) % (|r| + 1)
    {
      FreeByteOf(r, g, o, s, w);
    }
  }

  lemma SamePlace(o: nat, s: nat, t: nat, m: nat)
    requires o < m && s < m && t < m && (s - o) % m == (t - o) % m
    ensures s == t
  {
    ModNear(s - o, m);
    ModNear(t - o, m);
  }

  lemma FreeSlotIsAt(r: seq<Ctrl>, p: nat, u: nat, w: nat)
    requires IsRing(|r| + 1, w) && p <= |r| && u < |r| && IsEmptyOrDeleted(r[u])
    ensures FreeAt(r, p, StepOf(p, u, |r| + 1, w), w)
  {
  }

  /** The windows before the one of a target are full, so that the step of another target cannot be earlier. */
  lemma TargetStepIsFirst(r: seq<Ctrl>, p: nat, t: nat, u: nat, w: nat)
    requires IsRing(|r| + 1, w) && p <= |r| && t < |r| && u < |r| && IsTarget(r, p, t, w) && IsTarget(r, p, u, w)
    ensures StepOf(p, t, |r| + 1, w) <= StepOf(p, u, |r| + 1, w)
  {
    FreeSlotIsAt(r, p, u, w);
  }

  /** A probe has one target. */
  lemma TargetIsUnique(r: seq<Ctrl>, p: nat, t: nat, u: nat, w: nat)
    requires IsRing(|r| + 1, w) && p <= |r| && IsTarget(r, p, t, w) && IsTarget(r, p, u, w)
    ensures t == u
  {
    if t < |r| && u < |r| {
      TargetStepIsFirst(r, p, t, u, w);
      TargetStepIsFirst(r, p, u, t, w);
      SamePlace(WindowStart(p, StepOf(p, t, |r| + 1, w), |r| + 1, w), t, u, |r| + 1);
    }
  }

  /**
   The first group of a probe that shows a free byte yields a free slot with only full windows before it,
   or the sentinel when every slot of a small table is full.
   */
  lemma FirstFreeIsTarget(r: seq<Ctrl>, g: seq<Ctrl>, p: nat, i: nat, w: nat, t: nat)
    requires IsRingOfMarks(r, w) && p <= |r| && i < NumWindows(|r| + 1, w)
    requires IsGroup(g, r, WindowStart(p, i, |r| + 1, w), w) && LowestFree(g) < w
    requires t == (WindowStart(p, i, |r| + 1, w) + LowestFree(g)) % (|r| + 1)
    requires FullBefore(r, p, i, w)
    ensures IsTarget(r, p, t, w)
  {
    var o := WindowStart(p, i, |r| + 1, w);
    if FreeIn(r, o, w) {
      var s := LowestFreeNamesSlot(r, g, o, w);
      StepIsUnique(p, t, |r| + 1, w, i);
      GroupShowsFree(r, g, o, w);
      DistanceOf(o, LowestFree(g), |r| + 1);
      LowestIsFirst(r, g, o, t, w);
    } else {
      LowestFreeOfFullWindow(r, g, o, w);
      forall s | 0 <= s < |r| ensures !IsEmptyOrDeleted(r[s]) {
        SmallWindowIsAll(o, s, |r| + 1, w);
      }
    }
  }

  lemma SmallWindowIsAll(o: nat, s: nat, m: nat, w: nat)
    requires 0 < m <= w
    ensures InWindow(o, w, m, s)
  {
  }

  // ------------------------------------------------------------------------ erase

  /** The groups that end before slot x and start at it. */
  ghost predicate IsAround(before: seq<Ctrl>, after: seq<Ctrl>, r: seq<Ctrl>, x: nat, w: nat) {
    IsGroup(after, r, x, w) && IsGroup(before, r, (x - w) % (|r| + 1), w)
  }

  /** What an erased slot is marked. */
  function ErasedMark(wasNeverFull: bool): Ctrl {
    if wasNeverFull then EMPTY else DELETED
  }

  /** The test of erase_meta_only on the groups at and before the erased slot. */
  predicate WasNeverFull(before: seq<Ctrl>, after: seq<Ctrl>, w: nat) {
    HasEmpty(before) && HasEmpty(after) && NonEmptyPrefix(after) + NonEmptySuffix(before) < w
  }

  /** If the test succeeds, every window that contains x contains another empty slot. */
  lemma NeverFullIsCovered(r: seq<Ctrl>, before: seq<Ctrl>, after: seq<Ctrl>, x: nat, o: nat, w: nat)
    requires IsRingOfMarks(r, w) && |r| + 1 >= w && x < |r| && o <= |r| && InWindow(o, w, |r| + 1, x)
    requires IsAround(before, after, r, x, w)
    requires WasNeverFull(before, after, w)
    ensures EmptyIn(r, o, w)
  {
    if (x - o) % (|r| + 1) <= NonEmptySuffix(before) {
      EmptyAfterIsCovering(r, after, x, o, w);
    } else {
      EmptyBeforeIsCovering(r, before, x, o, w);
    }
  }

  /** The slot t places after x is d + t places after o. */
  lemma PlacesAdd(x: nat, t: nat, o: nat, d: nat, m: nat, s: nat)
    requires m > 0 && d == (x - o) % m && d + t < m && s == (x + t) % m
    ensures (s - o) % m == d + t
  {
    RingShift(x, t, o, m);
    ModNear(d + t, m);
  }

  lemma EmptyAfterIsCovering(r: seq<Ctrl>, after: seq<Ctrl>, x: nat, o: nat, w: nat)
    requires IsRingOfMarks(r, w) && |r| + 1 >= w && x < |r| && o <= |r|
    requires IsGroup(after, r, x, w) && HasEmpty(after)
    requires (x - o) % (|r| + 1) + NonEmptyPrefix(after) < w
    ensures EmptyIn(r, o, w)
  {
    var t, m := NonEmptyPrefix(after), |r| + 1;
    var s := (x + t) % m;
    GroupReadsRing(r, x, t, w);
    PlacesAdd(x, t, o, (x - o) % m, m, s);
    assert IsEmpty(after[t]) && InWindow(o, w, m, s);
  }

  lemma EmptyBeforeIsCovering(r: seq<Ctrl>, before: seq<Ctrl>, x: nat, o: nat, w: nat)
    requires IsRingOfMarks(r, w) && |r| + 1 >= w && x < |r| && o <= |r|
    requires IsGroup(before, r, (x - w) % (|r| + 1), w) && HasEmpty(before)
    requires NonEmptySuffix(before) < (x - o) % (|r| + 1) < w
    ensures EmptyIn(r, o, w)
  {
    var l, d := NonEmptySuffix(before), (x - o) % (|r| + 1);
    var e := LastEmptyBefore(r, before, x, w);
    RingShift(x, 0 - 1 - l, o, |r| + 1);
    assert x + (0 - 1 - l) == x - 1 - l && d + (0 - 1 - l) == d - 1 - l;
    ModNear(d - 1 - l, |r| + 1);
    assert InWindow(o, w, |r| + 1, e);
  }

  /** The slot of the last empty byte of the group that ends before x. */
  lemma LastEmptyBefore(r: seq<Ctrl>, before: seq<Ctrl>, x: nat, w: nat) returns (e: nat)
    requires IsRingOfMarks(r, w) && |r| + 1 >= w && x < |r|
    requires IsGroup(before, r, (x - w) % (|r| + 1), w) && HasEmpty(before)
    ensures e == (x - 1 - NonEmptySuffix(before)) % (|r| + 1) && e < |r| && IsEmpty(r[e])
  {
    var k := w - 1 - NonEmptySuffix(before);
    SuffixHasEmpty(before);
    GroupReadsRing(r, (x - w) % (|r| + 1), k, w);
    ModSum(k, x - w, |r| + 1);
    e := ((x - w) % (|r| + 1) + k) % (|r| + 1);
    assert k + (x - w) == x - 1 - NonEmptySuffix(before);
    assert k + (x - w) % (|r| + 1) == (x - w) % (|r| + 1) + k;
  }

  lemma SuffixHasEmpty(g: seq<Ctrl>)
    requires HasEmpty(g)
    ensures NonEmptySuffix(g) < |g|
  {
    assert IsEmpty(g[NonEmptyPrefix(g)]);
  }

  /** In a table smaller than a group the test always succeeds, so such a table never holds a tombstone. */
  lemma SmallIsNeverFull(r: seq<Ctrl>, before: seq<Ctrl>, after: seq<Ctrl>, x: nat, w: nat)
    requires IsRing(|r| + 1, w) && |r| + 1 < w && x < |r|
    requires IsAround(before, after, r, x, w)
    ensures WasNeverFull(before, after, w)
  {
    SmallRing(|r| + 1, w);
    ModMultiple(x, w, |r| + 1);
    assert before == after;
    SmallGroupHasEmpty(r, after, x, w);
    assert IsEmpty(after[NonEmptyPrefix(after)]);
  }

  lemma StepFrom(start: int, y: int, place: int, m: int)
    requires m > 0 && start + y == place
    ensures (start % m + y) % m == place % m
  {
    ModSum(start, y, m);
  }

  /** A byte of the group that ends before x, counted back, and a byte of the group at x, as bytes of the ring. */
  lemma ByteBefore(r: seq<Ctrl>, before: seq<Ctrl>, x: nat, back: nat, w: nat)
    requires IsRingOfMarks(r, w) && |r| + 1 >= w && x < |r| && 1 <= back <= w
    requires IsGroup(before, r, (x - w) % (|r| + 1), w)
    ensures var s := (x - back) % (|r| + 1); s < |r| ==> before[w - back] == r[s]
  {
    var o := (x - w) % (|r| + 1);
    StepFrom(x - w, w - back, x - back, |r| + 1);
    GroupReadsRing(r, o, w - back, w);
  }

  lemma ByteAfter(r: seq<Ctrl>, after: seq<Ctrl>, x: nat, ahead: nat, w: nat)
    requires IsRingOfMarks(r, w) && |r| + 1 >= w && x < |r| && ahead < w && IsGroup(after, r, x, w)
    ensures var s := (x + ahead) % (|r| + 1); s < |r| ==> after[ahead] == r[s]
  {
    GroupReadsRing(r, x, ahead, w);
  }

  /** Position s, counted from the position d places before x. */
  lemma PlaceInWindow(x: int, d: int, s: int, m: int)
    requires m > 0 && 0 <= s < m
    ensures s == (x - d + (s - (x - d) % m) % m) % m
  {
    var o := (x - d) % m;
    ModSum(x - d, s - o, m);
    ModSum(s - o, x - d, m);
    assert (s - o) + (x - d) == (x - d) + (s - o) && (s - o) + o == s;
    ModNear(s, m);
  }

  lemma PlaceOfStart(x: int, d: int, m: int)
    requires 0 <= d < m
    ensures (x - (x - d) % m) % m == d
  {
    ModSum(x, x - d, m);
    assert x - (x - d) == d;
    ModNear(d, m);
  }

  /** The counted runs cover the slot j places after the one d places before x. */
  lemma RunsFillSlot(r: seq<Ctrl>, before: seq<Ctrl>, after: seq<Ctrl>, x: nat, d: nat, j: nat, w: nat)
    requires IsRingOfMarks(r, w) && |r| + 1 >= w && x < |r| && IsAround(before, after, r, x, w)
    requires d < w && d <= NonEmptySuffix(before) && w - d <= NonEmptyPrefix(after) && j < w
    ensures var s := (x - d + j) % (|r| + 1); s < |r| ==> !IsEmpty(r[s])
  {
    if j < d {
      ByteBefore(r, before, x, d - j, w);
      assert x - d + j == x - (d - j);
    } else {
      ByteAfter(r, after, x, j - d, w);
      assert x - d + j == x + (j - d);
    }
  }

  /** The counted runs cover the window that starts d places before x. */
  lemma RunsFillWindow(r: seq<Ctrl>, before: seq<Ctrl>, after: seq<Ctrl>, x: nat, d: nat, w: nat)
    requires IsRingOfMarks(r, w) && |r| + 1 >= w && x < |r| && IsAround(before, after, r, x, w)
    requires d < w && d <= NonEmptySuffix(before) && w - d <= NonEmptyPrefix(after)
    ensures !EmptyIn(r, (x - d) % (|r| + 1), w)
  {
    var m := |r| + 1;
    var o := (x - d) % m;
    forall s | 0 <= s < |r| && InWindow(o, w, m, s) ensures !IsEmpty(r[s]) {
      PlaceInWindow(x, d, s, m);
      RunsFillSlot(r, before, after, x, d, (s - o) % m, w);
    }
  }

  /** How far before x the counted run reaches, one slot less than a window at most. */
  function RunBefore(before: seq<Ctrl>, w: nat): nat
    requires w > 0
  {
    if NonEmptySuffix(before) < w then NonEmptySuffix(before) else w - 1
  }

  /** If the test fails, the two runs together are as long as a window. */
  lemma RunsAreLong(before: seq<Ctrl>, after: seq<Ctrl>, w: nat)
    requires w > 0 && |before| == |after| == w && !IsEmpty(after[0]) && !WasNeverFull(before, after, w)
    ensures w - RunBefore(before, w) <= NonEmptyPrefix(after)
  {
    assert NonEmptyPrefix(after) > 0;
    if !HasEmpty(before) {
      AllNonEmpty(before);
    }
  }

  /** If the test fails, some window that contains x contains no empty slot: a probe may have passed x. */
  lemma NotNeverFullIsBare(r: seq<Ctrl>, before: seq<Ctrl>, after: seq<Ctrl>, x: nat, w: nat) returns (o: nat)
    requires IsRingOfMarks(r, w) && |r| + 1 >= w && x < |r| && !IsEmpty(r[x]) && IsAround(before, after, r, x, w)
    requires !WasNeverFull(before, after, w)
    ensures o <= |r| && InWindow(o, w, |r| + 1, x) && !EmptyIn(r, o, w)
  {
    var d := RunBefore(before, w);
    ByteAfter(r, after, x, 0, w);
    ModNear(x, |r| + 1);
    RunsAreLong(before, after, w);
    RunsFillWindow(r, before, after, x, d, w);
    o := (x - d) % (|r| + 1);
    PlaceOfStart(x, d, |r| + 1);
  }

  lemma AllNonEmpty(g: seq<Ctrl>)
    requires !HasEmpty(g)
    ensures NonEmptySuffix(g) == |g|
  {
    if NonEmptySuffix(g) < |g| {
      assert IsEmpty(g[|g| - 1 - NonEmptySuffix(g)]);
    }
  }

  /** Slot x may become empty: the table is smaller than a group, or every window with x keeps another empty slot. */
  ghost predicate MayBecomeEmpty(r: seq<Ctrl>, x: nat, w: nat) {
    |r| + 1 < w || Covered(r, x, w)
  }

  /** The test of erase_meta_only is exact. */
  lemma NeverFullExactly(r: seq<Ctrl>, before: seq<Ctrl>, after: seq<Ctrl>, x: nat, w: nat)
    requires IsRingOfMarks(r, w) && x < |r| && !IsEmpty(r[x]) && IsAround(before, after, r, x, w)
    ensures WasNeverFull(before, after, w) <==> MayBecomeEmpty(r, x, w)
  {
    if |r| + 1 < w {
      SmallIsNeverFull(r, before, after, x, w);
    } else if WasNeverFull(before, after, w) {
      forall o: nat | o <= |r| && InWindow(o, w, |r| + 1, x) ensures EmptyIn(r, o, w) {
        NeverFullIsCovered(r, before, after, x, o, w);
      }
    } else {
      var o := NotNeverFullIsBare(r, before, after, x, w);
    }
  }

  // -------------------------------------------------------- slots represent a map

  ghost predicate HoldsKey<K, V>(slots: seq<Slot<K, V>>, s: int, k: K) {
    0 <= s < |slots| && slots[s].Held? && slots[s].key == k
  }

  /** The constructed elements are exactly the entries of m, each once. */
  ghost predicate Represents<K, V>(slots: seq<Slot<K, V>>, m: map<K, V>) {
    && (forall s | 0 <= s < |slots| && slots[s].Held? :: slots[s].key in m && m[slots[s].key] == slots[s].value)
    && (forall k | k in m :: exists s :: HoldsKey(slots, s, k))
    && (forall s, t | 0 <= s < t < |slots| && slots[s].Held? && slots[t].Held? :: slots[s].key != slots[t].key)
  }

  lemma HeldIsContained<K, V>(slots: seq<Slot<K, V>>, m: map<K, V>, s: nat, k: K)
    requires Represents(slots, m) && HoldsKey(slots, s, k)
    ensures k in m && m[k] == slots[s].value
  {
  }

  lemma RepresentsInsert<K, V>(slots: seq<Slot<K, V>>, m: map<K, V>, s: nat, k: K, v: V)
    requires Represents(slots, m) && s < |slots| && slots[s].Raw? && k !in m
    ensures Represents(slots[s := Held(k, v)], m[k := v])
  {
    var slots', m' := slots[s := Held(k, v)], m[k := v];
    forall x | x in m' ensures exists t :: HoldsKey(slots', t, x) {
      if x == k {
        assert HoldsKey(slots', s, x);
      } else {
        var t :| HoldsKey(slots, t, x);
        assert HoldsKey(slots', t, x);
      }
    }
  }

  lemma RepresentsAssign<K, V>(slots: seq<Slot<K, V>>, m: map<K, V>, s: nat, k: K, v: V)
    requires Represents(slots, m) && HoldsKey(slots, s, k)
    ensures Represents(slots[s := Held(k, v)], m[k := v])
  {
    var slots', m' := slots[s := Held(k, v)], m[k := v];
    forall x | x in m' ensures exists t :: HoldsKey(slots', t, x) {
      var t :| HoldsKey(slots, t, x);
      assert HoldsKey(slots', t, x);
    }
  }

  lemma RepresentsErase<K, V>(slots: seq<Slot<K, V>>, m: map<K, V>, s: nat, k: K)
    requires Represents(slots, m) && HoldsKey(slots, s, k)
    ensures Represents(slots[s := Raw], m - {k})
  {
    var slots', m' := slots[s := Raw], m - {k};
    forall x | x in m' ensures exists t :: HoldsKey(slots', t, x) {
      var t :| HoldsKey(slots, t, x);
      assert HoldsKey(slots', t, x);
    }
  }

  /** Transferring an element to raw memory. */
  lemma RepresentsMove<K, V>(slots: seq<Slot<K, V>>, m: map<K, V>, s: nat, t: nat)
    requires Represents(slots, m) && s < |slots| && t < |slots| && slots[s].Held? && slots[t].Raw?
    ensures Represents(slots[t := slots[s]][s := Raw], m)
  {
    var slots' := slots[t := slots[s]][s := Raw];
    forall x | x in m ensures exists y :: HoldsKey(slots', y, x) {
      var y :| HoldsKey(slots, y, x);
      assert HoldsKey(slots', if y == s then t else y, x);
    }
  }

  lemma RepresentsSwap<K, V>(slots: seq<Slot<K, V>>, m: map<K, V>, s: nat, t: nat)
    requires Represents(slots, m) && s < |slots| && t < |slots|
    ensures Represents(slots[s := slots[t]][t := slots[s]], m)
  {
    var slots' := slots[s := slots[t]][t := slots[s]];
    forall x | x in m ensures exists y :: HoldsKey(slots', y, x) {
      var y :| HoldsKey(slots, y, x);
      assert HoldsKey(slots', if y == s then t else if y == t then s else y, x);
    }
  }

  /** Adding memory that holds no element. */
  lemma RepresentsAddRaw<K, V>(a: seq<Slot<K, V>>, b: seq<Slot<K, V>>, m: map<K, V>)
    requires Represents(a, m) && forall s | 0 <= s < |b| :: b[s].Raw?
    ensures Represents(a + b, m)
  {
    forall x | x in m ensures exists s :: HoldsKey(a + b, s, x) {
      var s :| HoldsKey(a, s, x);
      assert HoldsKey(a + b, s, x);
    }
  }

  /** Dropping memory that holds no element. */
  lemma RepresentsDropRaw<K, V>(a: seq<Slot<K, V>>, b: seq<Slot<K, V>>, m: map<K, V>)
    requires Represents(a + b, m) && forall s | 0 <= s < |a| :: a[s].Raw?
    ensures Represents(b, m)
  {
    var c := a + b;
    assert forall s | 0 <= s < |b| :: b[s] == c[s + |a|];
    forall x | x in m ensures exists s :: HoldsKey(b, s, x) {
      var s :| HoldsKey(c, s, x);
      assert HoldsKey(b, s - |a|, x);
    }
  }

  // ----------------------------------------------------------- the table invariant

  ghost function Home<K>(hash: K -> nat, k: K, m: nat): (p: nat)
    requires m > 0
    ensures p < m
  {
    H1(hash(k)) % m
  }

  /** Full bytes mark the constructed elements, carry 7 bits of their hash, and a search for each finds it. */
  ghost predicate Coherent<K, V>(r: seq<Ctrl>, slots: seq<Slot<K, V>>, hash: K -> nat, w: nat) {
    && IsRingOfMarks(r, w)
    && |slots| == |r|
    && forall s | 0 <= s < |r| :: SlotCoherent(r, slots[s], s, hash, w)
  }

  ghost predicate SlotCoherent<K, V>(r: seq<Ctrl>, e: Slot<K, V>, s: nat, hash: K -> nat, w: nat)
    requires IsRing(|r| + 1, w) && s < |r|
  {
    && (IsFull(r[s]) <==> e.Held?)
    && (e.Held? ==> r[s] == H2(hash(e.key)) && Reachable(r, Home(hash, e.key, |r| + 1), s, w))
  }

  /** growth_left + size + deleted == CapacityToGrowth(capacity), and a table smaller than a group has no tombstones. */
  ghost predicate Accounted(r: seq<Ctrl>, size: nat, growthLeft: nat, w: nat) {
    && size == Count(r, Occupied)
    && growthLeft + size + Count(r, Tombstone) == CapacityToGrowth(|r|, w)
    && (|r| + 1 < w ==> Count(r, Tombstone) == 0)
  }

  /** An accounted table of at least one group has an empty slot, so every search ends. */
  lemma AccountedHasEmpty(r: seq<Ctrl>, size: nat, growthLeft: nat, w: nat)
    requires IsRing(|r| + 1, w) && Accounted(r, size, growthLeft, w)
    ensures |r| + 1 >= w || growthLeft > 0 ==> Count(r, Vacant) > 0
  {
    CountTotal(r);
    if |r| + 1 >= w {
      LargeTableKeepsEmpty(|r|, w);
    }
  }

  /** Putting an element into the first non-full slot of its own probe keeps the table coherent. */
  lemma PlaceKeepsCoherent<K, V>(r: seq<Ctrl>, slots: seq<Slot<K, V>>, hash: K -> nat, w: nat, t: nat, k: K, v: V)
    requires Coherent(r, slots, hash, w) && t < |r| && IsEmptyOrDeleted(r[t])
    requires Settled(r, Home(hash, k, |r| + 1), t, w)
    ensures Coherent(r[t := H2(hash(k))], slots[t := Held(k, v)], hash, w)
  {
    var r', slots' := r[t := H2(hash(k))], slots[t := Held(k, v)];
    forall s | 0 <= s < |r| ensures SlotCoherent(r', slots'[s], s, hash, w) {
      assert SlotCoherent(r, slots[s], s, hash, w);
      if s == t {
        SettledIsReachable(r, Home(hash, k, |r| + 1), t, w);
        FewerEmptiesKeepReachable(r, r', Home(hash, k, |r| + 1), t, w);
      } else if slots[s].Held? {
        FewerEmptiesKeepReachable(r, r', Home(hash, slots[s].key, |r| + 1), s, w);
      }
    }
  }

  /** Giving an element a new value. */
  lemma AssignKeepsCoherent<K, V>(r: seq<Ctrl>, slots: seq<Slot<K, V>>, hash: K -> nat, w: nat, t: nat, k: K, v: V)
    requires Coherent(r, slots, hash, w) && HoldsKey(slots, t, k)
    ensures Coherent(r, slots[t := Held(k, v)], hash, w)
  {
    var slots' := slots[t := Held(k, v)];
    forall s | 0 <= s < |r| ensures SlotCoherent(r, slots'[s], s, hash, w) {
      assert SlotCoherent(r, slots[s], s, hash, w);
    }
  }

  /** Erasing never cuts the search for another element short. */
  lemma EraseKeepsCoherent<K, V>(r: seq<Ctrl>, slots: seq<Slot<K, V>>, hash: K -> nat, w: nat, t: nat, empty: bool)
    requires Coherent(r, slots, hash, w) && t < |r| && slots[t].Held? && (empty ==> MayBecomeEmpty(r, t, w))
    ensures Coherent(r[t := ErasedMark(empty)], slots[t := Raw], hash, w)
  {
    var r', slots' := r[t := ErasedMark(empty)], slots[t := Raw];
    forall s | 0 <= s < |r| ensures SlotCoherent(r', slots'[s], s, hash, w) {
      assert SlotCoherent(r, slots[s], s, hash, w);
      if s != t && slots[s].Held? {
        ErasedReachable(r, t, Home(hash, slots[s].key, |r| + 1), s, w, empty);
      }
    }
  }

  lemma ErasedReachable(r: seq<Ctrl>, t: nat, p: nat, s: nat, w: nat, empty: bool)
    requires IsRingOfMarks(r, w) && t < |r| && p <= |r| && s < |r| && Reachable(r, p, s, w)
    requires empty ==> MayBecomeEmpty(r, t, w)
    ensures Reachable(r[t := ErasedMark(empty)], p, s, w)
  {
    if |r| + 1 < w {
      SmallIsReachable(r[t := ErasedMark(empty)], p, s, w);
    } else if empty {
      CoveredEraseKeepsReachable(r, t, p, s, w);
    } else {
      FewerEmptiesKeepReachable(r, r[t := DELETED], p, s, w);
    }
  }

  /** The accounting after each kind of update. */
  lemma PlaceAccounting(r: seq<Ctrl>, size: nat, growthLeft: nat, w: nat, t: nat, h: Ctrl)
    requires IsRing(|r| + 1, w) && Accounted(r, size, growthLeft, w) && t < |r| && IsFull(h)
    requires IsMark(r[t]) && IsEmptyOrDeleted(r[t]) && (IsEmpty(r[t]) ==> growthLeft > 0)
    ensures Accounted(r[t := h], size + 1, growthLeft - (if IsEmpty(r[t]) then 1 else 0), w)
  {
    CountUpdate(r, t, h, Occupied);
    CountUpdate(r, t, h, Tombstone);
  }

  lemma EraseAccounting(r: seq<Ctrl>, size: nat, growthLeft: nat, w: nat, t: nat, empty: bool)
    requires IsRing(|r| + 1, w) && Accounted(r, size, growthLeft, w) && t < |r| && IsFull(r[t])
    requires |r| + 1 < w ==> empty
    ensures size > 0
    ensures Accounted(r[t := ErasedMark(empty)], size - 1, growthLeft + (if empty then 1 else 0), w)
  {
    CountUpdate(r, t, ErasedMark(empty), Occupied);
    CountUpdate(r, t, ErasedMark(empty), Tombstone);
  }

  /** What erasing slot t does to the table. */
  lemma EraseStep<K, V>(r: seq<Ctrl>, slots: seq<Slot<K, V>>, hash: K -> nat, w: nat, t: nat, empty: bool,
                        size: nat, growthLeft: nat)
    requires Coherent(r, slots, hash, w) && t < |r| && slots[t].Held? && Accounted(r, size, growthLeft, w)
    requires empty <==> MayBecomeEmpty(r, t, w)
    ensures size > 0
    ensures Coherent(r[t := ErasedMark(empty)], slots[t := Raw], hash, w)
    ensures Accounted(r[t := ErasedMark(empty)], size - 1, growthLeft + (if empty then 1 else 0), w)
  {
    assert SlotCoherent(r, slots[t], t, hash, w);
    EraseKeepsCoherent(r, slots, hash, w, t, empty);
    EraseAccounting(r, size, growthLeft, w, t, empty);
  }

  lemma HeldMeansSome<K, V>(r: seq<Ctrl>, slots: seq<Slot<K, V>>, hash: K -> nat, w: nat, t: nat, size: nat,
                            growthLeft: nat)
    requires Coherent(r, slots, hash, w) && t < |r| && slots[t].Held? && Accounted(r, size, growthLeft, w)
    ensures size > 0 && IsFull(r[t])
  {
    assert SlotCoherent(r, slots[t], t, hash, w);
    CountUpdate(r, t, EMPTY, Occupied);
  }

  // ----------------------------------------------------------- unsuccessful searches

  /** No element with key k is in the window of step j of the probe from p. */
  ghost predicate AbsentAt<K, V>(slots: seq<Slot<K, V>>, p: nat, j: nat, w: nat, k: K) {
    forall s | HoldsKey(slots, s, k) :: !InWindow(WindowStart(p, j, |slots| + 1, w), w, |slots| + 1, s)
  }

  /** The bytes 0..n of the group at o that carry the 7 bits of k's hash do not belong to k. */
  ghost predicate NoMatch<K, V>(slots: seq<Slot<K, V>>, g: seq<Ctrl>, o: nat, n: nat, h: Ctrl, k: K) {
    forall x | 0 <= x < n <= |g| && g[x] == h :: !HoldsKey(slots, (o + x) % (|slots| + 1), k)
  }

  /** A byte that matches a hash names a slot that holds an element. */
  lemma MatchIsHeld<K, V>(r: seq<Ctrl>, slots: seq<Slot<K, V>>, hash: K -> nat, g: seq<Ctrl>, o: nat, i: nat, w: nat,
                          s: nat)
    requires Coherent(r, slots, hash, w) && o <= |r| && IsGroup(g, r, o, w) && i < w && IsFull(g[i])
    requires s == (o + i) % (|r| + 1)
    ensures s < |slots| && slots[s].Held?
  {
    FullByteNamesSlot(r, o, i, w);
    assert SlotCoherent(r, slots[s], s, hash, w);
  }

  /** When no byte of the group matches, k is not in the window. */
  lemma NoMatchIsAbsent<K, V>(r: seq<Ctrl>, slots: seq<Slot<K, V>>, hash: K -> nat, g: seq<Ctrl>, p: nat, j: nat,
                              w: nat, k: K)
    requires Coherent(r, slots, hash, w) && p <= |r| && IsGroup(g, r, WindowStart(p, j, |r| + 1, w), w)
    requires NoMatch(slots, g, WindowStart(p, j, |r| + 1, w), w, H2(hash(k)), k)
    ensures AbsentAt(slots, p, j, w, k)
  {
    var o := WindowStart(p, j, |r| + 1, w);
    forall s | HoldsKey(slots, s, k) ensures !InWindow(o, w, |slots| + 1, s) {
      assert SlotCoherent(r, slots[s], s, hash, w);
      if InWindow(o, w, |r| + 1, s) {
        var x := GroupShowsSlot(r, g, o, s, w);
      }
    }
  }

  /** A search that saw an empty byte at step i, and k nowhere up to there, has shown that k is not in the table. */
  lemma StoppedSearchIsComplete<K, V>(r: seq<Ctrl>, slots: seq<Slot<K, V>>, hash: K -> nat, w: nat, k: K,
                                      p: nat, i: nat, m: map<K, V>)
    requires Coherent(r, slots, hash, w) && Represents(slots, m) && p == Home(hash, k, |r| + 1)
    requires i < NumWindows(|r| + 1, w) && (|r| + 1 < w || EmptyAt(r, p, i, w))
    requires forall j: nat | j <= i :: AbsentAt(slots, p, j, w, k)
    ensures k !in m
  {
    if k in m {
      var s :| HoldsKey(slots, s, k);
      assert SlotCoherent(r, slots[s], s, hash, w);
      var absent := AbsentAt(slots, p, StepOf(p, s, |r| + 1, w), w, k);
    }
  }

  ghost predicate AbsentBefore<K, V>(slots: seq<Slot<K, V>>, p: nat, n: nat, w: nat, k: K) {
    forall j: nat | j < n :: AbsentAt(slots, p, j, w, k)
  }

  /** One step of find_impl: after a group without a match, either the search is over or the next step exists. */
  lemma SearchStep<K, V>(r: seq<Ctrl>, slots: seq<Slot<K, V>>, hash: K -> nat, w: nat, k: K,
                         g: seq<Ctrl>, p: nat, n: nat, last: nat, m: map<K, V>)
    requires Coherent(r, slots, hash, w) && Represents(slots, m) && p == Home(hash, k, |r| + 1)
    requires n <= last < NumWindows(|r| + 1, w) && (|r| + 1 < w || EmptyAt(r, p, last, w))
    requires IsGroup(g, r, WindowStart(p, n, |r| + 1, w), w)
    requires NoMatch(slots, g, WindowStart(p, n, |r| + 1, w), w, H2(hash(k)), k)
    requires AbsentBefore(slots, p, n, w, k)
    ensures AbsentBefore(slots, p, n + 1, w, k)
    ensures if HasEmpty(g) then k !in m else n < last
  {
    NoMatchIsAbsent(r, slots, hash, g, p, n, w, k);
    if n == last {
      LastGroupHasEmpty(r, g, p, last, w);
    }
    if HasEmpty(g) {
      GroupShowsEmpty(r, g, WindowStart(p, n, |r| + 1, w), w);
      StoppedSearchIsComplete(r, slots, hash, w, k, p, n, m);
    }
  }

  ghost predicate FullBefore(r: seq<Ctrl>, p: nat, n: nat, w: nat) {
    forall j: nat | j < n :: !FreeAt(r, p, j, w)
  }

  /** One step of find_first_non_full. */
  lemma FreeSearchStep(r: seq<Ctrl>, g: seq<Ctrl>, p: nat, n: nat, last: nat, w: nat)
    requires IsRingOfMarks(r, w) && p <= |r|
    requires n <= last < NumWindows(|r| + 1, w) && (|r| + 1 < w || FreeAt(r, p, last, w))
    requires IsGroup(g, r, WindowStart(p, n, |r| + 1, w), w) && LowestFree(g) == w
    requires FullBefore(r, p, n, w)
    ensures FullBefore(r, p, n + 1, w) && n < last
  {
    var o := WindowStart(p, n, |r| + 1, w);
    if FreeIn(r, o, w) {
      var s := LowestFreeNamesSlot(r, g, o, w);
    }
    if n == last {
      LastGroupHasFree(r, g, p, last, w);
    }
  }
}

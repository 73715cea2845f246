/**
 Rehashing in place. During drop_deletes_without_resize a deleted byte marks an
 element that still has to be placed, an empty byte marks raw memory, and the
 windows before a placed element hold nothing but full bytes, so that no later
 move can open a gap in front of it.
 */
module RehashTheory {
  import opened ProbeSequence
  import Counting
  import opened ControlBytes
  import opened TableTheory

  ghost predicate Rehashing<K, V>(r: seq<Ctrl>, slots: seq<Slot<K, V>>, hash: K -> nat, w: nat) {
    && IsRingOfMarks(r, w)
    && |slots| == |r|
    && forall s | 0 <= s < |r| :: SlotRehashing(r, slots[s], s, hash, w)
  }

  ghost predicate SlotRehashing<K, V>(r: seq<Ctrl>, e: Slot<K, V>, s: nat, hash: K -> nat, w: nat)
    requires IsRing(|r| + 1, w) && s < |r|
  {
    && (IsEmpty(r[s]) <==> e.Raw?)
    && (IsFull(r[s]) ==> e.Held? && r[s] == H2(hash(e.key)) && Settled(r, Home(hash, e.key, |r| + 1), s, w))
  }

  /** The marks of r' after the conversion of r. */
  ghost predicate IsConversion(r: seq<Ctrl>, r': seq<Ctrl>) {
    |r'| == |r| && forall s | 0 <= s < |r| :: r'[s] == Converted(r[s])
  }

  lemma ConversionIsMarks(r: seq<Ctrl>, r': seq<Ctrl>, w: nat)
    requires IsRingOfMarks(r, w) && IsConversion(r, r')
    ensures IsRingOfMarks(r', w)
  {
  }

  /** Right after the conversion every element waits to be placed. */
  lemma ConversionStartsRehash<K, V>(r: seq<Ctrl>, r': seq<Ctrl>, slots: seq<Slot<K, V>>, hash: K -> nat, w: nat)
    requires Coherent(r, slots, hash, w) && IsConversion(r, r')
    ensures Rehashing(r', slots, hash, w)
    ensures Count(r', Tombstone) == Count(r, Occupied) && Count(r', Occupied) == 0
  {
    CountSame(r, r', Occupied, Tombstone);
    CountNone(r', Occupied);
    forall s | 0 <= s < |r| ensures SlotRehashing(r', slots[s], s, hash, w) {
      assert SlotCoherent(r, slots[s], s, hash, w);
    }
  }

  /** When nothing is left to be placed, the table is coherent again. */
  lemma RehashEndsCoherent<K, V>(r: seq<Ctrl>, slots: seq<Slot<K, V>>, hash: K -> nat, w: nat)
    requires Rehashing(r, slots, hash, w) && forall s | 0 <= s < |r| :: !IsDeleted(r[s])
    ensures Coherent(r, slots, hash, w) && Count(r, Tombstone) == 0
  {
    CountNone(r, Tombstone);
    forall s | 0 <= s < |r| ensures SlotCoherent(r, slots[s], s, hash, w) {
      assert SlotRehashing(r, slots[s], s, hash, w);
      if slots[s].Held? {
        SettledIsReachable(r, Home(hash, slots[s].key, |r| + 1), s, w);
      }
    }
  }

  /** Slots with the same probe_index are in the same window of the probe. */
  lemma SameTileSameStep(p: nat, s: nat, t: nat, m: nat, w: nat)
    requires IsRing(m, w) && m >= w && p < m && s < m && t < m && Tile(p, s, m, w) == Tile(p, t, m, w)
    ensures StepOf(p, s, m, w) == StepOf(p, t, m, w)
  {
    var i := StepOf(p, t, m, w);
    WindowIsTile(p, i, t, m, w);
    WindowIsTile(p, i, s, m, w);
    StepIsUnique(p, s, m, w, i);
  }

  /** An element that is already in the window of its target stays where it is. */
  lemma StayKeepsRehashing<K, V>(r: seq<Ctrl>, slots: seq<Slot<K, V>>, hash: K -> nat, w: nat, i: nat, t: nat)
    requires Rehashing(r, slots, hash, w) && |r| + 1 >= w && i < |r| && t < |r| && IsDeleted(r[i]) && slots[i].Held?
    requires Settled(r, Home(hash, slots[i].key, |r| + 1), t, w)
    requires var p := Home(hash, slots[i].key, |r| + 1); Tile(p, i, |r| + 1, w) == Tile(p, t, |r| + 1, w)
    ensures Rehashing(r[i := H2(hash(slots[i].key))], slots, hash, w)
  {
    var p, r' := Home(hash, slots[i].key, |r| + 1), r[i := H2(hash(slots[i].key))];
    SameTileSameStep(p, i, t, |r| + 1, w);
    forall s | 0 <= s < |r| ensures SlotRehashing(r', slots[s], s, hash, w) {
      assert SlotRehashing(r, slots[s], s, hash, w);
      if slots[s].Held? && IsFull(r'[s]) {
        FullStaysKeepSettled(r, r', Home(hash, slots[s].key, |r| + 1), s, w);
      }
    }
  }

  /** An element moves to an empty target and leaves raw memory behind. */
  lemma MoveKeepsRehashing<K, V>(r: seq<Ctrl>, slots: seq<Slot<K, V>>, hash: K -> nat, w: nat, i: nat, t: nat)
    requires Rehashing(r, slots, hash, w) && i < |r| && t < |r| && IsDeleted(r[i]) && IsEmpty(r[t]) && slots[i].Held?
    requires Settled(r, Home(hash, slots[i].key, |r| + 1), t, w)
    ensures i != t && Rehashing(r[t := H2(hash(slots[i].key))][i := EMPTY], slots[t := slots[i]][i := Raw], hash, w)
  {
    var r', slots' := r[t := H2(hash(slots[i].key))][i := EMPTY], slots[t := slots[i]][i := Raw];
    forall s | 0 <= s < |r| ensures SlotRehashing(r', slots'[s], s, hash, w) {
      assert SlotRehashing(r, slots[s], s, hash, w);
      if IsFull(r'[s]) {
        FullStaysKeepSettled(r, r', Home(hash, slots'[s].key, |r| + 1), s, w);
      }
    }
  }

  /** An element changes places with one that still has to be placed. */
  lemma SwapKeepsRehashing<K, V>(r: seq<Ctrl>, slots: seq<Slot<K, V>>, hash: K -> nat, w: nat, i: nat, t: nat)
    requires Rehashing(r, slots, hash, w) && i < |r| && t < |r| && i != t
    requires IsDeleted(r[i]) && IsDeleted(r[t]) && slots[i].Held?
    requires Settled(r, Home(hash, slots[i].key, |r| + 1), t, w)
    ensures Rehashing(r[t := H2(hash(slots[i].key))], slots[i := slots[t]][t := slots[i]], hash, w)
  {
    var r', slots' := r[t := H2(hash(slots[i].key))], slots[i := slots[t]][t := slots[i]];
    assert SlotRehashing(r, slots[i], i, hash, w) && SlotRehashing(r, slots[t], t, hash, w);
    forall s | 0 <= s < |r| ensures SlotRehashing(r', slots'[s], s, hash, w) {
      assert SlotRehashing(r, slots[s], s, hash, w);
      if IsFull(r'[s]) {
        FullStaysKeepSettled(r, r', Home(hash, slots'[s].key, |r| + 1), s, w);
      }
    }
  }

  /** Every step places one element: a deleted byte disappears and a full one appears. */
  ghost predicate PlacedOne(r: seq<Ctrl>, r': seq<Ctrl>) {
    && |r'| == |r|
    && Count(r', Tombstone) + 1 == Count(r, Tombstone)
    && Count(r', Occupied) == Count(r, Occupied) + 1
    && forall s | 0 <= s < |r| :: IsDeleted(r'[s]) ==> IsDeleted(r[s])
  }

  lemma MarkPlacesOne(r: seq<Ctrl>, t: nat, h: Ctrl)
    requires t < |r| && IsDeleted(r[t]) && IsFull(h)
    ensures PlacedOne(r, r[t := h])
  {
    CountUpdate(r, t, h, Tombstone);
    CountUpdate(r, t, h, Occupied);
  }

  lemma MovePlacesOne(r: seq<Ctrl>, i: nat, t: nat, h: Ctrl)
    requires i < |r| && t < |r| && IsDeleted(r[i]) && IsEmpty(r[t]) && IsFull(h)
    ensures PlacedOne(r, r[t := h][i := EMPTY])
  {
    CountUpdate(r, t, h, Tombstone);
    CountUpdate(r, t, h, Occupied);
    CountUpdate(r[t := h], i, EMPTY, Tombstone);
    CountUpdate(r[t := h], i, EMPTY, Occupied);
  }

  // --------------------------------------------------------------------- growing

  /** A table without any mark. */
  lemma FreshIsCoherent<K, V>(r: seq<Ctrl>, slots: seq<Slot<K, V>>, hash: K -> nat, w: nat)
    requires IsRing(|r| + 1, w) && |slots| == |r|
    requires forall s | 0 <= s < |r| :: r[s] == EMPTY && slots[s] == Raw
    ensures Coherent(r, slots, hash, w) && Count(r, Tombstone) == 0 && Count(r, Occupied) == 0
  {
    CountNone(r, Tombstone);
    CountNone(r, Occupied);
    forall s | 0 <= s < |r| ensures SlotCoherent(r, slots[s], s, hash, w) {
    }
  }

  lemma CountPrefix(r: seq<Ctrl>, n: nat, d: Kind)
    requires n <= |r|
    ensures Count(r[..n], d) <= Count(r, d)
  {
    assert Kinds(r[..n]) == Kinds(r)[..n];
    Counting.CountPrefix(Kinds(r), n, d);
  }

  lemma CountNext(r: seq<Ctrl>, n: nat, d: Kind)
    requires n < |r|
    ensures Count(r[..n + 1], d) == Count(r[..n], d) + (if KindOf(r[n]) == d then 1 else 0)
  {
    assert Kinds(r[..n + 1]) == Kinds(r[..n]) + [KindOf(r[n])];
    Counting.CountAppend(Kinds(r[..n]), KindOf(r[n]), d);
  }

  /** An element is transferred from old memory to slot t of the new table. */
  lemma TransferKeepsMap<K, V>(a: seq<Slot<K, V>>, b: seq<Slot<K, V>>, m: map<K, V>, i: nat, t: nat)
    requires Represents(a + b, m) && i < |a| && t < |b| && a[i].Held? && b[t].Raw?
    ensures Represents(a[i := Raw] + b[t := a[i]], m)
  {
    RepresentsMove(a + b, m, i, |a| + t);
    assert (a + b)[|a| + t := (a + b)[i]][i := Raw] == a[i := Raw] + b[t := a[i]];
  }

  /** The first free slot of a coherent table is raw memory. */
  lemma TargetIsRaw<K, V>(r: seq<Ctrl>, slots: seq<Slot<K, V>>, hash: K -> nat, w: nat, t: nat)
    requires Coherent(r, slots, hash, w) && t < |r| && IsEmptyOrDeleted(r[t])
    ensures slots[t].Raw?
  {
    assert SlotCoherent(r, slots[t], t, hash, w);
  }

  /** While old elements are left to transfer, the new table has an empty slot. */
  lemma RoomForNext(oldRing: seq<Ctrl>, r: seq<Ctrl>, i: nat, w: nat)
    requires IsRingOfMarks(r, w) && i < |oldRing| && IsFull(oldRing[i])
    requires Count(oldRing, Occupied) <= CapacityToGrowth(|r|, w)
    requires Count(r, Tombstone) == 0 && Count(r, Occupied) == Count(oldRing[..i], Occupied)
    ensures HasFree(r)
  {
    CountNext(oldRing, i, Occupied);
    CountPrefix(oldRing, i + 1, Occupied);
    CountTotal(r);
    var s := CountWitness(r, Vacant);
    assert IsEmptyOrDeleted(r[s]);
  }

  lemma FullIsHeld<K, V>(r: seq<Ctrl>, slots: seq<Slot<K, V>>, hash: K -> nat, w: nat)
    requires Coherent(r, slots, hash, w)
    ensures forall s | 0 <= s < |r| :: IsFull(r[s]) <==> slots[s].Held?
  {
    forall s | 0 <= s < |r| ensures IsFull(r[s]) <==> slots[s].Held? {
      assert SlotCoherent(r, slots[s], s, hash, w);
    }
  }

  /** Squashing frees a slot, and is never asked of a table smaller than a group. */
  lemma SquashIsOnLargeTable(r: seq<Ctrl>, size: nat, w: nat)
    requires IsRing(|r| + 1, w) && |r| > 0 && Accounted(r, size, 0, w) && size <= CapacityToGrowth(|r|, w) / 2
    ensures |r| + 1 >= w && size < CapacityToGrowth(|r|, w)
  {
  }

  lemma VacantIsFree(r: seq<Ctrl>)
    ensures Count(r, Vacant) > 0 && (forall s | 0 <= s < |r| :: IsMark(r[s])) ==> HasFree(r)
  {
    if Count(r, Vacant) > 0 {
      var s := CountWitness(r, Vacant);
    }
  }

  lemma NoElementsNoEntries<K, V>(r: seq<Ctrl>, slots: seq<Slot<K, V>>, hash: K -> nat, w: nat, m: map<K, V>)
    requires Coherent(r, slots, hash, w) && Represents(slots, m) && Count(r, Occupied) == 0
    ensures m == map[]
  {
    if k :| k in m {
      var s :| HoldsKey(slots, s, k);
      assert SlotCoherent(r, slots[s], s, hash, w);
      CountPositive(r, s, Occupied);
    }
  }

  lemma CountPositive(r: seq<Ctrl>, s: nat, d: Kind)
    requires s < |r| && KindOf(r[s]) == d
    ensures Count(r, d) > 0
  {
    Counting.CountPositive(Kinds(r), s);
  }
}

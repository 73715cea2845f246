/**
 The open-addressing table (raw_hash_set with the map operations of raw_hash_map).

 The fields are those of the source; `Contents` is the map the table stands for.
 The hash is any function of the key, and the group width is 8 or 16.
 A table that has never allocated (capacity 0) has the control bytes of EmptyGroup.
 */
module RawHashMaps {
  import opened ProbeSequence
  import opened ControlBytes
  import opened TableTheory
  import opened RehashTheory
  import opened Options

  lemma NextGroupFits(m: nat, w: nat, groups: nat)
    requires IsRing(m, w) && m >= w && w * groups < m
    ensures w * groups + w <= m && groups < NumWindows(m, w) && w * (groups + 1) == w * groups + w
  {
    RingDivides(m, w);
    MulStep(w, groups);
    if groups >= NumWindows(m, w) {
      MulMono(w, NumWindows(m, w), groups);
    } else {
      MulMono(w, groups + 1, NumWindows(m, w));
    }
  }

  class RawHashMap<K(==), V> {
    const hash: K -> nat
    const width: nat
    var ctrl: array<Ctrl>
    var slots: array<Slot<K, V>>
    var size: nat
    var capacity: nat
    var growthLeft: nat
    ghost var Contents: map<K, V>

    // ------------------------------------------------------------- representation

    /** The objects this table is made of. */
    ghost function Repr(): set<object>
      reads this
    {
      {this as object, ctrl, slots}
    }

    ghost function Ring(): (r: seq<Ctrl>)
      requires capacity <= ctrl.Length
      reads `capacity, `ctrl, ctrl
      ensures |r| == capacity
    {
      ctrl[..capacity]
    }

    /** The control array is the image of its ring. */
    ghost predicate Shaped()
      reads `capacity, `ctrl, `slots, ctrl
    {
      && ctrl.Length == capacity + width + 1
      && slots.Length == capacity
      && IsRingOfMarks(Ring(), width)
      && Mirrors(ctrl[..], Ring(), width)
    }

    ghost predicate Valid()
      reads this, ctrl, slots
    {
      && Shaped()
      && Coherent(Ring(), slots[..], hash, width)
      && Accounted(Ring(), size, growthLeft, width)
      && Represents(slots[..], Contents)
    }

    constructor (hash: K -> nat, width: nat)
      requires IsWidth(width)
      ensures Valid() && fresh(ctrl) && fresh(slots)
      ensures this.hash == hash && this.width == width && Contents == map[]
    {
      this.hash, this.width := hash, width;
      ctrl := new Ctrl[width + 1](i => if i == 0 then SENTINEL else EMPTY);
      slots := new Slot<K, V>[0](i => Raw);
      size, capacity, growthLeft := 0, 0, 0;
      Contents := map[];
    }

    // ----------------------------------------------------------------- control bytes

    method SetCtrl(i: nat, h: Ctrl)
      requires Shaped() && i < capacity && IsMark(h)
      modifies ctrl
      ensures Shaped() && Ring() == old(Ring())[i := h]
    {
      ghost var a, r := ctrl[..], Ring();
      SetCtrlMirrors(a, r, i, h, width);
      CloneIndexIs(i, capacity, width);
      WriteTwice(i, CloneIndex(i, capacity, width), h);
    }

    method WriteTwice(i: nat, clone: nat, h: Ctrl)
      requires i < ctrl.Length && clone < ctrl.Length
      modifies ctrl
      ensures ctrl[..] == old(ctrl[..])[i := h][clone := h]
    {
      ctrl[i] := h;
      ctrl[clone] := h;
    }

    method ResetCtrl()
      requires ctrl.Length == capacity + width + 1 && slots.Length == capacity && IsRing(capacity + 1, width)
      modifies ctrl
      ensures Shaped() && forall s | 0 <= s < capacity :: Ring()[s] == EMPTY
    {
      forall i | 0 <= i < capacity + width {
        ctrl[i] := EMPTY;
      }
      ctrl[capacity] := SENTINEL;
    }

    /** Marks every deleted slot empty and every full slot deleted: first the bytes, group by group, then the copies. */
    method ConvertDeletedToEmptyAndFullToDeleted()
      requires Shaped() && capacity + 1 >= width
      modifies ctrl
      ensures Shaped() && IsConversion(old(Ring()), Ring())
    {
      ConvertGroups();
      CopyClones();
      ConversionIsMarks(old(Ring()), Ring(), width);
    }

    /** Copies the first bytes behind the sentinel, which the conversion has overwritten. */
    method CopyClones()
      requires ctrl.Length == capacity + width + 1 && capacity + 1 >= width > 0
      modifies ctrl
      ensures Ring() == old(Ring()) && Mirrors(ctrl[..], Ring(), width)
    {
      forall k | 0 <= k < width {
        ctrl[capacity + 1 + k] := ctrl[k];
      }
      ctrl[capacity] := SENTINEL;
    }

    method ConvertGroups()
      requires Shaped() && capacity + 1 >= width
      modifies ctrl
      ensures IsConversion(old(Ring()), Ring())
    {
      RingDivides(capacity + 1, width);
      ghost var r := Ring();
      ghost var groups := 0;
      var pos := 0;
      while pos != capacity + 1
        invariant pos == width * groups <= capacity + 1
        invariant forall s | 0 <= s < capacity :: ctrl[s] == if s < pos then Converted(r[s]) else r[s]
        decreases capacity + 1 - pos
      {
        NextGroupFits(capacity + 1, width, groups);
        forall k | pos <= k < pos + width {
          ctrl[k] := Converted(ctrl[k]);
        }
        pos := pos + width;
        groups := groups + 1;
      }
    }

    // ---------------------------------------------------------------------- searching

    /**
     The bits of Match: the first byte of group g that carries H2 and whose slot has key k; width if
     there is none.
     */
    method MatchKey(g: seq<Ctrl>, cursor: ProbeSeq, k: K, hashval: nat,
                    ghost r: seq<Ctrl>, ghost elements: seq<Slot<K, V>>)
      returns (i: nat)
      requires slots[..] == elements && Coherent(r, elements, hash, width) && hashval == hash(k)
      requires cursor.mask == |r| && cursor.offset <= |r| && IsGroup(g, r, cursor.offset, width)
      ensures i <= width
      ensures i < width ==> HoldsKey(elements, cursor.At(i), k)
      ensures i == width ==> NoMatch(elements, g, cursor.offset, width, H2(hashval), k)
    {
      i := 0;
      while i < width
        invariant i <= width && NoMatch(elements, g, cursor.offset, i, H2(hashval), k)
      {
        if g[i] == H2(hashval) {
          var s := cursor.At(i);
          MatchIsHeld(r, elements, hash, g, cursor.offset, i, width, s);
          if slots[s].key == k {
            return;
          }
        }
        i := i + 1;
      }
    }

    method LoadGroup(o: nat) returns (g: seq<Ctrl>)
      requires Shaped() && o <= capacity
      ensures IsGroup(g, Ring(), o, width)
    {
      g := ctrl[o..o + width];
      GroupIsSlice(ctrl[..], Ring(), o, width);
      assert ctrl[..][o..o + width] == g;
    }

    /** The cursor walks this table from position p. */
    ghost predicate Probing(cursor: ProbeSeq, p: nat)
      reads this, cursor
    {
      cursor.Valid() && cursor.mask == capacity && cursor.width == width && cursor.start == p
    }

    /** One step of find_impl: the element with key k in this window, or the end of the search. */
    method TestKey(cursor: ProbeSeq, k: K, hashval: nat, ghost r: seq<Ctrl>, ghost elements: seq<Slot<K, V>>,
                   ghost p: nat, ghost last: nat)
      returns (found: bool, stop: bool, offset: nat)
      requires Shaped() && Ring() == r && slots[..] == elements && Coherent(r, elements, hash, width)
      requires Represents(elements, Contents)
      requires hashval == hash(k) && p == Home(hash, k, capacity + 1) && Probing(cursor, p)
      requires cursor.step <= last < NumWindows(capacity + 1, width)
      requires capacity + 1 < width || EmptyAt(r, p, last, width)
      requires AbsentBefore(elements, p, cursor.step, width, k)
      ensures found ==> offset < capacity && HoldsKey(elements, offset, k)
      ensures !found && stop ==> k !in Contents
      ensures !found && !stop ==> cursor.step < last && AbsentBefore(elements, p, cursor.step + 1, width, k)
    {
      var g := LoadGroup(cursor.offset);
      var i := MatchKey(g, cursor, k, hashval, r, elements);
      if i < width {
        return true, true, cursor.At(i);
      }
      SearchStep(r, elements, hash, width, k, g, p, cursor.step, last, Contents);
      return false, HasEmpty(g), 0;
    }

    /** find_impl and _find_key: the slot of the element with key k, if there is one. */
    method FindKey(k: K, hashval: nat) returns (found: bool, offset: nat)
      requires Valid() && hashval == hash(k)
      ensures found <==> k in Contents
      ensures found ==> offset < capacity && HoldsKey(slots[..], offset, k)
    {
      ghost var r, p, elements := Ring(), Home(hash, k, capacity + 1), slots[..];
      AccountedHasEmpty(r, size, growthLeft, width);
      ghost var last := LastStep(r, p, width);
      var cursor := new ProbeSeq(H1(hashval), capacity, width);
      while true
        invariant fresh(cursor) && Probing(cursor, p)
        invariant cursor.step <= last && AbsentBefore(elements, p, cursor.step, width, k)
        decreases last - cursor.step
      {
        var stop;
        found, stop, offset := TestKey(cursor, k, hashval, r, elements, p, last);
        if found {
          HeldIsContained(elements, Contents, offset, k);
          return;
        }
        if stop {
          return;
        }
        cursor.Next();
      }
    }

    /** One step of find_first_non_full. */
    method TestGroup(cursor: ProbeSeq, ghost r: seq<Ctrl>, ghost p: nat, ghost last: nat)
      returns (found: bool, target: nat)
      requires Shaped() && Ring() == r && Probing(cursor, p) && p <= capacity
      requires cursor.step <= last < NumWindows(capacity + 1, width)
      requires capacity + 1 < width || FreeAt(r, p, last, width)
      requires FullBefore(r, p, cursor.step, width)
      ensures if found then IsTarget(r, p, target, width)
              else FullBefore(r, p, cursor.step + 1, width) && cursor.step < last
    {
      var g := LoadGroup(cursor.offset);
      if LowestFree(g) < width {
        FirstFreeIsTarget(r, g, p, cursor.step, width, cursor.At(LowestFree(g)));
        return true, cursor.At(LowestFree(g));
      }
      FreeSearchStep(r, g, p, cursor.step, last, width);
      return false, 0;
    }

    /**
     The first slot of the probe for hashval that is not full; the sentinel's position if every slot
     of a small table is.
     */
    method FindFirstNonFull(hashval: nat) returns (target: nat)
      requires Shaped() && (capacity + 1 >= width ==> HasFree(Ring()))
      ensures IsTarget(Ring(), H1(hashval) % (capacity + 1), target, width)
    {
      ghost var r, p := Ring(), H1(hashval) % (capacity + 1);
      ghost var last := LastFreeStep(r, p, width);
      var cursor := new ProbeSeq(H1(hashval), capacity, width);
      while true
        invariant fresh(cursor) && Probing(cursor, p)
        invariant cursor.step <= last && FullBefore(r, p, cursor.step, width)
        decreases last - cursor.step
      {
        var found;
        found, target := TestGroup(cursor, r, p, last);
        if found {
          return;
        }
        cursor.Next();
      }
    }

    // ---------------------------------------------------------------- rehash and growth

    /** The table while drop_deletes_without_resize is at work. */
    ghost predicate BeingRehashed()
      reads this, ctrl, slots
    {
      Shaped() && capacity + 1 >= width && Rehashing(Ring(), slots[..], hash, width) && Represents(slots[..], Contents)
    }

    /** probe_index: which window of its probe a slot is in. */
    function ProbeIndex(hashval: nat, pos: nat): nat
      requires width > 0
      reads this
    {
      Tile(H1(hashval) % (capacity + 1), pos, capacity + 1, width)
    }

    /**
     What becomes of the element of slot i when newI is the first free slot of its probe: it stays if that
     is in the window it is in, moves if it is empty, and else changes places with the element there.
     */
    twostate predicate RehashedAt(i: nat, newI: nat, again: bool)
      requires Shaped() && old(Shaped()) && i < capacity && newI < capacity && capacity == old(capacity)
      requires old(slots[i].Held?)
      reads this, ctrl, slots
    {
      var r, elements, hashval := old(Ring()), old(slots[..]), hash(old(slots[i].key));
      if ProbeIndex(hashval, newI) == ProbeIndex(hashval, i) then
        !again && Ring() == r[i := H2(hashval)] && slots[..] == elements
      else if IsEmpty(r[newI]) then
        !again && Ring() == r[newI := H2(hashval)][i := EMPTY] && slots[..] == elements[newI := elements[i]][i := Raw]
      else
        again && Ring() == r[newI := H2(hashval)] && slots[..] == elements[i := elements[newI]][newI := elements[i]]
    }

    /** Places the element of slot i; `again` when slot i then holds another element to place. */
    method RehashSlot(i: nat) returns (again: bool, ghost newI: nat)
      requires BeingRehashed() && i < capacity && IsDeleted(Ring()[i])
      modifies ctrl, slots
      ensures BeingRehashed() && PlacedOne(old(Ring()), Ring())
      ensures !again ==> !IsDeleted(Ring()[i])
      ensures old(slots[i].Held?) && newI < capacity
      ensures IsTarget(old(Ring()), Home(hash, old(slots[i].key), capacity + 1), newI, width)
      ensures RehashedAt(i, newI, again)
    {
      ghost var r := Ring();
      assert SlotRehashing(r, slots[i], i, hash, width);
      assert HasFree(r);
      var target := FindFirstNonFull(hash(slots[i].key));
      newI := target;
      again := PlaceElement(i, target, hash(slots[i].key));
    }

    /** The element of slot i goes where its probe first finds room. */
    method PlaceElement(i: nat, newI: nat, hashval: nat) returns (again: bool)
      requires BeingRehashed() && i < capacity && newI < capacity && IsDeleted(Ring()[i])
      requires slots[i].Held? && hashval == hash(slots[i].key)
      requires IsEmptyOrDeleted(Ring()[newI]) && Settled(Ring(), H1(hashval) % (capacity + 1), newI, width)
      modifies ctrl, slots
      ensures BeingRehashed() && PlacedOne(old(Ring()), Ring())
      ensures !again ==> !IsDeleted(Ring()[i])
      ensures RehashedAt(i, newI, again)
    {
      if ProbeIndex(hashval, newI) == ProbeIndex(hashval, i) {
        StayInWindow(i, newI, hashval);
        again := false;
      } else if IsEmpty(ctrl[newI]) {
        MoveToEmpty(i, newI, hashval);
        again := false;
      } else {
        SwapWithUnplaced(i, newI, hashval);
        again := true;
      }
    }

    method StayInWindow(i: nat, newI: nat, hashval: nat)
      requires BeingRehashed() && i < capacity && newI < capacity && IsDeleted(Ring()[i])
      requires slots[i].Held? && hashval == hash(slots[i].key)
      requires Settled(Ring(), H1(hashval) % (capacity + 1), newI, width)
      requires ProbeIndex(hashval, newI) == ProbeIndex(hashval, i)
      modifies ctrl
      ensures BeingRehashed() && PlacedOne(old(Ring()), Ring()) && !IsDeleted(Ring()[i])
      ensures Ring() == old(Ring())[i := H2(hashval)]
    {
      StayKeepsRehashing(Ring(), slots[..], hash, width, i, newI);
      MarkPlacesOne(Ring(), i, H2(hashval));
      SetCtrl(i, H2(hashval));
    }

    method MoveToEmpty(i: nat, newI: nat, hashval: nat)
      requires BeingRehashed() && i < capacity && newI < capacity && IsDeleted(Ring()[i]) && IsEmpty(Ring()[newI])
      requires slots[i].Held? && hashval == hash(slots[i].key)
      requires Settled(Ring(), H1(hashval) % (capacity + 1), newI, width)
      modifies ctrl, slots
      ensures BeingRehashed() && PlacedOne(old(Ring()), Ring()) && !IsDeleted(Ring()[i])
      ensures Ring() == old(Ring())[newI := H2(hashval)][i := EMPTY]
      ensures slots[..] == old(slots[..])[newI := old(slots[i])][i := Raw]
    {
      ghost var r, elements := Ring(), slots[..];
      assert SlotRehashing(r, elements[newI], newI, hash, width);
      MoveKeepsRehashing(r, elements, hash, width, i, newI);
      MovePlacesOne(r, i, newI, H2(hashval));
      RepresentsMove(elements, Contents, i, newI);
      SetCtrl(newI, H2(hashval));
      slots[newI] := slots[i];
      slots[i] := Raw;
      SetCtrl(i, EMPTY);
      assert slots[..] == elements[newI := elements[i]][i := Raw];
    }

    method SwapWithUnplaced(i: nat, newI: nat, hashval: nat)
      requires BeingRehashed() && i < capacity && newI < capacity && i != newI
      requires IsDeleted(Ring()[i]) && IsDeleted(Ring()[newI])
      requires slots[i].Held? && hashval == hash(slots[i].key)
      requires Settled(Ring(), H1(hashval) % (capacity + 1), newI, width)
      modifies ctrl, slots
      ensures BeingRehashed() && PlacedOne(old(Ring()), Ring()) && Ring() == old(Ring())[newI := H2(hashval)]
      ensures slots[..] == old(slots[..])[i := old(slots[newI])][newI := old(slots[i])]
    {
      ghost var r, elements := Ring(), slots[..];
      SwapKeepsRehashing(r, elements, hash, width, i, newI);
      MarkPlacesOne(r, newI, H2(hashval));
      RepresentsSwap(elements, Contents, i, newI);
      SetCtrl(newI, H2(hashval));
      var slot := slots[i];
      slots[i] := slots[newI];
      slots[newI] := slot;
      assert slots[..] == elements[i := elements[newI]][newI := elements[i]];
    }

    /** The loop of drop_deletes_without_resize; a swapped slot is looked at again. */
    method PlaceAll()
      requires BeingRehashed()
      modifies ctrl, slots
      ensures BeingRehashed() && forall s | 0 <= s < capacity :: !IsDeleted(Ring()[s])
      ensures Count(Ring(), Occupied) == old(Count(Ring(), Tombstone) + Count(Ring(), Occupied))
    {
      var i := 0;
      while i != capacity
        invariant i <= capacity && BeingRehashed()
        invariant forall s | 0 <= s < i :: !IsDeleted(Ring()[s])
        invariant Count(Ring(), Tombstone) + Count(Ring(), Occupied) ==
                  old(Count(Ring(), Tombstone) + Count(Ring(), Occupied))
        decreases Count(Ring(), Tombstone), capacity - i
      {
        if !IsDeleted(ctrl[i]) {
          i := i + 1;
        } else {
          var again;
          ghost var newI;
          again, newI := RehashSlot(i);
          if !again {
            i := i + 1;
          }
        }
      }
      CountNone(Ring(), Tombstone);
    }

    /** Rehashes in place: the same contents, no tombstones, every element found under its own hash. */
    method DropDeletesWithoutResize()
      requires Valid() && capacity + 1 >= width
      modifies this, ctrl, slots
      ensures Valid() && Contents == old(Contents) && Count(Ring(), Tombstone) == 0
      ensures ctrl == old(ctrl) && slots == old(slots) && size == old(size) && capacity == old(capacity)
    {
      ghost var r := Ring();
      ConvertDeletedToEmptyAndFullToDeleted();
      ConversionStartsRehash(r, Ring(), slots[..], hash, width);
      PlaceAll();
      RehashEndsCoherent(Ring(), slots[..], hash, width);
      growthLeft := CapacityToGrowth(capacity, width) - size;
    }

    // ------------------------------------------------------------------------ growing

    /** Transfers the element of old slot i to the first non-full slot of its probe in the new arrays. */
    method Transfer(source: array<Slot<K, V>>, i: nat) returns (newI: nat)
      requires Shaped() && Coherent(Ring(), slots[..], hash, width) && source != slots
      requires i < source.Length && source[i].Held? && Represents(source[..] + slots[..], Contents)
      requires HasFree(Ring()) && Count(Ring(), Tombstone) == 0
      modifies ctrl, slots, source
      ensures Shaped() && Coherent(Ring(), slots[..], hash, width) && Represents(source[..] + slots[..], Contents)
      ensures var hashval := hash(old(source[i].key));
              && newI < capacity && IsTarget(old(Ring()), H1(hashval) % (capacity + 1), newI, width)
              && Ring() == old(Ring())[newI := H2(hashval)] && slots[..] == old(slots[..])[newI := old(source[i])]
      ensures source[..] == old(source[..])[i := Raw]
      ensures Count(Ring(), Tombstone) == 0 && Count(Ring(), Occupied) == old(Count(Ring(), Occupied)) + 1
    {
      ghost var r, a, b := Ring(), source[..], slots[..];
      var hashval := hash(source[i].key);
      newI := FindFirstNonFull(hashval);
      TargetIsRaw(r, b, hash, width, newI);
      TransferKeepsMap(a, b, Contents, i, newI);
      PlaceKeepsCoherent(r, b, hash, width, newI, a[i].key, a[i].value);
      CountUpdate(r, newI, H2(hashval), Tombstone);
      CountUpdate(r, newI, H2(hashval), Occupied);
      SetCtrl(newI, H2(hashval));
      slots[newI] := source[i];
      source[i] := Raw;
      assert slots[..] == b[newI := a[i]];
      assert source[..] == a[i := Raw];
    }

    method InitializeSlots(newCapacity: nat)
      requires IsWidth(width) && IsValidCapacity(newCapacity) && size <= CapacityToGrowth(newCapacity, width)
      modifies this
      ensures fresh(ctrl) && fresh(slots) && capacity == newCapacity && Shaped()
      ensures Coherent(Ring(), slots[..], hash, width) && Count(Ring(), Tombstone) == 0 && Count(Ring(), Occupied) == 0
      ensures forall s | 0 <= s < capacity :: slots[s].Raw?
      ensures size == old(size) && Contents == old(Contents)
      ensures growthLeft == CapacityToGrowth(newCapacity, width) - size
    {
      ctrl := new Ctrl[newCapacity + width + 1];
      slots := new Slot<K, V>[newCapacity](i => Raw);
      capacity := newCapacity;
      ResetCtrl();
      growthLeft := CapacityToGrowth(newCapacity, width) - size;
      FreshIsCoherent(Ring(), slots[..], hash, width);
    }

    /** The first i old slots have been seen: their elements are in the new arrays, the others still in the old one. */
    ghost predicate Transferred(source: array<Slot<K, V>>, r: seq<Ctrl>, i: nat)
      reads this, ctrl, slots, source
    {
      && i <= |r| == source.Length && source != slots
      && Shaped() && Coherent(Ring(), slots[..], hash, width) && Represents(source[..] + slots[..], Contents)
      && (forall s | 0 <= s < |r| :: source[s].Held? <==> i <= s && IsFull(r[s]))
      && Count(Ring(), Tombstone) == 0 && Count(Ring(), Occupied) == Count(r[..i], Occupied)
    }

    /** One round of the loop of resize. */
    method TransferNext(oldCtrl: array<Ctrl>, source: array<Slot<K, V>>, ghost r: seq<Ctrl>, i: nat)
      requires Transferred(source, r, i) && i < |r| <= oldCtrl.Length && oldCtrl[i] == r[i]
      requires Count(r, Occupied) <= CapacityToGrowth(capacity, width)
      modifies ctrl, slots, source
      ensures Transferred(source, r, i + 1)
    {
      CountNext(r, i, Occupied);
      if IsFull(oldCtrl[i]) {
        RoomForNext(r, Ring(), i, width);
        var newI := Transfer(source, i);
      }
    }

    /** The loop of resize. */
    method TransferAll(oldCtrl: array<Ctrl>, oldSlots: array<Slot<K, V>>, oldCapacity: nat)
      requires oldCapacity <= oldCtrl.Length && oldCtrl != ctrl && Transferred(oldSlots, oldCtrl[..oldCapacity], 0)
      requires Count(oldCtrl[..oldCapacity], Occupied) <= CapacityToGrowth(capacity, width)
      modifies ctrl, slots, oldSlots
      ensures Shaped() && Coherent(Ring(), slots[..], hash, width) && Represents(slots[..], Contents)
      ensures Count(Ring(), Tombstone) == 0 && Count(Ring(), Occupied) == Count(oldCtrl[..oldCapacity], Occupied)
    {
      ghost var r := oldCtrl[..oldCapacity];
      var i := 0;
      while i != oldCapacity
        invariant i <= oldCapacity && oldCtrl[..oldCapacity] == r && Transferred(oldSlots, r, i)
      {
        TransferNext(oldCtrl, oldSlots, r, i);
        i := i + 1;
      }
      assert r[..oldCapacity] == r;
      RepresentsDropRaw(oldSlots[..], slots[..], Contents);
    }

    /** Moves every element into newly allocated arrays. */
    method Resize(newCapacity: nat)
      requires Valid() && IsValidCapacity(newCapacity) && size <= CapacityToGrowth(newCapacity, width)
      modifies this, slots
      ensures Valid() && Contents == old(Contents) && Count(Ring(), Tombstone) == 0
      ensures fresh(ctrl) && fresh(slots) && size == old(size) && capacity == newCapacity
    {
      var oldCtrl, oldSlots, oldCapacity := ctrl, slots, capacity;
      ghost var r, elements := Ring(), slots[..];
      FullIsHeld(r, elements, hash, width);
      InitializeSlots(newCapacity);
      RepresentsAddRaw(elements, slots[..], Contents);
      assert oldSlots[..] == elements && oldCtrl[..oldCapacity] == r;
      TransferAll(oldCtrl, oldSlots, oldCapacity);
    }

    /** The arrays are the old ones or new ones. */
    twostate predicate KeepsOrRenewsArrays()
      reads this
    {
      (ctrl == old(ctrl) || fresh(ctrl)) && (slots == old(slots) || fresh(slots))
    }

    /** The capacity once room has been made: the old one if squashing tombstones is enough, else the next. */
    ghost function RoomyCapacity(): nat
      reads this
    {
      if capacity == 0 then 1
      else if size <= CapacityToGrowth(capacity, width) / 2 then capacity
      else 2 * capacity + 1
    }

    /** Makes room: squashes the tombstones of a table at most half full, or grows. */
    method RehashAndGrowIfNecessary()
      requires Valid() && growthLeft == 0
      modifies this, ctrl, slots
      ensures Valid() && Contents == old(Contents) && size == old(size) && KeepsOrRenewsArrays()
      ensures growthLeft > 0 && capacity > 0 && Count(Ring(), Tombstone) == 0
      ensures capacity == old(RoomyCapacity()) && 2 * growthLeft >= CapacityToGrowth(capacity, width)
      ensures old(capacity) > 0 ==>
                (capacity == old(capacity) <==> 2 * size <= CapacityToGrowth(old(capacity), width))
    {
      if capacity == 0 {
        Resize(1);
      } else if size <= CapacityToGrowth(capacity, width) / 2 {
        SquashIsOnLargeTable(Ring(), size, width);
        DropDeletesWithoutResize();
      } else {
        GrowthIncreases(capacity, width);
        GrowthDoubles(capacity, width);
        Resize(capacity * 2 + 1);
      }
    }

    // ------------------------------------------------------------------ map operations

    /** find_first_non_full on a table between operations. */
    method FindTarget(hashval: nat) returns (target: nat)
      requires Valid()
      ensures IsTarget(Ring(), H1(hashval) % (capacity + 1), target, width)
      ensures target < ctrl.Length && (growthLeft > 0 || IsDeleted(ctrl[target]) ==> target < capacity)
    {
      AccountedHasEmpty(Ring(), size, growthLeft, width);
      VacantIsFree(Ring());
      target := FindFirstNonFull(hashval);
    }

    /** Makes room, and looks again. */
    method FindRoomAfterGrowth(hashval: nat) returns (target: nat)
      requires Valid() && growthLeft == 0
      modifies this, ctrl, slots
      ensures Valid() && Contents == old(Contents) && KeepsOrRenewsArrays()
      ensures target < capacity && IsTarget(Ring(), H1(hashval) % (capacity + 1), target, width) && growthLeft > 0
      ensures capacity == old(RoomyCapacity()) && Count(Ring(), Tombstone) == 0
    {
      RehashAndGrowIfNecessary();
      target := FindTarget(hashval);
    }

    /** Room has to be made for an element whose first free slot is this one. */
    predicate NeedsRoom(first: nat)
      requires first < ctrl.Length
      reads this, ctrl
    {
      growthLeft == 0 && !IsDeleted(ctrl[first])
    }

    /**
     The first half of prepare_insert: a free slot that may be taken, after making room if necessary.
     `first` is the first free slot of the table as it was; if it may be taken, nothing has changed.
     */
    method FindRoom(hashval: nat) returns (target: nat, ghost first: nat)
      requires Valid()
      modifies this, ctrl, slots
      ensures Valid() && Contents == old(Contents) && KeepsOrRenewsArrays()
      ensures target < capacity && IsTarget(Ring(), H1(hashval) % (capacity + 1), target, width)
      ensures IsEmpty(Ring()[target]) ==> growthLeft > 0
      ensures first <= old(capacity) < old(ctrl.Length) && first < old(ctrl.Length)
      ensures IsTarget(old(Ring()), H1(hashval) % (old(capacity) + 1), first, width)
      ensures if old(NeedsRoom(first)) then capacity == old(RoomyCapacity()) && Count(Ring(), Tombstone) == 0
              else target == first && unchanged(this) && unchanged(ctrl) && unchanged(slots)
    {
      var slot := FindTarget(hashval);
      first := slot;
      target := MakeRoom(hashval, slot);
    }

    /** Makes room if it is needed for an element whose first free slot is `slot`. */
    method MakeRoom(hashval: nat, slot: nat) returns (target: nat)
      requires Valid() && slot < ctrl.Length && IsTarget(Ring(), H1(hashval) % (capacity + 1), slot, width)
      requires growthLeft > 0 || IsDeleted(ctrl[slot]) ==> slot < capacity
      modifies this, ctrl, slots
      ensures Valid() && Contents == old(Contents) && KeepsOrRenewsArrays()
      ensures target < capacity && IsTarget(Ring(), H1(hashval) % (capacity + 1), target, width)
      ensures IsEmpty(Ring()[target]) ==> growthLeft > 0
      ensures if old(NeedsRoom(slot)) then capacity == old(RoomyCapacity()) && Count(Ring(), Tombstone) == 0
              else target == slot && unchanged(this) && unchanged(ctrl) && unchanged(slots)
    {
      if growthLeft == 0 && !IsDeleted(ctrl[slot]) {
        target := FindRoomAfterGrowth(hashval);
      } else {
        target := slot;
      }
    }

    /**
     Finds the slot for a new element with this hash and accounts for it; the caller then fills slot
     and control byte.
     */
    method PrepareInsert(hashval: nat) returns (target: nat, ghost first: nat)
      requires Valid()
      modifies this, ctrl, slots
      ensures Shaped() && Coherent(Ring(), slots[..], hash, width) && Represents(slots[..], Contents)
      ensures Contents == old(Contents) && KeepsOrRenewsArrays()
      ensures target < capacity && IsTarget(Ring(), H1(hashval) % (capacity + 1), target, width) && slots[target].Raw?
      ensures Accounted(Ring()[target := H2(hashval)], size, growthLeft, width)
      ensures first <= old(capacity) && first < old(ctrl.Length)
      ensures IsTarget(old(Ring()), H1(hashval) % (old(capacity) + 1), first, width)
      ensures if old(NeedsRoom(first)) then capacity == old(RoomyCapacity()) && Count(Ring(), Tombstone) == 0
              else target == first && ctrl == old(ctrl) && slots == old(slots) && capacity == old(capacity)
                   && unchanged(ctrl) && unchanged(slots)
    {
      target, first := FindRoom(hashval);
      ghost var r := Ring();
      PlaceAccounting(r, size, growthLeft, width, target, H2(hashval));
      TargetIsRaw(r, slots[..], hash, width, target);
      TakeSlot(if IsEmpty(ctrl[target]) then 1 else 0);
      assert Ring() == r;
    }

    method TakeSlot(wasEmpty: nat)
      requires wasEmpty <= growthLeft
      modifies `size, `growthLeft
      ensures size == old(size) + 1 && growthLeft == old(growthLeft) - wasEmpty
    {
      size := size + 1;
      growthLeft := growthLeft - wasEmpty;
    }

    /**
     A new element is where its probe first finds room; the rest of the table is as it was, if no
     room had to be made.
     */
    twostate predicate InsertedAt(offset: nat, first: nat, k: K, v: V)
      requires capacity <= ctrl.Length
      requires old(capacity <= ctrl.Length && first < ctrl.Length && IsRing(capacity + 1, width))
      reads this, ctrl, slots
    {
      && offset < capacity && first <= old(capacity) && old(capacity) <= old(slots.Length)
      && IsTarget(old(Ring()), old(Home(hash, k, capacity + 1)), first, width)
      && if old(NeedsRoom(first)) then capacity == old(RoomyCapacity()) && Count(Ring(), Tombstone) == 0
         else offset == first < old(capacity) && capacity == old(capacity) && ctrl == old(ctrl) && slots == old(slots)
              && Ring() == old(Ring())[offset := H2(hash(k))] && offset < old(slots.Length)
              && slots[..] == old(slots[..])[offset := Held(k, v)]
    }

    /** Constructs the element for a key that has none. */
    method InsertNew(k: K, v: V, hashval: nat) returns (offset: nat, ghost first: nat)
      requires Valid() && k !in Contents && hashval == hash(k)
      modifies this, ctrl, slots
      ensures Valid() && KeepsOrRenewsArrays() && Contents == old(Contents)[k := v]
      ensures offset < capacity && slots[offset] == Held(k, v)
      ensures first < old(ctrl.Length) && InsertedAt(offset, first, k, v)
    {
      offset, first := PrepareInsert(hashval);
      FillNew(offset, k, v, hashval);
    }

    /** Fills a slot that has been prepared: the table is whole again. */
    method FillNew(offset: nat, k: K, v: V, hashval: nat)
      requires Shaped() && Coherent(Ring(), slots[..], hash, width) && Represents(slots[..], Contents) && k !in Contents
      requires offset < capacity && slots[offset].Raw? && hashval == hash(k)
      requires IsTarget(Ring(), Home(hash, k, capacity + 1), offset, width)
      requires Accounted(Ring()[offset := H2(hashval)], size, growthLeft, width)
      modifies `Contents, ctrl, slots
      ensures Valid() && Contents == old(Contents)[k := v]
      ensures Ring() == old(Ring())[offset := H2(hashval)]
      ensures slots[..] == old(slots[..])[offset := Held(k, v)]
      ensures Count(old(Ring()), Tombstone) == 0 ==> Count(Ring(), Tombstone) == 0
    {
      CountUpdate(Ring(), offset, H2(hashval), Tombstone);
      Fill(offset, k, v, hashval);
      Contents := Contents[k := v];
    }

    /** Constructs the element, and sets its control byte. */
    method Fill(offset: nat, k: K, v: V, hashval: nat)
      requires Shaped() && Coherent(Ring(), slots[..], hash, width) && Represents(slots[..], Contents) && k !in Contents
      requires offset < capacity && slots[offset].Raw? && hashval == hash(k)
      requires IsTarget(Ring(), Home(hash, k, capacity + 1), offset, width)
      modifies ctrl, slots
      ensures Shaped() && Ring() == old(Ring())[offset := H2(hashval)]
      ensures slots[..] == old(slots[..])[offset := Held(k, v)]
      ensures Coherent(Ring(), slots[..], hash, width) && Represents(slots[..], Contents[k := v])
    {
      RepresentsInsert(slots[..], Contents, offset, k, v);
      PlaceKeepsCoherent(Ring(), slots[..], hash, width, offset, k, v);
      EmplaceAt(offset, k, v);
      SetCtrl(offset, H2(hashval));
    }

    /** Assigns to the element that key k has. */
    method AssignAt(offset: nat, k: K, v: V)
      requires Valid() && HoldsKey(slots[..], offset, k)
      modifies this, slots
      ensures Valid() && ctrl == old(ctrl) && slots == old(slots) && Contents == old(Contents)[k := v]
      ensures slots[..] == old(slots[..])[offset := Held(k, v)]
      ensures size == old(size) && growthLeft == old(growthLeft) && capacity == old(capacity)
    {
      AssignKeepsCoherent(Ring(), slots[..], hash, width, offset, k, v);
      RepresentsAssign(slots[..], Contents, offset, k, v);
      EmplaceAt(offset, k, v);
      Contents := Contents[k := v];
    }

    /** Assigns to the key's element, if it has one, and changes nothing else; else constructs one. */
    method InsertOrAssign(k: K, v: V) returns (offset: nat, inserted: bool, ghost first: nat)
      requires Valid()
      modifies this, ctrl, slots
      ensures Valid() && KeepsOrRenewsArrays()
      ensures Contents == old(Contents)[k := v] && inserted == (k !in old(Contents))
      ensures offset < capacity && slots[offset] == Held(k, v)
      ensures inserted ==> first < old(ctrl.Length) && InsertedAt(offset, first, k, v)
      ensures !inserted ==>
                && ctrl == old(ctrl) && slots == old(slots) && unchanged(ctrl)
                && size == old(size) && growthLeft == old(growthLeft) && capacity == old(capacity)
                && offset < old(slots.Length) && slots[..] == old(slots[..])[offset := Held(k, v)]
    {
      var hashval := hash(k);
      var found;
      found, offset := FindKey(k, hashval);
      inserted, first := !found, 0;
      if found {
        AssignAt(offset, k, v);
      } else {
        offset, first := InsertNew(k, v, hashval);
      }
    }

    method EmplaceAt(i: nat, k: K, v: V)
      requires i < slots.Length
      modifies slots
      ensures slots[..] == old(slots[..])[i := Held(k, v)]
    {
      slots[i] := Held(k, v);
    }

    /** find, with the value of the element found. */
    method Find(k: K) returns (value: Option<V>)
      requires Valid()
      ensures value == if k in Contents then Some(Contents[k]) else None
    {
      var found, offset := FindKey(k, hash(k));
      if found {
        HeldIsContained(slots[..], Contents, offset, k);
        return Some(slots[offset].value);
      }
      return None;
    }

    /** The groups that start and end at slot index. */
    method LoadAround(index: nat) returns (before: seq<Ctrl>, after: seq<Ctrl>)
      requires Shaped() && index < capacity
      ensures IsAround(before, after, Ring(), index, width)
    {
      after := LoadGroup(index);
      before := LoadGroup((index - width) % (capacity + 1));
    }

    /**
     The slot becomes empty if and only if no probe can have passed it: the table is smaller than a
     group, or every window that contains the slot contains another empty one. Else it becomes deleted.
     */
    method EraseMetaOnly(index: nat) returns (wasNeverFull: bool)
      requires Shaped() && index < capacity && IsFull(Ring()[index]) && size > 0
      modifies `size, `growthLeft, ctrl
      ensures Shaped() && Ring() == old(Ring())[index := if wasNeverFull then EMPTY else DELETED]
      ensures wasNeverFull <==> capacity + 1 < width || Covered(old(Ring()), index, width)
      ensures size == old(size) - 1 && growthLeft == old(growthLeft) + (if wasNeverFull then 1 else 0)
    {
      size := size - 1;
      var before, after := LoadAround(index);
      wasNeverFull := WasNeverFull(before, after, width);
      NeverFullExactly(Ring(), before, after, index, width);
      SetCtrl(index, ErasedMark(wasNeverFull));
      growthLeft := growthLeft + (if wasNeverFull then 1 else 0);
    }

    method DestroySlot(index: nat)
      requires index < slots.Length
      modifies slots
      ensures slots[..] == old(slots[..])[index := Raw]
    {
      slots[index] := Raw;
    }

    /** Slot index has been emptied and marked, and the other slots are as they were. */
    twostate predicate ErasedAt(index: nat)
      requires capacity <= ctrl.Length && old(capacity <= ctrl.Length)
      reads this, ctrl, slots
    {
      && old(index < capacity && index < slots.Length)
      && slots[..] == old(slots[..])[index := Raw]
      && var empty := MayBecomeEmpty(old(Ring()), index, width);
         Ring() == old(Ring())[index := if empty then EMPTY else DELETED]
         && size == old(size) - 1 && growthLeft == old(growthLeft) + (if empty then 1 else 0)
    }

    /** Destroys the element of slot index, and accounts for it. */
    method EraseSlot(index: nat)
      requires Shaped() && Coherent(Ring(), slots[..], hash, width) && Accounted(Ring(), size, growthLeft, width)
      requires index < capacity && slots[index].Held?
      modifies `size, `growthLeft, ctrl, slots
      ensures Shaped() && Coherent(Ring(), slots[..], hash, width) && Accounted(Ring(), size, growthLeft, width)
      ensures ErasedAt(index)
    {
      ghost var r, elements, n, left := Ring(), slots[..], size, growthLeft;
      HeldMeansSome(r, elements, hash, width, index, n, left);
      DestroySlot(index);
      var wasNeverFull := EraseMetaOnly(index);
      EraseStep(r, elements, hash, width, index, wasNeverFull, n, left);
    }

    /** Erases the element with key k in slot index. */
    method EraseAt(index: nat, ghost k: K)
      requires Valid() && HoldsKey(slots[..], index, k)
      modifies this, ctrl, slots
      ensures Valid() && Contents == old(Contents) - {k}
      ensures ctrl == old(ctrl) && slots == old(slots) && ErasedAt(index)
    {
      RepresentsErase(slots[..], Contents, index, k);
      EraseSlot(index);
      Contents := Contents - {k};
    }

    /** erase: the slot of the key is emptied and marked, and without such a slot nothing changes. */
    method Erase(k: K) returns (erased: nat, ghost index: nat)
      requires Valid()
      modifies this, ctrl, slots
      ensures Valid() && ctrl == old(ctrl) && slots == old(slots)
      ensures Contents == old(Contents) - {k} && erased == if k in old(Contents) then 1 else 0
      ensures k in old(Contents) ==> old(HoldsKey(slots[..], index, k)) && ErasedAt(index)
      ensures k !in old(Contents) ==> unchanged(this, ctrl, slots)
    {
      var found, offset := FindKey(k, hash(k));
      index := offset;
      if found {
        EraseAt(offset, k);
        return 1, index;
      }
      return 0, index;
    }

    /** Empties the table; one that has no elements already keeps its deleted marks. */
    method Clear()
      requires Valid()
      modifies this, ctrl, slots
      ensures Valid() && Contents == map[] && size == 0 && capacity == old(capacity) && ctrl == old(ctrl)
      ensures slots == old(slots)
      ensures if old(size) == 0 then Ring() == old(Ring()) && growthLeft == old(growthLeft)
              else Count(Ring(), Tombstone) == 0 && growthLeft == CapacityToGrowth(capacity, width)
    {
      if size == 0 {
        NoElementsNoEntries(Ring(), slots[..], hash, width, Contents);
        return;
      }
      forall i | 0 <= i < capacity {
        slots[i] := Raw;
      }
      size := 0;
      Contents := map[];
      ResetCtrl();
      FreshIsCoherent(Ring(), slots[..], hash, width);
      growthLeft := CapacityToGrowth(capacity, width) - size;
    }
  }
}

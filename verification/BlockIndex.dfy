/**
 The circular block index of ImplicitProducer: positions of the ring, the signed
 64-bit lookup, growth by rotation, and what it means for a header to cover a
 block.
 */
module BlockIndexes {
  import opened Options
  import Tickets
  import ProbeSequence

  const BLOCK_SIZE: nat := 32
  const INVALID_BLOCK_BASE: nat := 1
  const INITIAL_CAPACITY: nat := 32
  const MAX_CAPACITY: nat := 0x400_0000_0000_0000  // 2^58 entries: more than memory can hold

  type Tid = nat
  type Block = nat
  type Entry = nat

  datatype IndexEntry = IndexEntry(key: nat, value: Option<Block>)

  /** `last` is history: the number of the block whose entry is at `tail`. */
  datatype Header = Header(index: seq<Entry>, tail: nat, last: int)

  // ------------------------------------------------------------------------ positions

  /** (at + 1) & (cap - 1) */
  function Forward(at: nat, cap: nat): (r: nat)
    requires at < cap
    ensures r < cap
  {
    if at + 1 == cap then 0 else at + 1
  }

  /** (at - d) & (cap - 1) */
  function Back(at: nat, d: nat, cap: nat): (r: nat)
    requires at < cap && d < cap
    ensures r < cap
  {
    if d <= at then at - d else at - d + cap
  }

  /** A 64-bit word read as a signed integer. */
  function Signed(w: nat): int {
    if w < Tickets.HALF then w else w - Tickets.WRAP
  }

  /** Division that truncates toward zero. */
  function Truncated(a: int, b: nat): int
    requires b > 0
  {
    if a >= 0 then a / b else -((-a) / b)
  }

  /** The position at which a consumer of `index` looks, from the tail it has read and the key found there. */
  function LookupSlot(index: nat, tail: nat, tailBase: nat, cap: nat): (r: nat)
    requires cap > 0
    ensures r < cap
  {
    var offset := Truncated(Signed(Tickets.Wrap(index - index % BLOCK_SIZE - tailBase)), BLOCK_SIZE);
    Tickets.Wrap(tail + Tickets.Wrap(offset)) % cap
  }

  ghost predicate IsCapacity(cap: nat) {
    INITIAL_CAPACITY <= cap <= MAX_CAPACITY && ProbeSequence.IsPow2(cap)
  }

  lemma {:induction false} Pow2Product(a: nat, b: nat)
    requires ProbeSequence.IsPow2(a) && ProbeSequence.IsPow2(b)
    ensures ProbeSequence.IsPow2(a * b)
    decreases a
  {
    if a > 1 {
      Pow2Product(a / 2, b);
      assert a * b == 2 * (a / 2 * b);
    }
  }

  lemma WrapSize()
    ensures ProbeSequence.IsPow2(Tickets.WRAP)
  {
    assert ProbeSequence.IsPow2(0x100);
    Pow2Product(0x100, 0x100);
    Pow2Product(0x1_0000, 0x1_0000);
    Pow2Product(0x1_0000_0000, 0x1_0000_0000);
  }

  lemma ModOnce(x: int, k: int, cap: nat, r: nat)
    requires r < cap && x == k * cap + r
    ensures x % cap == r
  {
    ProbeSequence.DivModUnique(x, cap, k, r);
  }

  /** Going round the 64-bit circle does not change a position, because the capacity divides 2^64. */
  lemma WrapThenMod(x: int, cap: nat)
    requires IsCapacity(cap) && 0 - cap < x < 2 * cap
    ensures Tickets.Wrap(x) % cap == if x < 0 then x + cap else if x < cap then x else x - cap
  {
    WrapSize();
    ProbeSequence.Pow2Divides(Tickets.WRAP, cap);
    var q := Tickets.WRAP / cap;
    if x < 0 {
      assert Tickets.Wrap(x) == x + Tickets.WRAP;
      assert x + Tickets.WRAP == (q - 1) * cap + (x + cap);
      ModOnce(x + Tickets.WRAP, q - 1, cap, x + cap);
    } else if x < cap {
      ModOnce(x, 0, cap, x);
    } else {
      ModOnce(x, 1, cap, x - cap);
    }
  }

  lemma WrapWrap(tail: nat, off: int)
    ensures Tickets.Wrap(tail + Tickets.Wrap(off)) == Tickets.Wrap(tail + off)
  {
    var w := Tickets.WRAP;
    assert tail + Tickets.Wrap(off) == (tail + off) + w * (-(off / w));
    ProbeSequence.DivModUnique(tail + off, w, (tail + off) / w, (tail + off) % w);
    ProbeSequence.DivModUnique(tail + Tickets.Wrap(off), w, (tail + off) / w - off / w, (tail + off) % w);
  }

  /** An index whose block lies d blocks before the tail's, d less than the capacity, is looked up d positions back. */
  lemma LookupGoesBack(index: nat, tail: nat, d: nat, cap: nat)
    requires IsCapacity(cap) && tail < cap && d < cap
    ensures LookupSlot(index, tail, index - index % BLOCK_SIZE + BLOCK_SIZE * d, cap) == Back(tail, d, cap)
  {
    var diff := 0 - BLOCK_SIZE * d;
    assert 0 - Tickets.HALF < diff <= 0;
    assert Signed(Tickets.Wrap(diff)) == diff;
    assert Truncated(diff, BLOCK_SIZE) == 0 - d;
    WrapWrap(tail, 0 - d);
    WrapThenMod(tail - d, cap);
  }

  // --------------------------------------------------------------------------- growth

  /** The entries of a ring in order, oldest first, the one at `tail` last. */
  function Rotated(index: seq<Entry>, tail: nat): (r: seq<Entry>)
    requires tail < |index|
    ensures |r| == |index|
    ensures forall j | 0 <= j < |index| ::
              r[j] == index[if tail + 1 + j < |index| then tail + 1 + j else tail + 1 + j - |index|]
    ensures forall d | 0 <= d < |index| :: r[|index| - 1 - d] == index[Back(tail, d, |index|)]
  {
    index[tail + 1..] + index[..tail + 1]
  }

  /** The copying loops of new_block_index: the old entries in order, then the new ones. */
  method GrownIndex(prev: array<Entry>, prevTail: nat, entries: seq<Entry>) returns (index: array<Entry>)
    requires prevTail < prev.Length && |entries| == prev.Length
    ensures fresh(index) && index[..] == Rotated(prev[..], prevTail) + entries
  {
    var prevCapacity := prev.Length;
    index := new Entry[2 * prevCapacity];
    var prevPos := Forward(prevTail, prevCapacity);
    index[0] := prev[prevPos];
    var i := 1;
    while prevPos != prevTail
      invariant 1 <= i <= prevCapacity && prevPos == Back(prevTail, prevCapacity - i, prevCapacity)
      invariant forall j | 0 <= j < i :: index[j] == Rotated(prev[..], prevTail)[j]
      decreases prevCapacity - i
    {
      prevPos := Forward(prevPos, prevCapacity);
      index[i] := prev[prevPos];
      i := i + 1;
    }
    assert i == prevCapacity;
    for k := 0 to prevCapacity
      invariant forall j | 0 <= j < prevCapacity :: index[j] == Rotated(prev[..], prevTail)[j]
      invariant forall j | 0 <= j < k :: index[prevCapacity + j] == entries[j]
    {
      index[prevCapacity + k] := entries[k];
    }
    assert index[..] == Rotated(prev[..], prevTail) + entries;
  }

  // ------------------------------------------------------------------ blocks and stages

  /** The life of a block in the producer (history). */
  datatype Stage =
    | Live                 // some element has not been consumed
    | Drained(closer: Tid)     // `closer` consumed the last element and will clear the index entry
    | Cleared(closer: Tid)     // `closer` has cleared the entry and will release the block
    | Released

  predicate Uncleared(st: Stage) {
    st.Live? || st.Drained?
  }

  /** Block k still needs its index entry: it is not cleared yet, or it is the block being created. */
  predicate Protected(stage: seq<Stage>, k: int) {
    0 <= k <= |stage| && (k < |stage| ==> Uncleared(stage[k]))
  }

  /** Block j, counted back from block `last` at position `at`, is where it should be. */
  predicate IsAt(index: seq<Entry>, ent: seq<Entry>, at: nat, last: int, j: int)
    requires at < |index|
  {
    0 <= j < |ent| && last - j < |index| && (j <= last ==> index[Back(at, last - j, |index|)] == ent[j])
  }

  /**
   Seen from position `at`, which belongs to block `last`, the ring holds the entries of
   all blocks from any protected block on.
   */
  ghost predicate Covers(stage: seq<Stage>, ent: seq<Entry>, index: seq<Entry>, at: nat, last: int) {
    && at < |index| && last < |ent|
    && forall k, j | Protected(stage, k) && k <= j <= last :: IsAt(index, ent, at, last, j)
  }

  /** The entries of all blocks from any protected block on carry their own block's base as the key. */
  ghost predicate KeysOk(stage: seq<Stage>, ent: seq<Entry>, entries: seq<IndexEntry>) {
    && (forall j | 0 <= j < |ent| :: ent[j] < |entries|)
    && forall k, j | Protected(stage, k) && k <= j < |ent| :: entries[ent[j]].key == BLOCK_SIZE * j
  }

  /** The entry of every uncleared block points to the block. */
  ghost predicate ValuesOk(stage: seq<Stage>, ent: seq<Entry>, blk: seq<Block>, entries: seq<IndexEntry>) {
    && |stage| == |blk| <= |ent|
    && forall k | 0 <= k < |stage| && Uncleared(stage[k]) :: ent[k] < |entries| && entries[ent[k]].value == Some(blk[k])
  }

  ghost predicate IsRing(index: seq<Entry>, n: nat) {
    && IsCapacity(|index|)
    && (forall i | 0 <= i < |index| :: index[i] < n)
    && (forall i, j | 0 <= i < j < |index| :: index[i] != index[j])
  }

  /** The entry e belongs to no block from any protected block on. */
  ghost predicate NotUsed(stage: seq<Stage>, ent: seq<Entry>, e: Entry) {
    forall k, j | Protected(stage, k) && k <= j < |ent| && j < |stage| :: ent[j] != e
  }

  /** Stages only advance: fewer blocks are protected. */
  ghost predicate Advances(stage: seq<Stage>, stage': seq<Stage>) {
    |stage'| == |stage| && forall k | 0 <= k < |stage| && Uncleared(stage'[k]) :: Uncleared(stage[k])
  }

  lemma AdvanceKeepsCovers(stage: seq<Stage>, stage': seq<Stage>, ent: seq<Entry>, index: seq<Entry>, at: nat,
                           last: int)
    requires Advances(stage, stage') && Covers(stage, ent, index, at, last)
    ensures Covers(stage', ent, index, at, last)
  {
    forall k, j | Protected(stage', k) && k <= j <= last ensures IsAt(index, ent, at, last, j) {
      assert Protected(stage, k);
    }
  }

  lemma AdvanceKeepsKeys(stage: seq<Stage>, stage': seq<Stage>, ent: seq<Entry>, entries: seq<IndexEntry>)
    requires Advances(stage, stage') && KeysOk(stage, ent, entries)
    ensures KeysOk(stage', ent, entries)
  {
    forall k, j | Protected(stage', k) && k <= j < |ent| ensures entries[ent[j]].key == BLOCK_SIZE * j {
      assert Protected(stage, k);
    }
  }

  /** A new live block is registered. */
  lemma NewBlockKeepsCovers(stage: seq<Stage>, ent: seq<Entry>, index: seq<Entry>, at: nat, last: int)
    requires Covers(stage, ent, index, at, last) && last <= |stage|
    ensures Covers(stage + [Live], ent, index, at, last)
  {
    forall k, j | Protected(stage + [Live], k) && k <= j <= last ensures IsAt(index, ent, at, last, j) {
      assert Protected(stage, k);
    }
  }

  lemma NewBlockKeepsKeys(stage: seq<Stage>, ent: seq<Entry>, entries: seq<IndexEntry>)
    requires KeysOk(stage, ent, entries) && |ent| == |stage| + 1
    ensures KeysOk(stage + [Live], ent, entries)
  {
    forall k, j | Protected(stage + [Live], k) && k <= j < |ent| ensures entries[ent[j]].key == BLOCK_SIZE * j {
      assert Protected(stage, k);
    }
  }

  /** One more entry at the end of the history moves nothing. */
  lemma LongerHistoryKeepsCovers(stage: seq<Stage>, ent: seq<Entry>, e: Entry, index: seq<Entry>, at: nat, last: int)
    requires Covers(stage, ent, index, at, last)
    ensures Covers(stage, ent + [e], index, at, last)
  {
    forall k, j | Protected(stage, k) && k <= j <= last ensures IsAt(index, ent + [e], at, last, j) {
      assert IsAt(index, ent, at, last, j);
    }
  }

  /** Entries of blocks from a protected block on are distinct: their keys are. */
  lemma EntriesDiffer(stage: seq<Stage>, ent: seq<Entry>, entries: seq<IndexEntry>, k: int, i: int, j: int)
    requires KeysOk(stage, ent, entries) && Protected(stage, k) && k <= i < j < |ent|
    ensures ent[i] != ent[j]
  {
    assert entries[ent[i]].key == BLOCK_SIZE * i && entries[ent[j]].key == BLOCK_SIZE * j;
  }

  /**
   An entry with an invalid key or no value at the position after the tail is nobody's:
   the ring order is the order of reuse, so the only protected block it could belong to
   is one whose entry is still in use.
   */
  lemma FreeEntryIsNotUsed(stage: seq<Stage>, ent: seq<Entry>, blk: seq<Block>, entries: seq<IndexEntry>,
                           index: seq<Entry>, at: nat)
    requires KeysOk(stage, ent, entries) && ValuesOk(stage, ent, blk, entries) && IsRing(index, |entries|)
    requires Covers(stage, ent, index, at, |stage| - 1)
    requires var e := entries[index[Forward(at, |index|)]]; e.key == INVALID_BLOCK_BASE || e.value.None?
    ensures NotUsed(stage, ent, index[Forward(at, |index|)])
    ensures forall k | Protected(stage, k) :: |stage| - k < |index|
  {
    var p := Forward(at, |index|);
    var last := |stage| - 1;
    forall k, j | Protected(stage, k) && k <= j <= last ensures ent[j] != index[p] && last - j + 1 < |index| {
      assert IsAt(index, ent, at, last, j) && IsAt(index, ent, at, last, k);
      assert entries[ent[k]].key == BLOCK_SIZE * k && entries[ent[j]].key == BLOCK_SIZE * j;
      assert entries[ent[k]].value == Some(blk[k]);
      assert index[p] != ent[k];
      assert Back(at, last - k, |index|) != p;
      assert Back(at, last - j, |index|) != p;
    }
    forall k | Protected(stage, k) ensures |stage| - k < |index| {
      if k <= last {
        assert last - k + 1 < |index|;
      }
    }
  }

  /** Moving the tail one position on, to the entry of the block being created. */
  lemma ForwardKeepsCovers(stage: seq<Stage>, ent: seq<Entry>, index: seq<Entry>, at: nat)
    requires |ent| == |stage| + 1 && |index| > 1 && Covers(stage, ent, index, at, |stage| - 1)
    requires forall k | Protected(stage, k) :: |stage| - k < |index|
    requires ent[|stage|] == index[Forward(at, |index|)]
    ensures Covers(stage, ent, index, Forward(at, |index|), |stage|)
  {
    var last := |stage|;
    forall k, j | Protected(stage, k) && k <= j <= last ensures IsAt(index, ent, Forward(at, |index|), last, j) {
      if j < last {
        assert IsAt(index, ent, at, last - 1, j);
      }
    }
  }

  /** ... and back again, when no block could be had. */
  lemma BackKeepsCovers(stage: seq<Stage>, ent: seq<Entry>, index: seq<Entry>, at: nat)
    requires |ent| == |stage| + 1 && |index| > 1 && Covers(stage, ent, index, at, |stage|)
    ensures Covers(stage, ent, index, Back(at, 1, |index|), |stage| - 1)
    ensures index[at] == ent[|stage|] && Forward(Back(at, 1, |index|), |index|) == at
    ensures forall k | Protected(stage, k) :: |stage| - k < |index|
  {
    var last := |stage|;
    assert Protected(stage, last) && IsAt(index, ent, at, last, last);
    var before, previous := Back(at, 1, |index|), last - 1;
    forall k, j | Protected(stage, k) && k <= j <= previous ensures IsAt(index, ent, before, previous, j) {
      assert IsAt(index, ent, at, last, j);
    }
    forall k | Protected(stage, k) ensures |stage| - k < |index| {
      assert IsAt(index, ent, at, last, k);
    }
  }

  /** The index after growth covers what it covered before, from its new tail. */
  lemma GrowthKeepsCovers(stage: seq<Stage>, ent: seq<Entry>, index: seq<Entry>, at: nat, last: int, more: seq<Entry>)
    requires Covers(stage, ent, index, at, last) && |more| == |index|
    ensures Covers(stage, ent, Rotated(index, at) + more, |index| - 1, last)
    ensures Forward(|index| - 1, 2 * |index|) == |index|
  {
    var index', end := Rotated(index, at) + more, |index| - 1;
    forall k, j | Protected(stage, k) && k <= j <= last ensures IsAt(index', ent, end, last, j) {
      assert IsAt(index, ent, at, last, j);
    }
  }

  lemma GrowthKeepsRing(index: seq<Entry>, at: nat, n: nat, more: seq<Entry>)
    requires IsRing(index, n) && at < |index| && 2 * |index| <= MAX_CAPACITY
    requires |more| == |index| && forall i | 0 <= i < |more| :: more[i] == n + i
    ensures IsRing(Rotated(index, at) + more, n + |index|)
  {
    var index' := Rotated(index, at) + more;
    forall i, j | 0 <= i < j < |index'| ensures index'[i] != index'[j] {
    }
    assert ProbeSequence.IsPow2(2 * |index|);
  }

  /** The lookup finds the entry of the block that holds `i`. */
  lemma LookupFinds(stage: seq<Stage>, ent: seq<Entry>, entries: seq<IndexEntry>, index: seq<Entry>, at: nat,
                    last: int, i: nat)
    requires Covers(stage, ent, index, at, last) && KeysOk(stage, ent, entries) && IsRing(index, |entries|)
    requires Protected(stage, i / BLOCK_SIZE) && i / BLOCK_SIZE <= last
    ensures index[at] < |entries|
    ensures index[LookupSlot(i, at, entries[index[at]].key, |index|)] == ent[i / BLOCK_SIZE]
  {
    var k := i / BLOCK_SIZE;
    assert IsAt(index, ent, at, last, k) && IsAt(index, ent, at, last, last);
    assert Back(at, 0, |index|) == at;
    assert entries[ent[last]].key == BLOCK_SIZE * last;
    LookupGoesBack(i, at, last - k, |index|);
  }
}

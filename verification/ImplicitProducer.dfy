/**
 One implicit producer: the elements it has enqueued, the blocks that hold them,
 the block index, the producing thread and any number of consuming threads, one
 atomic access per step. A consumer enters here with an index it has claimed
 (module Tickets); `tailIndex` is the length of `log`, `headIndex` that of `fin`.

 `mem` holds the blocks outside the pool. A block that is released leaves `mem`,
 so that a step that touched it afterwards would not be defined.
 */
module ImplicitProducers {
  import opened Options
  import opened BlockIndexes
  import Tickets

  datatype Memory<T> = Memory(counter: nat, cells: seq<Option<T>>)

  datatype Producer<T> =
    | Resting
    | CheckFull(x: T)
    | ProbeKey(x: T)                              // is the next index entry unused ...
    | ProbeValue(x: T)                            // ... or empty?
    | Grow(x: T)
    | SetKey(x: T, e: Entry)
    | SetTail(x: T, e: Entry)
    | GetBlock(x: T, e: Entry)
    | Rewind(e: Entry)                            // no block could be had
    | ClearValue(e: Entry)
    | ResetCounter(x: T, e: Entry, b: Block)
    | SetValue(x: T, e: Entry, b: Block)
    | Write(x: T)
    | Publish(x: T)

  /** `i` is the index claimed. */
  datatype Consumer<T> =
    | Away                                        // not in dequeue, or before its claim
    | LoadIndex(i: nat)
    | LoadTail(i: nat, h: nat)
    | LoadKey(i: nat, h: nat, at: nat, last: int) // `last` is history: the block at position `at` when it was read
    | LoadValue(i: nat, e: Entry)
    | Read(i: nat, e: Entry, b: Block)
    | Count(i: nat, e: Entry, b: Block, x: T)
    | Clear(i: nat, e: Entry, b: Block, x: T)
    | Release(i: nat, b: Block, x: T)
    | Done(i: nat, x: T)

  /** log, fin, owner, delivered, ent, blk and stage are history, apart from the lengths of the first two. */
  datatype Store<T> = Store(
    mem: map<Block, Memory<T>>, headers: seq<Header>, entries: seq<IndexEntry>,
    producer: Producer<T>, tailBlock: Block, consumers: map<Tid, Consumer<T>>,
    log: seq<T>, fin: seq<bool>, owner: seq<Tid>, delivered: map<nat, T>,
    ent: seq<Entry>, blk: seq<Block>, stage: seq<Stage>)

  // ------------------------------------------------------------------ the producing thread

  function Current<T>(s: Store<T>): Header
    requires |s.headers| > 0
  {
    s.headers[|s.headers| - 1]
  }

  function WithCurrent<T>(s: Store<T>, h: Header): Store<T>
    requires |s.headers| > 0
  {
    s.(headers := s.headers[|s.headers| - 1 := h])
  }

  function NextEntry(h: Header): Entry
    requires h.tail < |h.index|
  {
    h.index[Forward(h.tail, |h.index|)]
  }

  /** enqueue is called with x. */
  function Begin<T>(s: Store<T>, x: T): Store<T> {
    s.(producer := if |s.log| % BLOCK_SIZE == 0 then CheckFull(x) else Write(x))
  }

  predicate ProducerDefined<T>(s: Store<T>) {
    match s.producer
    case ProbeKey(_) | ProbeValue(_) => |s.headers| > 0 && Current(s).tail < |Current(s).index|
      && NextEntry(Current(s)) < |s.entries|
    case SetKey(_, e) => e < |s.entries|
    case ClearValue(e) => e < |s.entries|
    case SetTail(_, _) | Rewind(_) => |s.headers| > 0 && 1 < |Current(s).index| && Current(s).tail < |Current(s).index|
    case ResetCounter(_, _, b) => b in s.mem
    case SetValue(_, e, b) => e < |s.entries|
    case Write(_) => s.tailBlock in s.mem && |s.mem[s.tailBlock].cells| == BLOCK_SIZE
    case _ => true
  }

  function AfterSetKey<T>(s: Store<T>): Store<T>
    requires s.producer.SetKey? && s.producer.e < |s.entries|
  {
    var e := s.producer.e;
    s.(entries := s.entries[e := s.entries[e].(key := |s.log|)], producer := SetTail(s.producer.x, e),
       ent := if |s.ent| == |s.blk| then s.ent + [e] else s.ent)
  }

  function AfterSetTail<T>(s: Store<T>): Store<T>
    requires s.producer.SetTail? && |s.headers| > 0 && Current(s).tail < |Current(s).index|
  {
    var h := Current(s);
    WithCurrent(s, h.(tail := Forward(h.tail, |h.index|), last := h.last + 1))
    .(producer := GetBlock(s.producer.x, s.producer.e))
  }

  function AfterRewind<T>(s: Store<T>): Store<T>
    requires s.producer.Rewind? && |s.headers| > 0 && 1 < |Current(s).index| && Current(s).tail < |Current(s).index|
  {
    var h := Current(s);
    WithCurrent(s, h.(tail := Back(h.tail, 1, |h.index|), last := h.last - 1)).(producer := ClearValue(s.producer.e))
  }

  function AfterClearValue<T>(s: Store<T>): Store<T>
    requires s.producer.ClearValue? && s.producer.e < |s.entries|
  {
    s.(entries := s.entries[s.producer.e := s.entries[s.producer.e].(value := None)], producer := Resting)
  }

  function AfterReset<T>(s: Store<T>): Store<T>
    requires s.producer.ResetCounter? && s.producer.b in s.mem
  {
    var b := s.producer.b;
    s.(mem := s.mem[b := s.mem[b].(counter := 0)], producer := SetValue(s.producer.x, s.producer.e, b))
  }

  function AfterSetValue<T>(s: Store<T>): Store<T>
    requires s.producer.SetValue? && s.producer.e < |s.entries|
  {
    var e, b := s.producer.e, s.producer.b;
    s.(entries := s.entries[e := s.entries[e].(value := Some(b))], tailBlock := b, producer := Write(s.producer.x),
       blk := s.blk + [b], stage := s.stage + [Live])
  }

  function AfterWrite<T>(s: Store<T>): Store<T>
    requires s.producer.Write? && s.tailBlock in s.mem && |s.mem[s.tailBlock].cells| == BLOCK_SIZE
  {
    var m := s.mem[s.tailBlock];
    s.(mem := s.mem[s.tailBlock := m.(cells := m.cells[|s.log| % BLOCK_SIZE := Some(s.producer.x)])],
      producer := Publish(s.producer.x))
  }

  function AfterPublish<T>(s: Store<T>): Store<T>
    requires s.producer.Publish?
  {
    s.(log := s.log + [s.producer.x], producer := Resting)
  }

  /** The accesses of the producing thread that leave no choice. */
  function Produce<T>(s: Store<T>): Store<T>
    requires ProducerDefined(s)
  {
    match s.producer
    case CheckFull(x) =>
      s.(producer := if Tickets.CircularLess(Tickets.Wrap(|s.fin|), Tickets.Wrap(|s.log| + BLOCK_SIZE))
        then ProbeKey(x) else Resting)
    case ProbeKey(x) =>
      var e := NextEntry(Current(s));
      s.(producer := if s.entries[e].key == INVALID_BLOCK_BASE then SetKey(x, e) else ProbeValue(x))
    case ProbeValue(x) =>
      var e := NextEntry(Current(s));
      s.(producer := if s.entries[e].value.None? then SetKey(x, e) else Grow(x))
    case SetKey(_, _) => AfterSetKey(s)
    case SetTail(_, _) => AfterSetTail(s)
    case Rewind(_) => AfterRewind(s)
    case ClearValue(_) => AfterClearValue(s)
    case ResetCounter(_, _, _) => AfterReset(s)
    case SetValue(_, _, _) => AfterSetValue(s)
    case Write(_) => AfterWrite(s)
    case Publish(_) => AfterPublish(s)
    case _ => s
  }

  /** new_block_index: twice the entries, the values of the new ones uninitialised. */
  function Grown<T>(s: Store<T>, values: seq<Option<Block>>): Store<T>
    requires s.producer.Grow? && |s.headers| > 0 && Current(s).tail < |Current(s).index|
  {
    var h, n := Current(s), |s.entries|;
    var more := seq(|h.index|, i => n + i);
    s.(headers := s.headers + [Header(Rotated(h.index, h.tail) + more, |h.index| - 1, h.last)],
       entries := s.entries + seq(|values|, i requires 0 <= i < |values| => IndexEntry(INVALID_BLOCK_BASE, values[i])),
       producer := SetKey(s.producer.x, n))
  }

  ghost predicate GrowStep<T>(s: Store<T>, s': Store<T>) {
    && s.producer.Grow?
    && (s' == s.(producer := Resting)
        || (&& |s.headers| > 0 && Current(s).tail < |Current(s).index| && 2 * |Current(s).index| <= MAX_CAPACITY
            && exists values :: |values| == |Current(s).index| && s' == Grown(s, values)))
  }

  /** requisition_block: any block that is in the pool or new, with any contents. */
  function WithBlock<T>(s: Store<T>, b: Block, m: Memory<T>): Store<T>
    requires s.producer.GetBlock?
  {
    s.(mem := s.mem[b := m], producer := ResetCounter(s.producer.x, s.producer.e, b))
  }

  ghost predicate GetBlockStep<T(!new)>(s: Store<T>, s': Store<T>) {
    && s.producer.GetBlock?
    && (s' == s.(producer := Rewind(s.producer.e))
        || exists b, m: Memory<T> :: b !in s.mem && |m.cells| == BLOCK_SIZE && s' == WithBlock(s, b, m))
  }

  // ----------------------------------------------------------------- the consuming threads

  predicate Holding<T>(pc: Consumer<T>) {
    pc.LoadIndex? || pc.LoadTail? || pc.LoadKey? || pc.LoadValue? || pc.Read? || pc.Count?
  }

  function Goto<T>(s: Store<T>, t: Tid, pc: Consumer<T>): Store<T> {
    s.(consumers := s.consumers[t := pc])
  }

  /** Consumer t claims the next index. */
  function Claim<T>(s: Store<T>, t: Tid): Store<T> {
    Goto(s, t, LoadIndex(|s.fin|)).(fin := s.fin + [false], owner := s.owner + [t])
  }

  /** The access consumer t is about to make touches only blocks outside the pool, entries and cells that are there. */
  predicate Defined<T>(s: Store<T>, t: Tid)
    requires t in s.consumers
  {
    match s.consumers[t]
    case LoadIndex(_) => |s.headers| > 0
    case LoadTail(_, h) => h < |s.headers|
    case LoadKey(_, h, at, _) =>
      h < |s.headers| && at < |s.headers[h].index| && s.headers[h].index[at] < |s.entries|
    case LoadValue(_, e) => e < |s.entries| && s.entries[e].value.Some?
    case Read(i, _, b) => b in s.mem && |s.mem[b].cells| == BLOCK_SIZE && s.mem[b].cells[i % BLOCK_SIZE].Some?
    case Count(i, _, b, _) => b in s.mem && i < |s.fin| && i / BLOCK_SIZE < |s.stage|
    case Clear(i, e, _, _) => e < |s.entries| && i / BLOCK_SIZE < |s.stage|
    case Release(i, b, _) => b in s.mem && i / BLOCK_SIZE < |s.stage|
    case _ => true
  }

  function AfterRead<T>(s: Store<T>, t: Tid): Store<T>
    requires t in s.consumers && s.consumers[t].Read? && Defined(s, t)
  {
    var Read(i, e, b) := s.consumers[t];
    var m := s.mem[b];
    var x := m.cells[i % BLOCK_SIZE].value;
    Goto(s, t, Count(i, e, b, x)).(mem := s.mem[b := m.(cells := m.cells[i % BLOCK_SIZE := None])],
      delivered := s.delivered[i := x])
  }

  function AfterCount<T>(s: Store<T>, t: Tid): Store<T>
    requires t in s.consumers && s.consumers[t].Count? && Defined(s, t)
  {
    var Count(i, e, b, x) := s.consumers[t];
    var m := s.mem[b];
    var s' := s.(mem := s.mem[b := m.(counter := m.counter + 1)], fin := s.fin[i := true]);
    if m.counter == BLOCK_SIZE - 1
    then Goto(s', t, Clear(i, e, b, x)).(stage := s.stage[i / BLOCK_SIZE := Drained(t)])
    else Goto(s', t, Done(i, x))
  }

  function AfterClear<T>(s: Store<T>, t: Tid): Store<T>
    requires t in s.consumers && s.consumers[t].Clear? && Defined(s, t)
  {
    var Clear(i, e, b, x) := s.consumers[t];
    Goto(s, t, Release(i, b, x)).(entries := s.entries[e := s.entries[e].(value := None)],
                                  stage := s.stage[i / BLOCK_SIZE := Cleared(t)])
  }

  function AfterRelease<T>(s: Store<T>, t: Tid): Store<T>
    requires t in s.consumers && s.consumers[t].Release? && Defined(s, t)
  {
    var Release(i, b, x) := s.consumers[t];
    Goto(s, t, Done(i, x)).(mem := s.mem - {b}, stage := s.stage[i / BLOCK_SIZE := Released])
  }

  function Consume<T>(s: Store<T>, t: Tid): Store<T>
    requires t in s.consumers && Defined(s, t)
  {
    match s.consumers[t]
    case LoadIndex(i) => Goto(s, t, LoadTail(i, |s.headers| - 1))
    case LoadTail(i, h) => Goto(s, t, LoadKey(i, h, s.headers[h].tail, s.headers[h].last))
    case LoadKey(i, h, at, _) =>
      var index := s.headers[h].index;
      Goto(s, t, LoadValue(i, index[LookupSlot(i, at, s.entries[index[at]].key, |index|)]))
    case LoadValue(i, e) => Goto(s, t, Read(i, e, s.entries[e].value.value))
    case Read(_, _, _) => AfterRead(s, t)
    case Count(_, _, _, _) => AfterCount(s, t)
    case Clear(_, _, _, _) => AfterClear(s, t)
    case Release(_, _, _) => AfterRelease(s, t)
    case _ => s
  }

  // ------------------------------------------------------------------------------- counting

  /** The number of finished elements among those from lo up to hi. */
  function FinishedIn(fin: seq<bool>, lo: nat, hi: nat): nat
    decreases hi
  {
    if hi <= lo then 0 else FinishedIn(fin, lo, hi - 1) + (if hi <= |fin| && fin[hi - 1] then 1 else 0)
  }

  function Finished(fin: seq<bool>, k: nat): nat {
    FinishedIn(fin, BLOCK_SIZE * k, BLOCK_SIZE * k + BLOCK_SIZE)
  }

  lemma {:induction false} FinishedInBound(fin: seq<bool>, lo: nat, hi: nat)
    requires lo <= hi
    ensures FinishedIn(fin, lo, hi) <= hi - lo
    ensures FinishedIn(fin, lo, hi) == hi - lo <==>
            (lo == hi || hi <= |fin|) && forall i | lo <= i < hi && i < |fin| :: fin[i]
    decreases hi
  {
    if lo < hi {
      FinishedInBound(fin, lo, hi - 1);
    }
  }

  /** A block's count is full exactly when all its elements have been claimed and finished. */
  lemma FinishedBound(fin: seq<bool>, k: nat)
    ensures Finished(fin, k) <= BLOCK_SIZE
    ensures Finished(fin, k) == BLOCK_SIZE <==>
              && BLOCK_SIZE * k + BLOCK_SIZE <= |fin|
              && forall i | BLOCK_SIZE * k <= i < BLOCK_SIZE * k + BLOCK_SIZE && i < |fin| :: fin[i]
  {
    FinishedInBound(fin, BLOCK_SIZE * k, BLOCK_SIZE * k + BLOCK_SIZE);
  }

  lemma {:induction false} FinishOneIn(fin: seq<bool>, i: nat, lo: nat, hi: nat)
    requires i < |fin| && !fin[i]
    ensures FinishedIn(fin[i := true], lo, hi) == FinishedIn(fin, lo, hi) + (if lo <= i < hi then 1 else 0)
    decreases hi
  {
    if lo < hi {
      FinishOneIn(fin, i, lo, hi - 1);
    }
  }

  lemma FinishOne(fin: seq<bool>, i: nat, k: nat)
    requires i < |fin| && !fin[i]
    ensures Finished(fin[i := true], k) == Finished(fin, k) + (if k == i / BLOCK_SIZE then 1 else 0)
  {
    FinishOneIn(fin, i, BLOCK_SIZE * k, BLOCK_SIZE * k + BLOCK_SIZE);
  }

  lemma {:induction false} FinishedAppend(fin: seq<bool>, lo: nat, hi: nat)
    ensures FinishedIn(fin + [false], lo, hi) == FinishedIn(fin, lo, hi)
    decreases hi
  {
    if lo < hi {
      FinishedAppend(fin, lo, hi - 1);
    }
  }

  lemma {:induction false} NothingFinishedIn(fin: seq<bool>, lo: nat, hi: nat)
    requires |fin| <= lo
    ensures FinishedIn(fin, lo, hi) == 0
    decreases hi
  {
    if lo < hi {
      NothingFinishedIn(fin, lo, hi - 1);
    }
  }

  // ------------------------------------------------------------------------------ invariant

  ghost predicate Lengths<T>(s: Store<T>) {
    && |s.stage| == |s.blk| <= |s.ent| <= |s.blk| + 1
    && |s.owner| == |s.fin| <= |s.log| <= BLOCK_SIZE * |s.blk|
    && |s.headers| > 0
    && (|s.blk| > 0 ==> s.tailBlock == s.blk[|s.blk| - 1])
  }

  /** Where the tail is in the last block, depending on what the producer is doing. */
  predicate Position<T>(p: Producer<T>, tail: nat, blocks: nat) {
    match p
    case Resting => tail <= BLOCK_SIZE * blocks < tail + BLOCK_SIZE
    case Write(_) | Publish(_) => tail < BLOCK_SIZE * blocks <= tail + BLOCK_SIZE
    case _ => tail == BLOCK_SIZE * blocks
  }

  /** Blocks in use are in memory, distinct, and their counters count the elements consumed. */
  ghost predicate BlocksOk<T>(mem: map<Block, Memory<T>>, blk: seq<Block>, stage: seq<Stage>, fin: seq<bool>) {
    && |stage| == |blk|
    && (forall k | 0 <= k < |blk| && stage[k] != Released ::
          blk[k] in mem && |mem[blk[k]].cells| == BLOCK_SIZE && mem[blk[k]].counter == Finished(fin, k))
    && (forall k | 0 <= k < |blk| :: stage[k].Live? <==> Finished(fin, k) < BLOCK_SIZE)
    && (forall j, k | 0 <= j < k < |blk| && stage[j] != Released && stage[k] != Released :: blk[j] != blk[k])
  }

  /** Every element that has not been read is in its cell. */
  ghost predicate CellsOk<T>(mem: map<Block, Memory<T>>, blk: seq<Block>, log: seq<T>, delivered: map<nat, T>) {
    forall i | 0 <= i < |log| && i !in delivered ::
      && i / BLOCK_SIZE < |blk| && blk[i / BLOCK_SIZE] in mem && |mem[blk[i / BLOCK_SIZE]].cells| == BLOCK_SIZE
      && mem[blk[i / BLOCK_SIZE]].cells[i % BLOCK_SIZE] == Some(log[i])
  }

  ghost predicate DeliveredOk<T>(log: seq<T>, fin: seq<bool>, delivered: map<nat, T>) {
    && (forall i | i in delivered :: i < |fin| && i < |log| && delivered[i] == log[i])
    && (forall i | 0 <= i < |fin| && fin[i] :: i in delivered)
  }

  /** An index that is not finished is in the hands of the consumer that claimed it. */
  ghost predicate OwnersOk<T>(consumers: map<Tid, Consumer<T>>, fin: seq<bool>, owner: seq<Tid>) {
    && |owner| == |fin|
    && forall i | 0 <= i < |fin| && !fin[i] ::
         owner[i] in consumers && Holding(consumers[owner[i]]) && consumers[owner[i]].i == i
  }

  /** A drained block that is not released yet is in the hands of the consumer of its last element. */
  ghost predicate ClosersOk<T>(consumers: map<Tid, Consumer<T>>, stage: seq<Stage>) {
    && (forall k | 0 <= k < |stage| && stage[k].Drained? ::
          stage[k].closer in consumers && consumers[stage[k].closer].Clear?
            && consumers[stage[k].closer].i / BLOCK_SIZE == k)
    && (forall k | 0 <= k < |stage| && stage[k].Cleared? ::
          stage[k].closer in consumers && consumers[stage[k].closer].Release?
            && consumers[stage[k].closer].i / BLOCK_SIZE == k)
  }

  ghost predicate HeaderOk(stage: seq<Stage>, ent: seq<Entry>, n: nat, h: Header) {
    Covers(stage, ent, h.index, h.tail, h.last) && IsRing(h.index, n) && h.last <= |stage|
  }

  ghost predicate HeadersOk(headers: seq<Header>, stage: seq<Stage>, ent: seq<Entry>, n: nat) {
    forall h | 0 <= h < |headers| :: HeaderOk(stage, ent, n, headers[h])
  }

  /** The block number at the tail of the current header, ahead by one while a block is being created. */
  predicate Ahead<T>(p: Producer<T>) {
    p.GetBlock? || p.Rewind? || p.ResetCounter? || p.SetValue?
  }

  /** An entry set aside for the next block by an attempt that failed: it is empty, and next in line. */
  ghost predicate ReservedOk<T>(p: Producer<T>, h: Header, ent: seq<Entry>, entries: seq<IndexEntry>, blocks: nat,
                                tail: nat) {
    && blocks <= |ent| <= blocks + 1
    && h.tail < |h.index|
    && h.last == blocks - 1 + (if Ahead(p) then 1 else 0)
    && (|ent| > blocks && !Ahead(p) ==> ent[blocks] == NextEntry(h))
    && (|ent| > blocks && (p.Resting? || p.CheckFull? || p.ProbeKey? || p.ProbeValue?) ==>
          ent[blocks] < |entries| && entries[ent[blocks]].value.None?)
    && (p.Grow? || p.Write? || p.Publish? ==> |ent| == blocks)
    && (|ent| > blocks ==> tail == BLOCK_SIZE * blocks)
  }

  ghost predicate FreshBlock<T>(mem: map<Block, Memory<T>>, blk: seq<Block>, stage: seq<Stage>, b: Block) {
    && |stage| == |blk| && b in mem && |mem[b].cells| == BLOCK_SIZE
    && forall k | 0 <= k < |blk| && stage[k] != Released :: blk[k] != b
  }

  /** There is room in the ring for one more entry after those of the protected blocks. */
  ghost predicate HasRoom(stage: seq<Stage>, cap: nat) {
    forall k | Protected(stage, k) :: |stage| - k < cap
  }

  predicate IsReserved(ent: seq<Entry>, blocks: nat, e: Entry) {
    |ent| == blocks + 1 && e == ent[blocks]
  }

  /** What the producer knows about the block it is creating. */
  ghost predicate ProducerOk<T>(p: Producer<T>, h: Header, stage: seq<Stage>, ent: seq<Entry>, blk: seq<Block>,
                                mem: map<Block, Memory<T>>) {
    && (p.SetKey? ==> h.tail < |h.index| && p.e == NextEntry(h) && NotUsed(stage, ent, p.e))
    && (p.SetKey? || p.SetTail? ==> HasRoom(stage, |h.index|))
    && (p.SetTail? || p.GetBlock? || p.Rewind? || p.ClearValue? || p.ResetCounter? || p.SetValue? ==>
          IsReserved(ent, |blk|, p.e))
    && (p.ResetCounter? || p.SetValue? ==> FreshBlock(mem, blk, stage, p.b))
    && (p.SetValue? ==> mem[p.b].counter == 0)
  }

  /** The element about to be published has been written. */
  ghost predicate WrittenOk<T>(p: Producer<T>, mem: map<Block, Memory<T>>, tailBlock: Block, tail: nat) {
    p.Publish? ==>
      tailBlock in mem && |mem[tailBlock].cells| == BLOCK_SIZE && mem[tailBlock].cells[tail % BLOCK_SIZE] == Some(p.x)
  }

  ghost predicate CreatingOk<T>(s: Store<T>)
    requires |s.headers| > 0
  {
    && ReservedOk(s.producer, Current(s), s.ent, s.entries, |s.blk|, |s.log|)
    && ProducerOk(s.producer, Current(s), s.stage, s.ent, s.blk, s.mem)
    && WrittenOk(s.producer, s.mem, s.tailBlock, |s.log|)
  }

  /** Consumer t has claimed index i and has not finished with it. */
  predicate Claimed(fin: seq<bool>, owner: seq<Tid>, t: Tid, i: nat) {
    |owner| == |fin| && i < |fin| && !fin[i] && owner[i] == t
  }

  ghost predicate Knows<T>(log: seq<T>, i: nat, x: T) {
    i < |log| && x == log[i]
  }

  predicate EntryOf(ent: seq<Entry>, k: nat, e: Entry) {
    k < |ent| && ent[k] == e
  }

  predicate BlockOf(blk: seq<Block>, k: nat, b: Block) {
    k < |blk| && blk[k] == b
  }

  predicate StageOf(stage: seq<Stage>, k: nat, st: Stage) {
    k < |stage| && stage[k] == st
  }

  /** What consumer t knows. */
  ghost predicate ConsumerOk<T>(s: Store<T>, t: Tid, pc: Consumer<T>) {
    match pc
    case Away => true
    case LoadIndex(i) => Claimed(s.fin, s.owner, t, i) && i !in s.delivered
    case LoadTail(i, h) =>
      && Claimed(s.fin, s.owner, t, i) && i !in s.delivered
      && h < |s.headers| && i / BLOCK_SIZE <= s.headers[h].last
    case LoadKey(i, h, at, last) =>
      && Claimed(s.fin, s.owner, t, i) && i !in s.delivered
      && h < |s.headers| && i / BLOCK_SIZE <= last && Covers(s.stage, s.ent, s.headers[h].index, at, last)
    case LoadValue(i, e) =>
      && Claimed(s.fin, s.owner, t, i) && i !in s.delivered && EntryOf(s.ent, i / BLOCK_SIZE, e)
    case Read(i, e, b) =>
      && Claimed(s.fin, s.owner, t, i) && i !in s.delivered && EntryOf(s.ent, i / BLOCK_SIZE, e)
      && BlockOf(s.blk, i / BLOCK_SIZE, b)
    case Count(i, e, b, x) =>
      && Claimed(s.fin, s.owner, t, i) && i in s.delivered && EntryOf(s.ent, i / BLOCK_SIZE, e)
      && BlockOf(s.blk, i / BLOCK_SIZE, b)
      && Knows(s.log, i, x)
    case Clear(i, e, b, x) =>
      && EntryOf(s.ent, i / BLOCK_SIZE, e) && BlockOf(s.blk, i / BLOCK_SIZE, b)
      && StageOf(s.stage, i / BLOCK_SIZE, Drained(t))
      && Knows(s.log, i, x)
    case Release(i, b, x) =>
      && BlockOf(s.blk, i / BLOCK_SIZE, b) && StageOf(s.stage, i / BLOCK_SIZE, Cleared(t)) && Knows(s.log, i, x)
    case Done(i, x) => Knows(s.log, i, x)
  }

  ghost predicate ConsumersOk<T>(s: Store<T>) {
    forall t | t in s.consumers :: ConsumerOk(s, t, s.consumers[t])
  }

  ghost predicate DataOk<T>(s: Store<T>) {
    && BlocksOk(s.mem, s.blk, s.stage, s.fin)
    && CellsOk(s.mem, s.blk, s.log, s.delivered)
    && DeliveredOk(s.log, s.fin, s.delivered)
  }

  ghost predicate ThreadsOk<T>(s: Store<T>) {
    && OwnersOk(s.consumers, s.fin, s.owner)
    && ClosersOk(s.consumers, s.stage)
    && ConsumersOk(s)
  }

  ghost predicate IndexOk<T>(s: Store<T>) {
    HeadersOk(s.headers, s.stage, s.ent, |s.entries|) && KeysOk(s.stage, s.ent, s.entries)
      && ValuesOk(s.stage, s.ent, s.blk, s.entries)
  }

  ghost predicate Inv<T>(s: Store<T>) {
    Lengths(s) && Position(s.producer, |s.log|, |s.blk|) && DataOk(s) && ThreadsOk(s) && IndexOk(s) && CreatingOk(s)
  }

  // ---------------------------------------------------------- steps of the producing thread

  /** What consumers know stays true when headers are added or tails move, whatever happens to memory and entries. */
  lemma ConsumersSurvive<T>(s: Store<T>, s': Store<T>)
    requires Lengths(s) && ConsumersOk(s)
    requires s' == s.(mem := s'.mem, headers := s'.headers, entries := s'.entries, producer := s'.producer)
    requires |s.headers| <= |s'.headers|
    requires forall h | 0 <= h < |s.headers| ::
               s'.headers[h].index == s.headers[h].index && (s'.headers[h].last >= s.headers[h].last
                 || s'.headers[h].last >= |s.stage| - 1)
    ensures ConsumersOk(s')
  {
    forall t | t in s'.consumers ensures ConsumerOk(s', t, s'.consumers[t]) {
      assert ConsumerOk(s, t, s.consumers[t]);
    }
  }

  /** Steps of the producer that change nothing but where it is. */
  lemma ProducerPcKeeps<T>(s: Store<T>, p: Producer<T>)
    requires Inv(s) && CreatingOk(s.(producer := p)) && Position(p, |s.log|, |s.blk|)
    ensures Inv(s.(producer := p))
  {
    var s' := s.(producer := p);
    ConsumersSurvive(s, s');
  }

  lemma BeginBlockKeeps<T>(s: Store<T>, x: T)
    requires Inv(s) && s.producer.Resting? && |s.log| % BLOCK_SIZE == 0
    ensures Inv(s.(producer := CheckFull(x)))
  {
    assert |s.log| == BLOCK_SIZE * |s.blk|;
    ProducerPcKeeps(s, CheckFull(x));
  }

  lemma BeginWriteKeeps<T>(s: Store<T>, x: T)
    requires Inv(s) && s.producer.Resting? && |s.log| % BLOCK_SIZE != 0
    ensures Inv(s.(producer := Write(x)))
  {
    assert |s.log| < BLOCK_SIZE * |s.blk|;
    ProducerPcKeeps(s, Write(x));
  }

  lemma CheckFullKeeps<T>(s: Store<T>)
    requires Inv(s) && s.producer.CheckFull?
    ensures ProducerDefined(s) && Inv(Produce(s))
  {
    ProducerPcKeeps(s, Produce(s).producer);
  }

  /** The entry probed is free: nobody else uses it. */
  lemma FoundFreeKeeps<T>(s: Store<T>, e: Entry)
    requires Inv(s) && (s.producer.ProbeKey? || s.producer.ProbeValue?) && e == NextEntry(Current(s))
    requires e < |s.entries| && (s.entries[e].key == INVALID_BLOCK_BASE || s.entries[e].value.None?)
    ensures Inv(s.(producer := SetKey(s.producer.x, e)))
  {
    var h := Current(s);
    assert HeaderOk(s.stage, s.ent, |s.entries|, h);
    FreeEntryIsNotUsed(s.stage, s.ent, s.blk, s.entries, h.index, h.tail);
    ProducerPcKeeps(s, SetKey(s.producer.x, e));
  }

  lemma ProbeKeyKeeps<T>(s: Store<T>)
    requires Inv(s) && s.producer.ProbeKey?
    ensures ProducerDefined(s) && Inv(Produce(s))
  {
    assert HeaderOk(s.stage, s.ent, |s.entries|, Current(s));
    var e := NextEntry(Current(s));
    if s.entries[e].key == INVALID_BLOCK_BASE {
      FoundFreeKeeps(s, e);
    } else {
      ProducerPcKeeps(s, ProbeValue(s.producer.x));
    }
  }

  lemma ProbeValueKeeps<T>(s: Store<T>)
    requires Inv(s) && s.producer.ProbeValue?
    ensures ProducerDefined(s) && Inv(Produce(s))
  {
    assert HeaderOk(s.stage, s.ent, |s.entries|, Current(s));
    var e := NextEntry(Current(s));
    if s.entries[e].value.None? {
      FoundFreeKeeps(s, e);
    } else {
      ProducerPcKeeps(s, Grow(s.producer.x));
    }
  }

  /** The new header and the new entries. */
  lemma GrowKeepsIndex<T>(s: Store<T>, values: seq<Option<Block>>)
    requires |s.headers| > 0 && s.producer.Grow? && 2 * |Current(s).index| <= MAX_CAPACITY
    requires |values| == |Current(s).index|
    requires IndexOk(s)
    ensures Current(s).tail < |Current(s).index|
    ensures IndexOk(Grown(s, values))
    ensures NextEntry(Current(Grown(s, values))) == |s.entries|
  {
    var h, n := Current(s), |s.entries|;
    assert HeaderOk(s.stage, s.ent, n, h);
    var more := seq(|h.index|, i => n + i);
    var s' := Grown(s, values);
    GrowthKeepsCovers(s.stage, s.ent, h.index, h.tail, h.last, more);
    GrowthKeepsRing(h.index, h.tail, n, more);
    assert Current(s') == Header(Rotated(h.index, h.tail) + more, |h.index| - 1, h.last);
    forall i | 0 <= i < |s'.headers| ensures HeaderOk(s'.stage, s'.ent, |s'.entries|, s'.headers[i]) {
      if i < |s.headers| {
        assert HeaderOk(s.stage, s.ent, n, s.headers[i]);
      }
    }
  }

  lemma GrowKeeps<T>(s: Store<T>, values: seq<Option<Block>>)
    requires Inv(s) && s.producer.Grow? && 2 * |Current(s).index| <= MAX_CAPACITY && |values| == |Current(s).index|
    ensures Current(s).tail < |Current(s).index| && Inv(Grown(s, values))
  {
    GrowKeepsIndex(s, values);
    var h, s' := Current(s), Grown(s, values);
    assert HeaderOk(s.stage, s.ent, |s.entries|, h);
    assert |Current(s').index| == 2 * |h.index|;
    forall k | Protected(s.stage, k) ensures |s.stage| - k < |Current(s').index| {
      if k < |s.stage| {
        assert IsAt(h.index, s.ent, h.tail, h.last, k);
      }
    }
    assert CreatingOk(s');
    ConsumersSurvive(s, s');
  }

  /** The key is set in an entry that belongs to nobody. */
  lemma SetKeyKeepsIndex<T>(s: Store<T>, e: Entry)
    requires Lengths(s) && s.producer.SetKey? && s.producer.e == e && |s.log| == BLOCK_SIZE * |s.blk| && CreatingOk(s)
    requires IndexOk(s)
    ensures e < |s.entries|
    ensures IndexOk(AfterSetKey(s))
  {
    assert HeaderOk(s.stage, s.ent, |s.entries|, Current(s));
    var s' := AfterSetKey(s);
    assert s'.ent[|s.blk|] == e;
    forall i | 0 <= i < |s'.headers| ensures HeaderOk(s'.stage, s'.ent, |s'.entries|, s'.headers[i]) {
      assert HeaderOk(s.stage, s.ent, |s.entries|, s.headers[i]);
      HistoryKeepsCovers(s, s', s.headers[i].index, s.headers[i].tail, s.headers[i].last);
    }
    forall k, j | Protected(s.stage, k) && k <= j < |s'.ent| ensures s'.entries[s'.ent[j]].key == BLOCK_SIZE * j {
      if j < |s.stage| {
        assert s.ent[j] != e;
      }
    }
  }

  lemma SetKeyKeepsConsumer<T>(s: Store<T>, t: Tid)
    requires t in s.consumers && ConsumerOk(s, t, s.consumers[t]) && s.producer.SetKey? && ProducerDefined(s)
    ensures ConsumerOk(AfterSetKey(s), t, s.consumers[t])
  {
    var pc := s.consumers[t];
    if pc.LoadKey? {
      HistoryKeepsCovers(s, AfterSetKey(s), s.headers[pc.h].index, pc.at, pc.last);
    }
  }

  lemma SetKeyKeepsThreads<T>(s: Store<T>)
    requires ThreadsOk(s) && s.producer.SetKey? && ProducerDefined(s)
    ensures ThreadsOk(AfterSetKey(s))
  {
    var s' := AfterSetKey(s);
    forall t | t in s'.consumers ensures ConsumerOk(s', t, s'.consumers[t]) {
      SetKeyKeepsConsumer(s, t);
    }
  }

  lemma SetKeyKeepsCreating<T>(s: Store<T>)
    requires Lengths(s) && CreatingOk(s) && s.producer.SetKey? && ProducerDefined(s) && |s.log| == BLOCK_SIZE * |s.blk|
    ensures Lengths(AfterSetKey(s)) && CreatingOk(AfterSetKey(s))
  {
  }

  lemma SetKeyKeeps<T>(s: Store<T>)
    requires Inv(s) && s.producer.SetKey?
    ensures ProducerDefined(s) && Inv(AfterSetKey(s))
  {
    SetKeyKeepsIndex(s, s.producer.e);
    SetKeyKeepsThreads(s);
    SetKeyKeepsCreating(s);
  }

  lemma HistoryKeepsCovers<T>(s: Store<T>, s': Store<T>, index: seq<Entry>, at: nat, last: int)
    requires Covers(s.stage, s.ent, index, at, last) && s'.stage == s.stage
    requires s'.ent == s.ent || exists e :: s'.ent == s.ent + [e]
    ensures Covers(s'.stage, s'.ent, index, at, last)
  {
    if s'.ent != s.ent {
      var e :| s'.ent == s.ent + [e];
      LongerHistoryKeepsCovers(s.stage, s.ent, e, index, at, last);
    }
  }

  /** The tail of the current header moves. */
  lemma NewTailKeeps<T>(s: Store<T>, s': Store<T>, h: Header)
    requires Inv(s) && h.index == Current(s).index && |s.stage| - 1 <= h.last <= |s.stage|
    requires Covers(s.stage, s.ent, h.index, h.tail, h.last)
    requires s' == WithCurrent(s, h).(producer := s'.producer)
    requires Position(s'.producer, |s.log|, |s.blk|) && CreatingOk(s')
    ensures Inv(s')
  {
    NewTailKeepsHeaders(s.headers, s.stage, s.ent, |s.entries|, h);
    ConsumersSurvive(s, s');
  }

  lemma NewTailKeepsHeaders(headers: seq<Header>, stage: seq<Stage>, ent: seq<Entry>, n: nat, h: Header)
    requires HeadersOk(headers, stage, ent, n) && |headers| > 0 && h.index == headers[|headers| - 1].index
    requires h.last <= |stage| && Covers(stage, ent, h.index, h.tail, h.last)
    ensures HeadersOk(headers[|headers| - 1 := h], stage, ent, n)
  {
    var headers' := headers[|headers| - 1 := h];
    forall i | 0 <= i < |headers'| ensures HeaderOk(stage, ent, n, headers'[i]) {
      assert HeaderOk(stage, ent, n, headers[i]);
    }
  }

  lemma SetTailKeepsCreating<T>(s: Store<T>)
    requires Lengths(s) && IndexOk(s) && CreatingOk(s) && s.producer.SetTail?
    ensures ProducerDefined(s) && CreatingOk(AfterSetTail(s))
    ensures var h := Current(AfterSetTail(s));
            h.index == Current(s).index && h.last == |s.stage| && Covers(s.stage, s.ent, h.index, h.tail, h.last)
  {
    var h := Current(s);
    assert HeaderOk(s.stage, s.ent, |s.entries|, h);
    ForwardKeepsCovers(s.stage, s.ent, h.index, h.tail);
  }

  lemma SetTailKeeps<T>(s: Store<T>)
    requires Inv(s) && s.producer.SetTail?
    ensures ProducerDefined(s) && Inv(AfterSetTail(s))
  {
    SetTailKeepsCreating(s);
    NewTailKeeps(s, AfterSetTail(s), Current(AfterSetTail(s)));
  }

  lemma RewindKeepsCreating<T>(s: Store<T>)
    requires Lengths(s) && IndexOk(s) && CreatingOk(s) && s.producer.Rewind?
    ensures ProducerDefined(s) && CreatingOk(AfterRewind(s))
    ensures var h := Current(AfterRewind(s));
            h.index == Current(s).index && h.last == |s.stage| - 1 && Covers(s.stage, s.ent, h.index, h.tail, h.last)
  {
    var h := Current(s);
    assert HeaderOk(s.stage, s.ent, |s.entries|, h);
    BackKeepsCovers(s.stage, s.ent, h.index, h.tail);
  }

  lemma RewindKeeps<T>(s: Store<T>)
    requires Inv(s) && s.producer.Rewind?
    ensures ProducerDefined(s) && Inv(AfterRewind(s))
  {
    RewindKeepsCreating(s);
    NewTailKeeps(s, AfterRewind(s), Current(AfterRewind(s)));
  }

  /** The entry of the block being created is not the entry of an uncleared block. */
  lemma ReservedDiffers<T>(s: Store<T>, k: nat)
    requires Inv(s) && k < |s.blk| && Uncleared(s.stage[k]) && |s.ent| == |s.blk| + 1
    ensures s.ent[k] != s.ent[|s.blk|]
  {
    assert Protected(s.stage, k);
    EntriesDiffer(s.stage, s.ent, s.entries, k, k, |s.blk|);
  }

  lemma ClearValueKeepsIndex<T>(s: Store<T>)
    requires Inv(s) && s.producer.ClearValue?
    ensures ProducerDefined(s) && IndexOk(AfterClearValue(s))
  {
    var s' := AfterClearValue(s);
    forall k | 0 <= k < |s.stage| && Uncleared(s.stage[k]) ensures s'.entries[s.ent[k]].value == Some(s.blk[k]) {
      ReservedDiffers(s, k);
    }
    assert KeysOk(s'.stage, s'.ent, s'.entries);
  }

  lemma ClearValueKeeps<T>(s: Store<T>)
    requires Inv(s) && s.producer.ClearValue?
    ensures ProducerDefined(s) && Inv(AfterClearValue(s))
  {
    ClearValueKeepsIndex(s);
    ConsumersSurvive(s, AfterClearValue(s));
  }

  lemma GetBlockKeepsData<T>(s: Store<T>, b: Block, m: Memory<T>)
    requires DataOk(s) && s.producer.GetBlock? && b !in s.mem
    ensures DataOk(WithBlock(s, b, m))
  {
  }

  lemma GetBlockKeeps<T>(s: Store<T>, b: Block, m: Memory<T>)
    requires Inv(s) && s.producer.GetBlock? && b !in s.mem && |m.cells| == BLOCK_SIZE
    ensures Inv(WithBlock(s, b, m))
  {
    GetBlockKeepsData(s, b, m);
    ConsumersSurvive(s, WithBlock(s, b, m));
  }

  /** An element that has not been read keeps its block from being released. */
  lemma UnreadIsHeld<T>(s: Store<T>, i: nat)
    requires Lengths(s) && DataOk(s) && i < |s.log| && i !in s.delivered
    ensures i / BLOCK_SIZE < |s.blk| && s.stage[i / BLOCK_SIZE].Live?
  {
    var k := i / BLOCK_SIZE;
    FinishedBound(s.fin, k);
    assert i == BLOCK_SIZE * k + i % BLOCK_SIZE;
    assert !(i < |s.fin| && s.fin[i]);
  }

  /** Changes to memory that spare the cells of the blocks in use. */
  lemma CellsSurvive<T>(s: Store<T>, s': Store<T>)
    requires Lengths(s) && DataOk(s) && s'.blk == s.blk && s'.log == s.log && s'.delivered == s.delivered
    requires forall k | 0 <= k < |s.blk| && s.stage[k].Live? ::
               s.blk[k] in s'.mem && s'.mem[s.blk[k]].cells == s.mem[s.blk[k]].cells
    ensures CellsOk(s'.mem, s'.blk, s'.log, s'.delivered)
  {
    forall i | 0 <= i < |s.log| && i !in s.delivered
      ensures i / BLOCK_SIZE < |s.blk| && s.blk[i / BLOCK_SIZE] in s'.mem
      ensures |s'.mem[s.blk[i / BLOCK_SIZE]].cells| == BLOCK_SIZE
      ensures s'.mem[s.blk[i / BLOCK_SIZE]].cells[i % BLOCK_SIZE] == Some(s.log[i])
    {
      UnreadIsHeld(s, i);
    }
  }

  lemma ResetKeepsBlocks<T>(s: Store<T>)
    requires s.producer.ResetCounter? && |s.stage| == |s.blk|
    requires FreshBlock(s.mem, s.blk, s.stage, s.producer.b) && BlocksOk(s.mem, s.blk, s.stage, s.fin)
    ensures BlocksOk(AfterReset(s).mem, s.blk, s.stage, s.fin)
  {
  }

  lemma ResetKeepsData<T>(s: Store<T>)
    requires Lengths(s) && DataOk(s) && s.producer.ResetCounter? && FreshBlock(s.mem, s.blk, s.stage, s.producer.b)
    ensures DataOk(AfterReset(s))
  {
    CellsSurvive(s, AfterReset(s));
    ResetKeepsBlocks(s);
  }

  lemma ResetCounterKeeps<T>(s: Store<T>)
    requires Inv(s) && s.producer.ResetCounter?
    ensures ProducerDefined(s) && Inv(AfterReset(s))
  {
    ResetKeepsData(s);
    ConsumersSurvive(s, AfterReset(s));
  }

  /** The new block goes into the index. */
  lemma SetValueKeepsBlocks<T>(s: Store<T>)
    requires s.producer.SetValue? && |s.stage| == |s.blk| && FreshBlock(s.mem, s.blk, s.stage, s.producer.b)
    requires s.mem[s.producer.b].counter == 0
    requires BlocksOk(s.mem, s.blk, s.stage, s.fin) && |s.fin| <= BLOCK_SIZE * |s.blk|
    ensures BlocksOk(s.mem, s.blk + [s.producer.b], s.stage + [Live], s.fin)
  {
    NothingFinished(s.fin, |s.blk|);
  }

  lemma SetValueKeepsIndex<T>(s: Store<T>)
    requires s.producer.SetValue? && |s.stage| == |s.blk| && |s.ent| == |s.blk| + 1 && s.producer.e == s.ent[|s.blk|]
    requires IndexOk(s)
    ensures ProducerDefined(s)
    ensures IndexOk(AfterSetValue(s))
  {
    var s', n := AfterSetValue(s), |s.blk|;
    NewBlockKeepsKeys(s.stage, s.ent, s.entries);
    forall k, j | Protected(s'.stage, k) && k <= j < |s'.ent| ensures s'.entries[s'.ent[j]].key == BLOCK_SIZE * j {
      assert s.entries[s.ent[j]].key == BLOCK_SIZE * j;
    }
    forall k | 0 <= k < |s'.stage| && Uncleared(s'.stage[k]) ensures s'.entries[s.ent[k]].value == Some(s'.blk[k]) {
      if k < n {
        assert Protected(s.stage, k);
        EntriesDiffer(s.stage, s.ent, s.entries, k, k, n);
      }
    }
    forall i | 0 <= i < |s'.headers| ensures HeaderOk(s'.stage, s'.ent, |s'.entries|, s'.headers[i]) {
      assert HeaderOk(s.stage, s.ent, |s.entries|, s.headers[i]);
      NewBlockKeepsCovers(s.stage, s.ent, s.headers[i].index, s.headers[i].tail, s.headers[i].last);
    }
  }

  lemma SetValueKeepsData<T>(s: Store<T>)
    requires Lengths(s) && DataOk(s) && CreatingOk(s) && s.producer.SetValue? && |s.log| == BLOCK_SIZE * |s.blk|
    requires ProducerDefined(s)
    ensures DataOk(AfterSetValue(s))
  {
    SetValueKeepsBlocks(s);
    assert forall k | 0 <= k < |s.blk| :: AfterSetValue(s).blk[k] == s.blk[k];
  }

  lemma SetValueKeeps<T>(s: Store<T>)
    requires Inv(s) && s.producer.SetValue?
    ensures ProducerDefined(s) && Inv(AfterSetValue(s))
  {
    SetValueKeepsIndex(s);
    SetValueKeepsData(s);
    var s' := AfterSetValue(s);
    assert CreatingOk(s');
    forall t | t in s'.consumers ensures ConsumerOk(s', t, s'.consumers[t]) {
      SetValueKeepsConsumer(s, t);
    }
  }

  lemma SetValueKeepsConsumer<T>(s: Store<T>, t: Tid)
    requires Inv(s) && s.producer.SetValue? && ProducerDefined(s) && t in s.consumers
    ensures ConsumerOk(AfterSetValue(s), t, s.consumers[t])
  {
    var pc := s.consumers[t];
    assert ConsumerOk(s, t, pc);
    if pc.LoadKey? {
      assert Protected(s.stage, |s.stage|) && HeaderOk(s.stage, s.ent, |s.entries|, s.headers[pc.h]);
      NewBlockKeepsCovers(s.stage, s.ent, s.headers[pc.h].index, pc.at, pc.last);
    }
  }

  lemma NothingFinished(fin: seq<bool>, k: nat)
    requires |fin| <= BLOCK_SIZE * k
    ensures Finished(fin, k) == 0
  {
    NothingFinishedIn(fin, BLOCK_SIZE * k, BLOCK_SIZE * k + BLOCK_SIZE);
  }

  /** The block at the tail is live and in memory while there is room in it. */
  lemma TailBlockIsLive<T>(s: Store<T>)
    requires Lengths(s) && Position(s.producer, |s.log|, |s.blk|) && DataOk(s)
    requires s.producer.Write? || s.producer.Publish?
    ensures var k := |s.log| / BLOCK_SIZE; k == |s.blk| - 1 && s.blk[k] == s.tailBlock && s.stage[k].Live?
  {
    var k := |s.log| / BLOCK_SIZE;
    FinishedBound(s.fin, k);
    assert |s.log| == BLOCK_SIZE * k + |s.log| % BLOCK_SIZE;
  }

  lemma WriteKeepsCells<T>(s: Store<T>)
    requires Lengths(s) && Position(s.producer, |s.log|, |s.blk|) && DataOk(s) && s.producer.Write?
    ensures ProducerDefined(s) && CellsOk(AfterWrite(s).mem, s.blk, s.log, s.delivered)
  {
    TailBlockIsLive(s);
    var s', n := AfterWrite(s), |s.log|;
    forall i | 0 <= i < n && i !in s.delivered
      ensures i / BLOCK_SIZE < |s.blk| && s.blk[i / BLOCK_SIZE] in s'.mem
      ensures |s'.mem[s.blk[i / BLOCK_SIZE]].cells| == BLOCK_SIZE
      ensures s'.mem[s.blk[i / BLOCK_SIZE]].cells[i % BLOCK_SIZE] == Some(s.log[i])
    {
      UnreadIsHeld(s, i);
      if i / BLOCK_SIZE == n / BLOCK_SIZE {
        assert i % BLOCK_SIZE != n % BLOCK_SIZE;
      }
    }
  }

  lemma WriteKeepsData<T>(s: Store<T>)
    requires Lengths(s) && Position(s.producer, |s.log|, |s.blk|) && DataOk(s) && s.producer.Write?
    ensures ProducerDefined(s) && DataOk(AfterWrite(s))
  {
    WriteKeepsCells(s);
    TailBlockIsLive(s);
  }

  lemma WriteKeeps<T>(s: Store<T>)
    requires Inv(s) && s.producer.Write?
    ensures ProducerDefined(s) && Inv(AfterWrite(s))
  {
    WriteKeepsData(s);
    ConsumersSurvive(s, AfterWrite(s));
  }

  lemma PublishKeepsData<T>(s: Store<T>)
    requires Lengths(s) && Position(s.producer, |s.log|, |s.blk|) && DataOk(s) && CreatingOk(s) && s.producer.Publish?
    ensures DataOk(AfterPublish(s)) && Lengths(AfterPublish(s))
    ensures Position(AfterPublish(s).producer, |AfterPublish(s).log|, |s.blk|)
  {
    TailBlockIsLive(s);
  }

  lemma PublishKeepsThreads<T>(s: Store<T>)
    requires ThreadsOk(s) && s.producer.Publish?
    ensures ThreadsOk(AfterPublish(s))
  {
    forall t | t in s.consumers ensures ConsumerOk(AfterPublish(s), t, s.consumers[t]) {
      PublishKeepsConsumer(s, t);
    }
  }

  lemma PublishKeeps<T>(s: Store<T>)
    requires Inv(s) && s.producer.Publish?
    ensures ProducerDefined(s) && Inv(AfterPublish(s))
  {
    PublishKeepsData(s);
    PublishKeepsThreads(s);
  }

  lemma PublishKeepsConsumer<T>(s: Store<T>, t: Tid)
    requires t in s.consumers && ConsumerOk(s, t, s.consumers[t]) && s.producer.Publish?
    ensures ConsumerOk(AfterPublish(s), t, s.consumers[t])
  {
  }

  // --------------------------------------------------------- steps of the consuming threads

  /** The block of an index that is claimed and not finished is live. */
  lemma ClaimedIsLive<T>(s: Store<T>, i: nat)
    requires Lengths(s) && DataOk(s) && i < |s.fin| && !s.fin[i]
    ensures i / BLOCK_SIZE < |s.blk| && s.stage[i / BLOCK_SIZE].Live? && Protected(s.stage, i / BLOCK_SIZE)
  {
    FinishedBound(s.fin, i / BLOCK_SIZE);
    assert i == BLOCK_SIZE * (i / BLOCK_SIZE) + i % BLOCK_SIZE;
  }

  /** What consumer u knows when another one makes a step. */
  lemma OtherSurvives<T>(s: Store<T>, s': Store<T>, u: Tid, pc: Consumer<T>)
    requires ConsumerOk(s, u, pc)
    requires s'.headers == s.headers && s'.ent == s.ent && s'.blk == s.blk && s'.owner == s.owner && s'.log == s.log
    requires Advances(s.stage, s'.stage) && |s'.fin| == |s.fin|
    requires Holding(pc) ==> s'.fin[pc.i] == s.fin[pc.i] && (pc.i in s'.delivered <==> pc.i in s.delivered)
    requires pc.Clear? || pc.Release? ==> s'.stage[pc.i / BLOCK_SIZE] == s.stage[pc.i / BLOCK_SIZE]
    ensures ConsumerOk(s', u, pc)
  {
    if pc.LoadKey? {
      AdvanceKeepsCovers(s.stage, s'.stage, s.ent, s.headers[pc.h].index, pc.at, pc.last);
    }
  }

  /** What the consumers know after a step of consumer t. */
  lemma OthersSurvive<T>(s: Store<T>, s': Store<T>, t: Tid)
    requires ConsumersOk(s) && t in s.consumers && s'.consumers.Keys == s.consumers.Keys
    requires forall u | u in s.consumers && u != t :: s'.consumers[u] == s.consumers[u]
    requires s'.headers == s.headers && s'.ent == s.ent && s'.blk == s.blk && s'.owner == s.owner && s'.log == s.log
    requires Advances(s.stage, s'.stage) && |s'.fin| == |s.fin|
    requires forall i | 0 <= i < |s.fin| && s.fin[i] != s'.fin[i] :: i < |s.owner| && s.owner[i] == t
    requires forall i: nat | (i in s.delivered) != (i in s'.delivered) :: i < |s.owner| && s.owner[i] == t
    requires forall k | 0 <= k < |s.stage| && s.stage[k] != s'.stage[k] :: s.stage[k] in [Live, Drained(t), Cleared(t)]
    requires ConsumerOk(s', t, s'.consumers[t])
    ensures ConsumersOk(s')
  {
    forall u | u in s'.consumers ensures ConsumerOk(s', u, s'.consumers[u]) {
      if u != t {
        assert ConsumerOk(s, u, s.consumers[u]);
        OtherSurvives(s, s', u, s.consumers[u]);
      }
    }
  }

  lemma OwnersSurvive<T>(consumers: map<Tid, Consumer<T>>, fin: seq<bool>, fin': seq<bool>, owner: seq<Tid>, t: Tid,
                         pc: Consumer<T>)
    requires OwnersOk(consumers, fin, owner) && |fin'| == |fin|
    requires forall i | 0 <= i < |fin| && !fin'[i] :: !fin[i] && (owner[i] == t ==> Holding(pc) && pc.i == i)
    ensures OwnersOk(consumers[t := pc], fin', owner)
  {
  }

  lemma ClosersSurvive<T>(consumers: map<Tid, Consumer<T>>, stage: seq<Stage>, stage': seq<Stage>, t: Tid,
                          pc: Consumer<T>)
    requires ClosersOk(consumers, stage) && |stage'| == |stage|
    requires forall k | 0 <= k < |stage| && stage'[k].Drained? ::
               if stage'[k].closer == t then pc.Clear? && pc.i / BLOCK_SIZE == k else stage'[k] == stage[k]
    requires forall k | 0 <= k < |stage| && stage'[k].Cleared? ::
               if stage'[k].closer == t then pc.Release? && pc.i / BLOCK_SIZE == k else stage'[k] == stage[k]
    ensures ClosersOk(consumers[t := pc], stage')
  {
  }

  /** Steps of a consumer that change nothing but where it is. */
  lemma MoveKeepsThreads<T>(s: Store<T>, t: Tid, pc: Consumer<T>)
    requires ThreadsOk(s) && Lengths(s) && t in s.consumers && ConsumerOk(s, t, pc)
    requires Holding(s.consumers[t]) && Holding(pc) && pc.i == s.consumers[t].i
    ensures ThreadsOk(Goto(s, t, pc))
  {
    OwnersSurvive(s.consumers, s.fin, s.fin, s.owner, t, pc);
    ClosersSurvive(s.consumers, s.stage, s.stage, t, pc);
    OthersSurvive(s, Goto(s, t, pc), t);
  }

  lemma ThreadsOnly<T>(s: Store<T>, s': Store<T>)
    requires Inv(s) && s' == s.(consumers := s'.consumers) && ThreadsOk(s')
    ensures Inv(s')
  {
  }

  lemma ConsumerPcKeeps<T>(s: Store<T>, t: Tid, pc: Consumer<T>)
    requires Inv(s) && t in s.consumers && ConsumerOk(s, t, pc)
    requires Holding(s.consumers[t]) && Holding(pc) && pc.i == s.consumers[t].i
    ensures Inv(Goto(s, t, pc))
  {
    MoveKeepsThreads(s, t, pc);
    ThreadsOnly(s, Goto(s, t, pc));
  }

  /** The parts of the invariant after a step of a consumer make up the whole. */
  lemma ConsumerStepTogether<T>(s: Store<T>, s': Store<T>)
    requires Lengths(s) && Position(s.producer, |s.log|, |s.blk|)
    requires s'.log == s.log && s'.blk == s.blk && s'.ent == s.ent && s'.owner == s.owner && |s'.fin| == |s.fin|
    requires |s'.stage| == |s.stage|
    requires s'.headers == s.headers && s'.tailBlock == s.tailBlock && s'.producer == s.producer
    requires DataOk(s') && ThreadsOk(s') && IndexOk(s') && CreatingOk(s')
    ensures Inv(s')
  {
  }

  lemma LoadIndexKeeps<T>(s: Store<T>, t: Tid)
    requires Inv(s) && t in s.consumers && s.consumers[t].LoadIndex?
    ensures Defined(s, t) && Inv(Consume(s, t))
  {
    var i := s.consumers[t].i;
    assert ConsumerOk(s, t, s.consumers[t]);
    ClaimedIsLive(s, i);
    ConsumerPcKeeps(s, t, LoadTail(i, |s.headers| - 1));
  }

  lemma LoadTailKeeps<T>(s: Store<T>, t: Tid)
    requires Inv(s) && t in s.consumers && s.consumers[t].LoadTail?
    ensures Defined(s, t) && Inv(Consume(s, t))
  {
    var pc := s.consumers[t];
    assert ConsumerOk(s, t, pc);
    assert HeaderOk(s.stage, s.ent, |s.entries|, s.headers[pc.h]);
    ConsumerPcKeeps(s, t, LoadKey(pc.i, pc.h, s.headers[pc.h].tail, s.headers[pc.h].last));
  }

  /** The lookup is right, however much the index has changed since the header and its tail were read. */
  lemma LoadKeyKeeps<T>(s: Store<T>, t: Tid)
    requires Inv(s) && t in s.consumers && s.consumers[t].LoadKey?
    ensures Defined(s, t) && Inv(Consume(s, t))
    ensures Consume(s, t).consumers[t] == LoadValue(s.consumers[t].i, s.ent[s.consumers[t].i / BLOCK_SIZE])
  {
    var pc := s.consumers[t];
    assert ConsumerOk(s, t, pc);
    ClaimedIsLive(s, pc.i);
    assert HeaderOk(s.stage, s.ent, |s.entries|, s.headers[pc.h]);
    LookupFinds(s.stage, s.ent, s.entries, s.headers[pc.h].index, pc.at, pc.last, pc.i);
    ConsumerPcKeeps(s, t, LoadValue(pc.i, s.ent[pc.i / BLOCK_SIZE]));
  }

  lemma LoadValueKeeps<T>(s: Store<T>, t: Tid)
    requires Inv(s) && t in s.consumers && s.consumers[t].LoadValue?
    ensures Defined(s, t) && Inv(Consume(s, t))
  {
    var pc := s.consumers[t];
    assert ConsumerOk(s, t, pc);
    ClaimedIsLive(s, pc.i);
    ConsumerPcKeeps(s, t, Read(pc.i, pc.e, s.blk[pc.i / BLOCK_SIZE]));
  }

  /** Moving an element out of a cell leaves the counters alone. */
  lemma ReadKeepsBlocks<T>(s: Store<T>, b: Block, cells: seq<Option<T>>)
    requires BlocksOk(s.mem, s.blk, s.stage, s.fin) && b in s.mem && |cells| == BLOCK_SIZE
    ensures BlocksOk(s.mem[b := s.mem[b].(cells := cells)], s.blk, s.stage, s.fin)
  {
  }

  /** Moving an element out of its cell. */
  lemma ReadKeepsCells<T>(s: Store<T>, i: nat, b: Block, x: T)
    requires Lengths(s) && DataOk(s) && i < |s.log| && i !in s.delivered && i / BLOCK_SIZE < |s.blk|
    requires b == s.blk[i / BLOCK_SIZE]
    requires b in s.mem && |s.mem[b].cells| == BLOCK_SIZE
    ensures CellsOk(s.mem[b := s.mem[b].(cells := s.mem[b].cells[i % BLOCK_SIZE := None])], s.blk, s.log,
            s.delivered[i := x])
  {
    UnreadIsHeld(s, i);
    forall j | 0 <= j < |s.log| && j !in s.delivered && j != i
      ensures j / BLOCK_SIZE < |s.blk| && (s.blk[j / BLOCK_SIZE] == b ==> j % BLOCK_SIZE != i % BLOCK_SIZE)
    {
      UnreadIsHeld(s, j);
      assert j == BLOCK_SIZE * (j / BLOCK_SIZE) + j % BLOCK_SIZE;
    }
  }

  lemma ReadKeepsData<T>(s: Store<T>, t: Tid)
    requires Lengths(s) && DataOk(s) && ThreadsOk(s) && t in s.consumers && s.consumers[t].Read?
    ensures Defined(s, t) && DataOk(AfterRead(s, t)) && AfterRead(s, t).consumers[t].x == s.log[s.consumers[t].i]
  {
    var pc := s.consumers[t];
    assert ConsumerOk(s, t, pc);
    ClaimedIsLive(s, pc.i);
    ReadKeepsCells(s, pc.i, pc.b, s.log[pc.i]);
    ReadKeepsBlocks(s, pc.b, s.mem[pc.b].cells[pc.i % BLOCK_SIZE := None]);
  }

  lemma ReadKeepsThreads<T>(s: Store<T>, t: Tid)
    requires Lengths(s) && ThreadsOk(s) && t in s.consumers && s.consumers[t].Read? && Defined(s, t)
    requires var i := s.consumers[t].i; i < |s.log| && AfterRead(s, t).consumers[t].x == s.log[i]
    ensures ThreadsOk(AfterRead(s, t))
  {
    var s' := AfterRead(s, t);
    assert ConsumerOk(s, t, s.consumers[t]);
    OwnersSurvive(s.consumers, s.fin, s.fin, s.owner, t, s'.consumers[t]);
    ClosersSurvive(s.consumers, s.stage, s.stage, t, s'.consumers[t]);
    OthersSurvive(s, s', t);
  }

  lemma ReadKeepsWritten<T>(s: Store<T>, t: Tid)
    requires Lengths(s) && Position(s.producer, |s.log|, |s.blk|) && DataOk(s) && ThreadsOk(s) && CreatingOk(s)
    requires t in s.consumers && s.consumers[t].Read? && Defined(s, t)
    ensures var s' := AfterRead(s, t); WrittenOk(s.producer, s'.mem, s.tailBlock, |s.log|)
  {
    var pc := s.consumers[t];
    assert ConsumerOk(s, t, pc);
    ClaimedIsLive(s, pc.i);
    if s.producer.Publish? {
      TailBlockIsLive(s);
      assert pc.b == s.tailBlock ==> pc.i / BLOCK_SIZE == |s.log| / BLOCK_SIZE;
    }
  }

  /** Changes to a block in use do not touch the block being created. */
  lemma ProducerSparesBlock<T>(p: Producer<T>, h: Header, stage: seq<Stage>, ent: seq<Entry>,
                               blk: seq<Block>, mem: map<Block, Memory<T>>, k: nat, m: Memory<T>)
    requires ProducerOk(p, h, stage, ent, blk, mem) && k < |stage| && k < |blk| && stage[k] != Released
    ensures ProducerOk(p, h, stage, ent, blk, mem[blk[k] := m])
  {
  }

  lemma ReadKeepsProducerOk<T>(s: Store<T>, t: Tid)
    requires Lengths(s) && DataOk(s) && ConsumersOk(s)
    requires ProducerOk(s.producer, Current(s), s.stage, s.ent, s.blk, s.mem)
    requires t in s.consumers && s.consumers[t].Read? && Defined(s, t)
    ensures ProducerOk(s.producer, Current(s), s.stage, s.ent, s.blk, AfterRead(s, t).mem)
  {
    var pc := s.consumers[t];
    assert ConsumerOk(s, t, pc);
    ClaimedIsLive(s, pc.i);
    ProducerSparesBlock(s.producer, Current(s), s.stage, s.ent, s.blk, s.mem, pc.i / BLOCK_SIZE,
      AfterRead(s, t).mem[pc.b]);
  }

  lemma CreatingTogether<T>(s: Store<T>, s': Store<T>)
    requires |s.headers| > 0 && s'.headers == s.headers && s'.entries == s.entries && s'.ent == s.ent && s'.blk == s.blk
    requires s'.stage == s.stage
    requires s'.producer == s.producer && s'.tailBlock == s.tailBlock && s'.log == s.log
    requires ReservedOk(s.producer, Current(s), s.ent, s.entries, |s.blk|, |s.log|)
    requires ProducerOk(s.producer, Current(s), s.stage, s.ent, s.blk, s'.mem)
    requires WrittenOk(s.producer, s'.mem, s.tailBlock, |s.log|)
    ensures CreatingOk(s')
  {
  }

  lemma ReadKeepsCreating<T>(s: Store<T>, t: Tid)
    requires Lengths(s) && Position(s.producer, |s.log|, |s.blk|) && DataOk(s) && ThreadsOk(s) && CreatingOk(s)
    requires t in s.consumers && s.consumers[t].Read? && Defined(s, t)
    ensures CreatingOk(AfterRead(s, t))
  {
    ReadKeepsWritten(s, t);
    ReadKeepsProducerOk(s, t);
    CreatingTogether(s, AfterRead(s, t));
  }

  lemma ReadKeeps<T>(s: Store<T>, t: Tid)
    requires Inv(s) && t in s.consumers && s.consumers[t].Read?
    ensures Defined(s, t) && Inv(AfterRead(s, t))
    ensures AfterRead(s, t).consumers[t].x == s.log[s.consumers[t].i]
  {
    ReadKeepsData(s, t);
    ReadKeepsThreads(s, t);
    ReadKeepsCreating(s, t);
    ConsumerStepTogether(s, AfterRead(s, t));
  }

  /** The counter of the block is incremented: it goes on counting the finished elements. */
  lemma CountKeepsBlocks<T>(s: Store<T>, t: Tid)
    requires BlocksOk(s.mem, s.blk, s.stage, s.fin) && t in s.consumers && s.consumers[t].Count?
    requires var pc := s.consumers[t]; var k := pc.i / BLOCK_SIZE;
             pc.i < |s.fin| && !s.fin[pc.i] && k < |s.blk| && s.stage[k].Live? && pc.b == s.blk[k]
    ensures Defined(s, t) && BlocksOk(AfterCount(s, t).mem, s.blk, AfterCount(s, t).stage, AfterCount(s, t).fin)
    ensures s.mem[s.consumers[t].b].counter < BLOCK_SIZE
  {
    var pc := s.consumers[t];
    var s' := AfterCount(s, t);
    assert pc.i == BLOCK_SIZE * (pc.i / BLOCK_SIZE) + pc.i % BLOCK_SIZE;
    forall k | 0 <= k < |s.blk|
      ensures Finished(s'.fin, k) == Finished(s.fin, k) + if k == pc.i / BLOCK_SIZE then 1 else 0
    {
      FinishOne(s.fin, pc.i, k);
    }
  }

  lemma AdvanceKeepsIndex<T>(s: Store<T>, s': Store<T>)
    requires Advances(s.stage, s'.stage) && s'.headers == s.headers && s'.ent == s.ent && s'.entries == s.entries
    requires s'.blk == s.blk
    requires IndexOk(s)
    ensures IndexOk(s')
  {
    AdvanceKeepsKeys(s.stage, s'.stage, s.ent, s.entries);
    forall h | 0 <= h < |s.headers| ensures HeaderOk(s'.stage, s.ent, |s.entries|, s.headers[h]) {
      assert HeaderOk(s.stage, s.ent, |s.entries|, s.headers[h]);
      AdvanceKeepsCovers(s.stage, s'.stage, s.ent, s.headers[h].index, s.headers[h].tail, s.headers[h].last);
    }
  }

  /** The producer's knowledge when a consumer advances a stage, or releases a block. */
  lemma ProducerSurvives<T>(s: Store<T>, s': Store<T>)
    requires Lengths(s) && Position(s.producer, |s.log|, |s.blk|) && DataOk(s) && CreatingOk(s)
    requires Advances(s.stage, s'.stage)
    requires s' == s.(mem := s'.mem, consumers := s'.consumers, fin := s'.fin, stage := s'.stage)
    requires forall k | 0 <= k < |s.stage| && s.stage[k].Released? :: s'.stage[k].Released?
    requires forall b | b in s.mem && FreshBlock(s.mem, s.blk, s.stage, b) :: b in s'.mem && s'.mem[b] == s.mem[b]
    requires forall k | 0 <= k < |s.blk| && s.stage[k].Live? ::
               s.blk[k] in s'.mem && s'.mem[s.blk[k]].cells == s.mem[s.blk[k]].cells
    ensures CreatingOk(s')
  {
    ProducerOkSurvives(s.producer, Current(s), s.stage, s'.stage, s.ent, s.blk, s.mem, s'.mem);
    if s.producer.Publish? {
      TailBlockIsLive(s);
    }
  }

  lemma ProducerOkSurvives<T>(p: Producer<T>, h: Header, stage: seq<Stage>, stage': seq<Stage>, ent: seq<Entry>,
                              blk: seq<Block>,
                              mem: map<Block, Memory<T>>, mem': map<Block, Memory<T>>)
    requires ProducerOk(p, h, stage, ent, blk, mem) && Advances(stage, stage') && |stage| == |blk|
    requires forall k | 0 <= k < |stage| && stage[k].Released? :: stage'[k].Released?
    requires forall b | b in mem && FreshBlock(mem, blk, stage, b) :: b in mem' && mem'[b] == mem[b]
    ensures ProducerOk(p, h, stage', ent, blk, mem')
  {
    match p {
      case SetKey(_, _) | SetTail(_, _) =>
        forall k | Protected(stage', k) ensures Protected(stage, k) {
        }
      case ResetCounter(_, _, b) => assert FreshBlock(mem, blk, stage, b);
      case SetValue(_, _, b) => assert FreshBlock(mem, blk, stage, b);
      case _ =>
    }
  }

  /** The counter of a live block changes. */
  lemma CountedBlockSurvives<T>(s: Store<T>, s': Store<T>, k: nat, m: Memory<T>)
    requires Lengths(s) && Position(s.producer, |s.log|, |s.blk|) && DataOk(s) && CreatingOk(s)
    requires Advances(s.stage, s'.stage)
    requires k < |s.blk| && s.stage[k].Live? && s.blk[k] in s.mem && m.cells == s.mem[s.blk[k]].cells
    requires s' == s.(mem := s.mem[s.blk[k] := m], consumers := s'.consumers, fin := s'.fin, stage := s'.stage)
    requires forall j | 0 <= j < |s.stage| && j != k :: s'.stage[j] == s.stage[j]
    ensures CreatingOk(s')
  {
    ProducerSurvives(s, s');
  }

  /** A cleared block goes back to the pool. */
  lemma ReleasedBlockSurvives<T>(s: Store<T>, s': Store<T>, k: nat)
    requires Lengths(s) && Position(s.producer, |s.log|, |s.blk|) && DataOk(s) && CreatingOk(s)
    requires k < |s.blk| && s.stage[k].Cleared?
    requires s' == s.(mem := s.mem - {s.blk[k]}, consumers := s'.consumers, stage := s.stage[k := Released])
    ensures CreatingOk(s')
  {
    ProducerSurvives(s, s');
  }

  lemma CountKeepsThreads<T>(s: Store<T>, t: Tid)
    requires Lengths(s) && ThreadsOk(s) && t in s.consumers && s.consumers[t].Count? && Defined(s, t)
    requires s.stage[s.consumers[t].i / BLOCK_SIZE].Live?
    ensures ThreadsOk(AfterCount(s, t))
  {
    var pc, s' := s.consumers[t], AfterCount(s, t);
    assert ConsumerOk(s, t, pc);
    OwnersSurvive(s.consumers, s.fin, s'.fin, s.owner, t, s'.consumers[t]);
    ClosersSurvive(s.consumers, s.stage, s'.stage, t, s'.consumers[t]);
    OthersSurvive(s, s', t);
  }

  lemma CountKeepsData<T>(s: Store<T>, t: Tid)
    requires Lengths(s) && DataOk(s) && ThreadsOk(s) && t in s.consumers && s.consumers[t].Count?
    ensures Defined(s, t) && DataOk(AfterCount(s, t)) && s.stage[s.consumers[t].i / BLOCK_SIZE].Live?
    ensures s.mem[s.consumers[t].b].counter < BLOCK_SIZE
  {
    var pc := s.consumers[t];
    assert ConsumerOk(s, t, pc);
    ClaimedIsLive(s, pc.i);
    CountKeepsBlocks(s, t);
    CellsSurvive(s, AfterCount(s, t));
  }

  /** What a count changes. */
  lemma CountFrame<T>(s: Store<T>, t: Tid)
    requires t in s.consumers && s.consumers[t].Count? && Defined(s, t)
    ensures var s', pc := AfterCount(s, t), s.consumers[t];
            && s'.mem == s.mem[pc.b := s.mem[pc.b].(counter := s.mem[pc.b].counter + 1)]
            && s' == s.(mem := s'.mem, consumers := s'.consumers, fin := s'.fin, stage := s'.stage)
            && |s'.stage| == |s.stage| && (s'.stage[pc.i / BLOCK_SIZE].Drained? || s'.stage == s.stage)
            && forall j | 0 <= j < |s.stage| && j != pc.i / BLOCK_SIZE :: s'.stage[j] == s.stage[j]
  {
  }

  lemma CountKeepsCreating<T>(s: Store<T>, t: Tid)
    requires Lengths(s) && Position(s.producer, |s.log|, |s.blk|) && DataOk(s) && ThreadsOk(s) && CreatingOk(s)
    requires t in s.consumers && s.consumers[t].Count? && Defined(s, t)
    ensures CreatingOk(AfterCount(s, t))
  {
    var pc := s.consumers[t];
    assert ConsumerOk(s, t, pc);
    ClaimedIsLive(s, pc.i);
    CountFrame(s, t);
    CountedBlockSurvives(s, AfterCount(s, t), pc.i / BLOCK_SIZE, AfterCount(s, t).mem[pc.b]);
  }

  lemma CountKeepsIndex<T>(s: Store<T>, t: Tid)
    requires IndexOk(s) && t in s.consumers && s.consumers[t].Count? && Defined(s, t)
    requires s.stage[s.consumers[t].i / BLOCK_SIZE].Live?
    ensures IndexOk(AfterCount(s, t))
  {
    AdvanceKeepsIndex(s, AfterCount(s, t));
  }

  lemma CountKeeps<T>(s: Store<T>, t: Tid)
    requires Inv(s) && t in s.consumers && s.consumers[t].Count?
    ensures Defined(s, t) && Inv(AfterCount(s, t))
  {
    CountKeepsData(s, t);
    CountKeepsThreads(s, t);
    CountKeepsCreating(s, t);
    CountKeepsIndex(s, t);
    ConsumerStepTogether(s, AfterCount(s, t));
  }

  /** Emptying the index entry of a drained block. */
  lemma ClearKeepsIndex<T>(s: Store<T>, s': Store<T>, k: nat, e: Entry)
    requires |s.stage| == |s.blk| <= |s.ent| && k < |s.blk| && s.stage[k].Drained? && e == s.ent[k]
    requires s'.headers == s.headers && s'.ent == s.ent && s'.blk == s.blk
    requires |s'.stage| == |s.stage| && s'.stage[k].Cleared?
    requires forall j | 0 <= j < |s.stage| && j != k :: s'.stage[j] == s.stage[j]
    requires e < |s.entries| && s'.entries == s.entries[e := s.entries[e].(value := None)]
    requires IndexOk(s)
    ensures IndexOk(s')
  {
    var m := s.(stage := s'.stage);
    AdvanceKeepsIndex(s, m);
    forall j | 0 <= j < |s.stage| && Uncleared(s'.stage[j]) ensures s.ent[j] != e {
      assert Protected(s.stage, k) && Protected(s.stage, j);
      if j < k {
        EntriesDiffer(s.stage, s.ent, s.entries, j, j, k);
      } else {
        EntriesDiffer(s.stage, s.ent, s.entries, k, k, j);
      }
    }
  }

  lemma ClearKeepsThreads<T>(s: Store<T>, t: Tid)
    requires Lengths(s) && ThreadsOk(s) && t in s.consumers && s.consumers[t].Clear? && Defined(s, t)
    ensures ThreadsOk(AfterClear(s, t))
  {
    var s' := AfterClear(s, t);
    assert ConsumerOk(s, t, s.consumers[t]);
    OwnersSurvive(s.consumers, s.fin, s'.fin, s.owner, t, s'.consumers[t]);
    ClosersSurvive(s.consumers, s.stage, s'.stage, t, s'.consumers[t]);
    OthersSurvive(s, s', t);
  }

  lemma ClearKeepsCreating<T>(s: Store<T>, t: Tid)
    requires Lengths(s) && Position(s.producer, |s.log|, |s.blk|) && DataOk(s) && ThreadsOk(s) && CreatingOk(s)
    requires t in s.consumers && s.consumers[t].Clear? && Defined(s, t)
    ensures CreatingOk(AfterClear(s, t))
  {
    assert ConsumerOk(s, t, s.consumers[t]);
    var m := AfterClear(s, t).(entries := s.entries);
    ProducerSurvives(s, m);
    ClearedStaysReserved(m.producer, Current(m), m.ent, m.entries, |m.blk|, |m.log|, s.consumers[t].e);
  }

  /** The entry set aside for the next block stays empty when another one is emptied. */
  lemma ClearedStaysReserved<T>(p: Producer<T>, h: Header, ent: seq<Entry>, entries: seq<IndexEntry>, blocks: nat,
                                tail: nat, e: Entry)
    requires ReservedOk(p, h, ent, entries, blocks, tail) && e < |entries|
    ensures ReservedOk(p, h, ent, entries[e := entries[e].(value := None)], blocks, tail)
  {
  }

  lemma ClearKeepsBlocks<T>(mem: map<Block, Memory<T>>, blk: seq<Block>, stage: seq<Stage>, fin: seq<bool>, k: nat,
                            t: Tid)
    requires BlocksOk(mem, blk, stage, fin) && k < |stage| && stage[k].Drained?
    ensures BlocksOk(mem, blk, stage[k := Cleared(t)], fin)
  {
  }

  lemma ClearKeepsData<T>(s: Store<T>, t: Tid)
    requires Lengths(s) && DataOk(s) && ThreadsOk(s) && t in s.consumers && s.consumers[t].Clear? && Defined(s, t)
    ensures DataOk(AfterClear(s, t))
  {
    assert ConsumerOk(s, t, s.consumers[t]);
    ClearKeepsBlocks(s.mem, s.blk, s.stage, s.fin, s.consumers[t].i / BLOCK_SIZE, t);
  }

  lemma ClearKeepsIndexes<T>(s: Store<T>, t: Tid)
    requires Lengths(s) && ThreadsOk(s) && IndexOk(s) && t in s.consumers && s.consumers[t].Clear?
    ensures Defined(s, t) && IndexOk(AfterClear(s, t))
  {
    var pc := s.consumers[t];
    assert ConsumerOk(s, t, pc);
    ClearKeepsIndex(s, AfterClear(s, t), pc.i / BLOCK_SIZE, pc.e);
  }

  lemma ClearKeeps<T>(s: Store<T>, t: Tid)
    requires Inv(s) && t in s.consumers && s.consumers[t].Clear?
    ensures Defined(s, t) && Inv(AfterClear(s, t))
  {
    ClearKeepsIndexes(s, t);
    ClearKeepsThreads(s, t);
    ClearKeepsCreating(s, t);
    ClearKeepsData(s, t);
    ConsumerStepTogether(s, AfterClear(s, t));
  }

  lemma ReleaseKeepsThreads<T>(s: Store<T>, t: Tid)
    requires Lengths(s) && ThreadsOk(s) && t in s.consumers && s.consumers[t].Release? && Defined(s, t)
    ensures ThreadsOk(AfterRelease(s, t))
  {
    var s' := AfterRelease(s, t);
    assert ConsumerOk(s, t, s.consumers[t]);
    OwnersSurvive(s.consumers, s.fin, s'.fin, s.owner, t, s'.consumers[t]);
    ClosersSurvive(s.consumers, s.stage, s'.stage, t, s'.consumers[t]);
    OthersSurvive(s, s', t);
  }

  lemma ReleaseKeepsBlocks<T>(s: Store<T>, t: Tid)
    requires BlocksOk(s.mem, s.blk, s.stage, s.fin) && t in s.consumers && s.consumers[t].Release?
    requires var pc := s.consumers[t]; var k := pc.i / BLOCK_SIZE;
             k < |s.blk| && s.stage[k].Cleared? && pc.b == s.blk[k]
    ensures Defined(s, t) && BlocksOk(AfterRelease(s, t).mem, s.blk, AfterRelease(s, t).stage, s.fin)
  {
  }

  lemma ReleaseKeepsData<T>(s: Store<T>, t: Tid)
    requires Lengths(s) && DataOk(s) && ThreadsOk(s) && t in s.consumers && s.consumers[t].Release?
    ensures Defined(s, t) && DataOk(AfterRelease(s, t))
  {
    assert ConsumerOk(s, t, s.consumers[t]);
    ReleaseKeepsBlocks(s, t);
    CellsSurvive(s, AfterRelease(s, t));
  }

  lemma ReleaseKeepsCreating<T>(s: Store<T>, t: Tid)
    requires Lengths(s) && Position(s.producer, |s.log|, |s.blk|) && DataOk(s) && ThreadsOk(s) && CreatingOk(s)
    requires t in s.consumers && s.consumers[t].Release? && Defined(s, t)
    ensures CreatingOk(AfterRelease(s, t))
  {
    assert ConsumerOk(s, t, s.consumers[t]);
    ReleasedBlockSurvives(s, AfterRelease(s, t), s.consumers[t].i / BLOCK_SIZE);
  }

  lemma ReleaseKeepsIndex<T>(s: Store<T>, t: Tid)
    requires IndexOk(s) && t in s.consumers && s.consumers[t].Release? && Defined(s, t)
    ensures IndexOk(AfterRelease(s, t))
  {
    AdvanceKeepsIndex(s, AfterRelease(s, t));
  }

  lemma ReleaseKeeps<T>(s: Store<T>, t: Tid)
    requires Inv(s) && t in s.consumers && s.consumers[t].Release?
    ensures Defined(s, t) && Inv(AfterRelease(s, t))
  {
    ReleaseKeepsData(s, t);
    ReleaseKeepsThreads(s, t);
    ReleaseKeepsCreating(s, t);
    ReleaseKeepsIndex(s, t);
    ConsumerStepTogether(s, AfterRelease(s, t));
  }

  lemma ClaimKeepsBlocks<T>(s: Store<T>)
    requires BlocksOk(s.mem, s.blk, s.stage, s.fin)
    ensures BlocksOk(s.mem, s.blk, s.stage, s.fin + [false])
  {
    forall k | 0 <= k < |s.blk| ensures Finished(s.fin + [false], k) == Finished(s.fin, k) {
      FinishedAppend(s.fin, BLOCK_SIZE * k, BLOCK_SIZE * k + BLOCK_SIZE);
    }
  }

  lemma ClaimKeepsThreads<T>(s: Store<T>, t: Tid)
    requires t in s.consumers && (s.consumers[t].Away? || s.consumers[t].Done?) && ThreadsOk(s)
    requires DeliveredOk(s.log, s.fin, s.delivered)
    ensures ThreadsOk(Claim(s, t))
  {
    var s' := Claim(s, t);
    ClosersSurvive(s.consumers, s.stage, s.stage, t, s'.consumers[t]);
    forall u | u in s'.consumers ensures ConsumerOk(s', u, s'.consumers[u]) {
      assert ConsumerOk(s, u, s.consumers[u]);
    }
  }

  lemma ClaimKeeps<T>(s: Store<T>, t: Tid)
    requires Inv(s) && t in s.consumers && (s.consumers[t].Away? || s.consumers[t].Done?) && |s.fin| < |s.log|
    ensures Inv(Claim(s, t))
  {
    ClaimKeepsBlocks(s);
    ClaimKeepsThreads(s, t);
    LongerClaims(s, Claim(s, t));
  }

  lemma LongerClaims<T>(s: Store<T>, s': Store<T>)
    requires Inv(s) && s' == s.(consumers := s'.consumers, fin := s'.fin, owner := s'.owner)
    requires |s'.owner| == |s'.fin| <= |s.log| && s'.fin == s.fin + [false]
    requires BlocksOk(s.mem, s.blk, s.stage, s'.fin) && ThreadsOk(s')
    ensures Inv(s')
  {
  }

  // --------------------------------------------------------------------------- all the steps

  /** The state the constructor leaves: an index of 32 unused entries, their values uninitialised. */
  ghost predicate Init<T>(s: Store<T>) {
    && s.mem == map[] && s.producer.Resting?
    && s.headers == [Header(seq(INITIAL_CAPACITY, i => i), INITIAL_CAPACITY - 1, -1)]
    && |s.entries| == INITIAL_CAPACITY && (forall e | 0 <= e < |s.entries| :: s.entries[e].key == INVALID_BLOCK_BASE)
    && (forall t | t in s.consumers :: s.consumers[t].Away?)
    && s.log == [] && s.fin == [] && s.owner == [] && s.delivered == map[] && s.ent == [] && s.blk == []
    && s.stage == []
  }

  lemma InitHolds<T>(s: Store<T>)
    requires Init(s)
    ensures Inv(s)
  {
    assert ProbeSequence.IsPow2(32) by { assert ProbeSequence.IsPow2(2); }
  }

  /** Consumer t is past its claim. */
  predicate Working<T>(pc: Consumer<T>) {
    !pc.Away? && !pc.Done?
  }

  ghost predicate BeginStep<T(!new)>(s: Store<T>, s': Store<T>) {
    s.producer.Resting? && exists x :: s' == Begin(s, x)
  }

  ghost predicate ProduceStep<T>(s: Store<T>, s': Store<T>) {
    !s.producer.Resting? && !s.producer.Grow? && !s.producer.GetBlock? && ProducerDefined(s) && s' == Produce(s)
  }

  ghost predicate ProducerStep<T(!new)>(s: Store<T>, s': Store<T>) {
    BeginStep(s, s') || GrowStep(s, s') || GetBlockStep(s, s') || ProduceStep(s, s')
  }

  ghost predicate ConsumerStep<T>(s: Store<T>, s': Store<T>, t: Tid) {
    t in s.consumers && Working(s.consumers[t]) && Defined(s, t) && s' == Consume(s, t)
  }

  lemma GrowStepKeeps<T>(s: Store<T>, s': Store<T>)
    requires Inv(s) && GrowStep(s, s')
    ensures Inv(s')
  {
    if s' == s.(producer := Resting) {
      ProducerPcKeeps(s, Resting);
    } else {
      var values :| |values| == |Current(s).index| && s' == Grown(s, values);
      GrowKeeps(s, values);
    }
  }

  lemma GetBlockStepKeeps<T(!new)>(s: Store<T>, s': Store<T>)
    requires Inv(s) && GetBlockStep(s, s')
    ensures Inv(s')
  {
    if s' == s.(producer := Rewind(s.producer.e)) {
      ProducerPcKeeps(s, Rewind(s.producer.e));
    } else {
      var b, m: Memory<T> :| b !in s.mem && |m.cells| == BLOCK_SIZE && s' == WithBlock(s, b, m);
      GetBlockKeeps(s, b, m);
    }
  }

  /** The accesses that look for an entry for the new block. */
  lemma ProbeKeeps<T>(s: Store<T>)
    requires Inv(s) && (s.producer.CheckFull? || s.producer.ProbeKey? || s.producer.ProbeValue?)
    ensures ProducerDefined(s) && Inv(Produce(s))
  {
    match s.producer {
      case CheckFull(_) => CheckFullKeeps(s);
      case ProbeKey(_) => ProbeKeyKeeps(s);
      case ProbeValue(_) => ProbeValueKeeps(s);
    }
  }

  /** The accesses that put a new block into the index, or give up. */
  lemma IndexKeeps<T>(s: Store<T>)
    requires Inv(s) && (s.producer.SetKey? || s.producer.SetTail? || s.producer.Rewind? || s.producer.ClearValue?)
    ensures ProducerDefined(s) && Inv(Produce(s))
  {
    match s.producer {
      case SetKey(_, _) => SetKeyKeeps(s);
      case SetTail(_, _) => SetTailKeeps(s);
      case Rewind(_) => RewindKeeps(s);
      case ClearValue(_) => ClearValueKeeps(s);
    }
  }

  lemma ProduceKeeps<T>(s: Store<T>)
    requires Inv(s) && !s.producer.Resting? && !s.producer.Grow? && !s.producer.GetBlock?
    ensures ProducerDefined(s) && Inv(Produce(s))
  {
    match s.producer {
      case CheckFull(_) | ProbeKey(_) | ProbeValue(_) => ProbeKeeps(s);
      case ResetCounter(_, _, _) => ResetCounterKeeps(s);
      case SetValue(_, _, _) => SetValueKeeps(s);
      case Write(_) => WriteKeeps(s);
      case Publish(_) => PublishKeeps(s);
      case _ => IndexKeeps(s);
    }
  }

  lemma BeginKeeps<T(!new)>(s: Store<T>, s': Store<T>)
    requires Inv(s) && BeginStep(s, s')
    ensures Inv(s')
  {
    var x :| s' == Begin(s, x);
    if |s.log| % BLOCK_SIZE == 0 {
      BeginBlockKeeps(s, x);
    } else {
      BeginWriteKeeps(s, x);
    }
  }

  lemma ProducerStepKeeps<T(!new)>(s: Store<T>, s': Store<T>)
    requires Inv(s) && ProducerStep(s, s')
    ensures Inv(s')
  {
    if BeginStep(s, s') {
      BeginKeeps(s, s');
    } else if GrowStep(s, s') {
      GrowStepKeeps(s, s');
    } else if GetBlockStep(s, s') {
      GetBlockStepKeeps(s, s');
    } else {
      ProduceKeeps(s);
    }
  }

  /** Every access a consumer makes is to something that is there, and keeps the invariant. */
  lemma ConsumeKeeps<T>(s: Store<T>, t: Tid)
    requires Inv(s) && t in s.consumers && Working(s.consumers[t])
    ensures Defined(s, t) && Inv(Consume(s, t))
  {
    match s.consumers[t] {
      case LoadIndex(_) => LoadIndexKeeps(s, t);
      case LoadTail(_, _) => LoadTailKeeps(s, t);
      case LoadKey(_, _, _, _) => LoadKeyKeeps(s, t);
      case LoadValue(_, _) => LoadValueKeeps(s, t);
      case Read(_, _, _) => ReadKeeps(s, t);
      case Count(_, _, _, _) => CountKeeps(s, t);
      case Clear(_, _, _, _) => ClearKeeps(s, t);
      case Release(_, _, _) => ReleaseKeeps(s, t);
      case _ => assert false;
    }
  }
}

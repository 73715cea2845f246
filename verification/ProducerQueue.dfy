/**
 The tickets and the store of one implicit producer stepping together: the queue
 that tokenless enqueue and try_dequeue see. A consumer goes through the ticket
 protocol (module Tickets); when it takes an index from `headIndex`, it goes on
 to fetch the element of that index (module ImplicitProducers). Publishing an
 element moves the tail of both.
 */
module ProducerQueue {
  import opened Options
  import opened BlockIndexes
  import opened ImplicitProducers
  import Tickets

  datatype State<T> = State(tickets: Tickets.State, store: Store<T>)

  ghost predicate Init<T>(s: State<T>) {
    && Tickets.Init(s.tickets) && ImplicitProducers.Init(s.store)
    && s.tickets.threads.Keys == s.store.consumers.Keys
  }

  /** Consumer t is in the ticket protocol. */
  ghost predicate TicketStep<T>(s: State<T>, s': State<T>, t: Tid) {
    && t in s.tickets.threads && t in s.store.consumers && !Working(s.store.consumers[t])
    && !s.tickets.threads[t].Claim?
    && Tickets.ConsumerStep(s.tickets, s'.tickets, t) && s'.store == s.store
  }

  /** Consumer t takes an index. */
  ghost predicate ClaimStep<T>(s: State<T>, s': State<T>, t: Tid) {
    && t in s.tickets.threads && t in s.store.consumers && s.tickets.threads[t].Claim?
    && Tickets.ConsumerStep(s.tickets, s'.tickets, t) && s'.store == Claim(s.store, t)
  }

  /** Consumer t fetches the element of the index it has taken. */
  ghost predicate FetchStep<T>(s: State<T>, s': State<T>, t: Tid) {
    ImplicitProducers.ConsumerStep(s.store, s'.store, t) && s'.tickets == s.tickets
  }

  ghost predicate ProducingStep<T(!new)>(s: State<T>, s': State<T>) {
    && ProducerStep(s.store, s'.store)
    && s'.tickets == if s.store.producer.Publish? then Tickets.Publish(s.tickets) else s.tickets
  }

  ghost predicate Next<T(!new)>(s: State<T>, s': State<T>) {
    || ProducingStep(s, s')
    || exists t :: TicketStep(s, s', t) || ClaimStep(s, s', t) || FetchStep(s, s', t)
  }

  ghost predicate StepAt<T(!new)>(run: seq<State<T>>, i: nat)
    requires 0 < i < |run|
  {
    Next(run[i - 1], run[i])
  }

  ghost predicate IsRun<T(!new)>(run: seq<State<T>>) {
    && |run| > 0
    && Init(run[0])
    && forall i | 0 < i < |run| :: StepAt(run, i)
  }

  // ---------------------------------------------------------------------- invariant

  /** Both machines count the same elements, and a consumer is in one of them at a time. */
  ghost predicate Coupled<T>(s: State<T>) {
    && s.tickets.tail == |s.store.log| && s.tickets.head == |s.store.fin|
    && s.tickets.threads.Keys == s.store.consumers.Keys
    && forall t | t in s.store.consumers && Working(s.store.consumers[t]) :: s.tickets.threads[t].Out?
  }

  ghost predicate Inv<T>(s: State<T>) {
    Tickets.Inv(s.tickets) && ImplicitProducers.Inv(s.store) && Coupled(s)
  }

  lemma ClaimStepKeeps<T>(s: State<T>, s': State<T>, t: Tid)
    requires Inv(s) && ClaimStep(s, s', t)
    ensures Inv(s') && |s.store.fin| < |s.store.log|
  {
    Tickets.HeadFits(s.tickets);
    assert t in Tickets.Claimants(s.tickets);
    Tickets.ConsumerStepKeeps(s.tickets, t);
    ClaimKeeps(s.store, t);
  }

  lemma TicketStepKeeps<T>(s: State<T>, s': State<T>, t: Tid)
    requires Inv(s) && TicketStep(s, s', t)
    ensures Inv(s')
  {
    Tickets.ConsumerStepKeeps(s.tickets, t);
  }

  /** The accesses of a consumer to a block and to its index entry. */
  lemma UseChangesNoIndex<T>(s: Store<T>, t: Tid)
    requires t in s.consumers && Working(s.consumers[t]) && Defined(s, t)
    requires s.consumers[t].Read? || s.consumers[t].Count? || s.consumers[t].Clear? || s.consumers[t].Release?
    ensures var s' := Consume(s, t);
            s'.log == s.log && |s'.fin| == |s.fin| && t in s'.consumers
              && s'.consumers == s.consumers[t := s'.consumers[t]]
  {
  }

  lemma FetchChangesNoIndex<T>(s: Store<T>, t: Tid)
    requires t in s.consumers && Working(s.consumers[t]) && Defined(s, t)
    ensures var s' := Consume(s, t);
            s'.log == s.log && |s'.fin| == |s.fin| && t in s'.consumers
              && s'.consumers == s.consumers[t := s'.consumers[t]]
  {
    if s.consumers[t].Read? || s.consumers[t].Count? || s.consumers[t].Clear? || s.consumers[t].Release? {
      UseChangesNoIndex(s, t);
    }
  }

  lemma FetchKeepsCoupled<T>(s: State<T>, s': State<T>, t: Tid)
    requires Coupled(s) && FetchStep(s, s', t)
    ensures Coupled(s')
  {
    FetchChangesNoIndex(s.store, t);
  }

  lemma FetchStepKeeps<T>(s: State<T>, s': State<T>, t: Tid)
    requires Inv(s) && FetchStep(s, s', t)
    ensures Inv(s')
  {
    ConsumeKeeps(s.store, t);
    FetchKeepsCoupled(s, s', t);
  }

  lemma ProducingFrame<T(!new)>(s: Store<T>, s': Store<T>)
    requires ProducerStep(s, s')
    ensures s'.consumers == s.consumers && s'.fin == s.fin
    ensures s'.log == if s.producer.Publish? then s.log + [s.producer.x] else s.log
    ensures s'.blk == s.blk || s.producer.SetValue?
    ensures s.blk <= s'.blk && s.stage <= s'.stage
  {
    if s.producer.Grow? || s.producer.GetBlock? || s.producer.Resting? {
    } else {
      ProduceFrame(s);
    }
  }

  lemma ProduceFrame<T>(s: Store<T>)
    requires ProducerDefined(s)
    ensures var s' := Produce(s);
            && s'.consumers == s.consumers && s'.fin == s.fin
            && s'.log == (if s.producer.Publish? then s.log + [s.producer.x] else s.log)
            && (s'.blk == s.blk || s.producer.SetValue?) && s.blk <= s'.blk && s.stage <= s'.stage
  {
    match s.producer {
      case SetKey(_, _) =>
      case SetTail(_, _) =>
      case Rewind(_) =>
      case SetValue(_, _, _) =>
      case _ =>
    }
  }

  lemma ProducingStepKeeps<T(!new)>(s: State<T>, s': State<T>)
    requires Inv(s) && ProducingStep(s, s')
    ensures Inv(s')
  {
    ProducerStepKeeps(s.store, s'.store);
    ProducingFrame(s.store, s'.store);
    Tickets.PublishKeeps(s.tickets);
  }

  lemma StepKeeps<T(!new)>(s: State<T>, s': State<T>)
    requires Inv(s) && Next(s, s')
    ensures Inv(s')
  {
    if ProducingStep(s, s') {
      ProducingStepKeeps(s, s');
    } else {
      var t :| TicketStep(s, s', t) || ClaimStep(s, s', t) || FetchStep(s, s', t);
      if TicketStep(s, s', t) {
        TicketStepKeeps(s, s', t);
      } else if ClaimStep(s, s', t) {
        ClaimStepKeeps(s, s', t);
      } else {
        FetchStepKeeps(s, s', t);
      }
    }
  }

  lemma {:induction false} InvAt<T(!new)>(run: seq<State<T>>, k: nat)
    requires IsRun(run) && k < |run|
    ensures Inv(run[k])
  {
    if k > 0 {
      InvAt(run, k - 1);
      assert StepAt(run, k);
      StepKeeps(run[k - 1], run[k]);
    } else {
      InitHolds(run[0].store);
    }
  }

  lemma RunHolds<T(!new)>(run: seq<State<T>>)
    requires IsRun(run)
    ensures Inv(run[|run| - 1])
  {
    InvAt(run, |run| - 1);
  }

  // ------------------------------------------------------------------------ theorems

  /** The elements enqueued and not yet claimed: the abstract queue. */
  function Queue<T>(s: State<T>): seq<T>
    requires |s.store.fin| <= |s.store.log|
  {
    s.store.log[|s.store.fin|..]
  }

  /**
   A step publishes an element at the end of the queue, or claims the element at its front, or leaves
   the queue alone.
   */
  ghost predicate QueueStep<T>(s: State<T>, s': State<T>)
    requires |s.store.fin| <= |s.store.log| && |s'.store.fin| <= |s'.store.log|
  {
    || Queue(s') == Queue(s)
    || (s.store.producer.Publish? && Queue(s') == Queue(s) + [s.store.producer.x])
    || (|Queue(s)| > 0 && Queue(s') == Queue(s)[1..] && exists t :: ClaimStep(s, s', t))
  }

  /** The queue refines a first-in first-out sequence. */
  lemma StepRefinesQueue<T(!new)>(run: seq<State<T>>, s': State<T>)
    requires IsRun(run) && Next(run[|run| - 1], s')
    ensures |run[|run| - 1].store.fin| <= |run[|run| - 1].store.log| && |s'.store.fin| <= |s'.store.log|
    ensures QueueStep(run[|run| - 1], s')
  {
    RunHolds(run);
    StepIsQueueStep(run[|run| - 1], s');
  }

  lemma ProducingIsQueueStep<T(!new)>(s: State<T>, s': State<T>)
    requires |s.store.fin| <= |s.store.log| && ProducingStep(s, s')
    ensures |s'.store.fin| <= |s'.store.log| && QueueStep(s, s')
  {
    ProducingFrame(s.store, s'.store);
  }

  lemma ClaimIsQueueStep<T>(s: State<T>, s': State<T>, t: Tid)
    requires Inv(s) && ClaimStep(s, s', t)
    ensures |s.store.fin| <= |s.store.log| && |s'.store.fin| <= |s'.store.log| && QueueStep(s, s')
  {
    ClaimStepKeeps(s, s', t);
    assert Queue(s') == Queue(s)[1..];
  }

  lemma FetchIsQueueStep<T>(s: State<T>, s': State<T>, t: Tid)
    requires |s.store.fin| <= |s.store.log| && FetchStep(s, s', t)
    ensures |s'.store.fin| <= |s'.store.log| && QueueStep(s, s')
  {
    FetchChangesNoIndex(s.store, t);
  }

  lemma StepIsQueueStep<T(!new)>(s: State<T>, s': State<T>)
    requires Inv(s) && Next(s, s')
    ensures |s.store.fin| <= |s.store.log| && |s'.store.fin| <= |s'.store.log| && QueueStep(s, s')
  {
    if ProducingStep(s, s') {
      ProducingIsQueueStep(s, s');
    } else {
      var t :| TicketStep(s, s', t) || ClaimStep(s, s', t) || FetchStep(s, s', t);
      if ClaimStep(s, s', t) {
        ClaimIsQueueStep(s, s', t);
      } else if FetchStep(s, s', t) {
        FetchIsQueueStep(s, s', t);
      }
    }
  }

  lemma StepGrowsLog<T(!new)>(s: State<T>, s': State<T>)
    requires Next(s, s')
    ensures s.store.log <= s'.store.log
  {
    if ProducingStep(s, s') {
      ProducingFrame(s.store, s'.store);
    } else {
      var t :| TicketStep(s, s', t) || ClaimStep(s, s', t) || FetchStep(s, s', t);
      if FetchStep(s, s', t) {
        FetchChangesNoIndex(s.store, t);
      }
    }
  }

  lemma {:induction false} LogGrows<T(!new)>(run: seq<State<T>>, j: nat, k: nat)
    requires IsRun(run) && j <= k < |run|
    ensures run[j].store.log <= run[k].store.log
    decreases k - j
  {
    if j < k {
      LogGrows(run, j, k - 1);
      LogGrowsAt(run, k);
    }
  }

  lemma LogGrowsAt<T(!new)>(run: seq<State<T>>, k: nat)
    requires IsRun(run) && 0 < k < |run|
    ensures run[k - 1].store.log <= run[k].store.log
  {
    assert StepAt(run, k);
    StepGrowsLog(run[k - 1], run[k]);
  }

  /** What a dequeue returns is the element that was at the front of the queue when it claimed its index. */
  lemma DequeueReturnsFront<T(!new)>(run: seq<State<T>>, j: nat, k: nat, t: Tid, u: Tid)
    requires IsRun(run) && j + 1 <= k < |run| && ClaimStep(run[j], run[j + 1], t)
    requires u in run[k].store.consumers && run[k].store.consumers[u].Done?
    requires run[k].store.consumers[u].i == |run[j].store.fin|
    ensures |run[j].store.fin| < |run[j].store.log| && run[k].store.consumers[u].x == Queue(run[j])[0]
  {
    InvAt(run, j);
    ClaimStepKeeps(run[j], run[j + 1], t);
    LogGrows(run, j, k);
    InvAt(run, k);
    assert ConsumerOk(run[k].store, u, run[k].store.consumers[u]);
  }

  /** Every index claimed has been read, with the value enqueued there, or is in the hands of one consumer. */
  lemma NothingIsLost<T(!new)>(run: seq<State<T>>, i: nat)
    requires IsRun(run) && i < |run[|run| - 1].store.fin|
    ensures var s := run[|run| - 1].store;
            if i in s.delivered then i < |s.log| && s.delivered[i] == s.log[i]
            else exists t ::
                   t in s.consumers && Holding(s.consumers[t]) && !s.consumers[t].Count? && s.consumers[t].i == i
  {
    RunHolds(run);
    var s := run[|run| - 1].store;
    if i !in s.delivered {
      var t := s.owner[i];
      assert Holding(s.consumers[t]) && s.consumers[t].i == i;
      assert ConsumerOk(s, t, s.consumers[t]);
    }
  }

  /** No two consumers ever hold the same index, and an element that has been read is not read again. */
  lemma ReadOnce<T(!new)>(run: seq<State<T>>, t: Tid, u: Tid)
    requires IsRun(run)
    requires var s := run[|run| - 1].store;
             t in s.consumers && u in s.consumers && Holding(s.consumers[t]) && Holding(s.consumers[u])
               && s.consumers[t].i == s.consumers[u].i
    ensures t == u
    ensures var s := run[|run| - 1].store; s.consumers[t].Read? ==> s.consumers[t].i !in s.delivered
  {
    RunHolds(run);
    var s := run[|run| - 1].store;
    assert ConsumerOk(s, t, s.consumers[t]) && ConsumerOk(s, u, s.consumers[u]);
  }

  predicate AllDefined<T>(s: Store<T>) {
    ProducerDefined(s) && forall t | t in s.consumers :: Defined(s, t)
  }

  /**
   Block b is the k-th in its present life: registered as that, not released since, and no other
   block that is in use.
   */
  predicate IsBlock<T>(s: Store<T>, k: nat, b: Block, stage: Stage) {
    && k < |s.blk| == |s.stage| && s.blk[k] == b && s.stage[k] == stage != Released && b in s.mem
    && forall j | 0 <= j < |s.blk| && j != k && s.stage[j] != Released :: s.blk[j] != b
  }

  /**
   The block consumer t is about to access is the one that held its element when it was enqueued, not
   yet released.
   */
  predicate AccessesOwnBlock<T>(s: Store<T>, t: Tid)
    requires t in s.consumers
  {
    match s.consumers[t]
    case Read(i, _, b) => IsBlock(s, i / BLOCK_SIZE, b, Live)
    case Count(i, _, b, _) => IsBlock(s, i / BLOCK_SIZE, b, Live)
    case Clear(i, _, b, _) => IsBlock(s, i / BLOCK_SIZE, b, Drained(t))
    case Release(i, b, _) => IsBlock(s, i / BLOCK_SIZE, b, Cleared(t))
    case _ => true
  }

  /** The producer accesses a new block that nobody uses, or writes to its last one, which is live. */
  predicate ProducesOwnBlock<T>(s: Store<T>) {
    match s.producer
    case ResetCounter(_, _, b) =>
      |s.blk| == |s.stage| && forall k | 0 <= k < |s.blk| && s.stage[k] != Released :: s.blk[k] != b
    case Write(_) => |s.log| / BLOCK_SIZE == |s.blk| - 1 && IsBlock(s, |s.blk| - 1, s.tailBlock, Live)
    case _ => true
  }

  /**
   Every access any thread is about to make is defined: the header, entry and cell are there. And it
   is to a block in the life in which the thread came by it: no thread touches a block that has been
   released, even if the block is in use again by now.
   */
  lemma AccessesAreDefined<T(!new)>(run: seq<State<T>>)
    requires IsRun(run)
    ensures AllDefined(run[|run| - 1].store)
    ensures var s := run[|run| - 1].store; ProducesOwnBlock(s) && forall t | t in s.consumers :: AccessesOwnBlock(s, t)
  {
    RunHolds(run);
    var s := run[|run| - 1].store;
    if !s.producer.Resting? && !s.producer.Grow? && !s.producer.GetBlock? {
      ProduceKeeps(s);
    }
    ProducerBlock(s);
    forall t | t in s.consumers ensures Defined(s, t) && AccessesOwnBlock(s, t) {
      if Working(s.consumers[t]) {
        ConsumeKeeps(s, t);
      }
      ConsumerBlock(s, t);
    }
  }

  lemma ProducerBlock<T>(s: Store<T>)
    requires ImplicitProducers.Inv(s)
    ensures ProducesOwnBlock(s)
  {
    if s.producer.Write? {
      TailBlockIsLive(s);
    }
  }

  lemma ConsumerBlock<T>(s: Store<T>, t: Tid)
    requires ImplicitProducers.Inv(s) && t in s.consumers
    ensures AccessesOwnBlock(s, t)
  {
    var pc := s.consumers[t];
    assert ConsumerOk(s, t, pc);
    if pc.Read? || pc.Count? {
      ClaimedIsLive(s, pc.i);
    }
  }

  /**
   As long as an element is in the queue, or claimed and not finished with, the index entry of its
   block carries the block's base and points to the block: it has not been reused.
   */
  lemma EntryIsKept<T(!new)>(run: seq<State<T>>, i: nat)
    requires IsRun(run) && i < |run[|run| - 1].store.log|
    requires var s := run[|run| - 1].store; i < |s.fin| ==> !s.fin[i]
    ensures var s := run[|run| - 1].store; var k := i / BLOCK_SIZE;
            k < |s.blk| <= |s.ent| && s.ent[k] < |s.entries|
              && s.entries[s.ent[k]] == IndexEntry(BLOCK_SIZE * k, Some(s.blk[k]))
            && s.blk[k] in s.mem
  {
    RunHolds(run);
    var s, k := run[|run| - 1].store, i / BLOCK_SIZE;
    FinishedBound(s.fin, k);
    assert i == BLOCK_SIZE * k + i % BLOCK_SIZE;
    assert s.stage[k].Live? && Protected(s.stage, k);
  }

  /** The lookup finds the entry of the block of the claimed index, through whatever header and tail were read. */
  lemma LookupIsRight<T(!new)>(run: seq<State<T>>, s': State<T>, t: Tid)
    requires IsRun(run) && FetchStep(run[|run| - 1], s', t) && run[|run| - 1].store.consumers[t].LoadKey?
    ensures var s := run[|run| - 1].store; var i := s.consumers[t].i;
            i / BLOCK_SIZE < |s.ent| && s'.store.consumers[t] == LoadValue(i, s.ent[i / BLOCK_SIZE])
  {
    RunHolds(run);
    var s := run[|run| - 1].store;
    LoadKeyKeeps(s, t);
    assert ConsumerOk(s, t, s.consumers[t]);
    ClaimedIsLive(s, s.consumers[t].i);
  }

  /** The stages of a block in order. */
  function Rank(st: Stage): nat {
    match st
    case Live => 0
    case Drained(_) => 1
    case Cleared(_) => 2
    case Released => 3
  }

  /** From one state to the next, block k stays block k, and its stage moves on by one at most. */
  predicate MovesOn<T>(s: Store<T>, s': Store<T>, k: nat) {
    && k < |s.stage| && k < |s'.stage| && k < |s.blk| && k < |s'.blk| && s'.blk[k] == s.blk[k]
    && Rank(s.stage[k]) <= Rank(s'.stage[k]) <= Rank(s.stage[k]) + 1
  }

  lemma ProducingMovesOn<T(!new)>(s: Store<T>, s': Store<T>, k: nat)
    requires ProducerStep(s, s') && k < |s.stage| == |s.blk|
    ensures MovesOn(s, s', k)
  {
    ProducingFrame(s, s');
  }

  /**
   Stages only go forward, one at a time: a block is released once, after its entry is cleared, after
   it is drained.
   */
  lemma StagesGoForward<T(!new)>(run: seq<State<T>>, s': State<T>, k: nat)
    requires IsRun(run) && Next(run[|run| - 1], s') && k < |run[|run| - 1].store.stage|
    ensures MovesOn(run[|run| - 1].store, s'.store, k)
  {
    RunHolds(run);
    var s := run[|run| - 1];
    if ProducingStep(s, s') {
      ProducingMovesOn(s.store, s'.store, k);
    } else {
      var t :| TicketStep(s, s', t) || ClaimStep(s, s', t) || FetchStep(s, s', t);
      if FetchStep(s, s', t) {
        FetchMovesStage(s.store, t, k);
      }
    }
  }

  lemma FetchMovesStage<T>(s: Store<T>, t: Tid, k: nat)
    requires ImplicitProducers.Inv(s) && t in s.consumers && Working(s.consumers[t]) && k < |s.stage|
    ensures Defined(s, t) && Consume(s, t).blk == s.blk && |Consume(s, t).stage| == |s.stage|
    ensures Rank(s.stage[k]) <= Rank(Consume(s, t).stage[k]) <= Rank(s.stage[k]) + 1
  {
    ConsumeKeeps(s, t);
    StageBefore(s, t);
    MoveStage(s, t, k);
  }

  lemma StageBefore<T>(s: Store<T>, t: Tid)
    requires ImplicitProducers.Inv(s) && t in s.consumers
    ensures var pc := s.consumers[t];
            && (pc.Count? ==> pc.i / BLOCK_SIZE < |s.stage| && s.stage[pc.i / BLOCK_SIZE].Live?)
            && (pc.Clear? ==> pc.i / BLOCK_SIZE < |s.stage| && s.stage[pc.i / BLOCK_SIZE].Drained?)
            && (pc.Release? ==> pc.i / BLOCK_SIZE < |s.stage| && s.stage[pc.i / BLOCK_SIZE].Cleared?)
  {
    assert ConsumerOk(s, t, s.consumers[t]);
    if s.consumers[t].Count? {
      ClaimedIsLive(s, s.consumers[t].i);
    }
  }

  lemma MoveStage<T>(s: Store<T>, t: Tid, k: nat)
    requires t in s.consumers && Defined(s, t) && k < |s.stage|
    requires s.consumers[t].Count? ==> s.stage[s.consumers[t].i / BLOCK_SIZE].Live?
    requires s.consumers[t].Clear? ==> s.stage[s.consumers[t].i / BLOCK_SIZE].Drained?
    requires s.consumers[t].Release? ==> s.stage[s.consumers[t].i / BLOCK_SIZE].Cleared?
    ensures var s' := Consume(s, t);
            s'.blk == s.blk && |s'.stage| == |s.stage| && Rank(s.stage[k]) <= Rank(s'.stage[k]) <= Rank(s.stage[k]) + 1
  {
  }

  /**
   The block is drained by exactly the consumer whose count was the 32nd, and all 32 elements have
   been read by then.
   */
  lemma DrainedByLast<T(!new)>(run: seq<State<T>>, s': State<T>, t: Tid)
    requires IsRun(run) && FetchStep(run[|run| - 1], s', t) && run[|run| - 1].store.consumers[t].Count?
    ensures CountDrains(run[|run| - 1].store, s'.store, t)
  {
    RunHolds(run);
    LastCountDrains(run[|run| - 1].store, t);
  }

  /** All elements of block k but i have been finished with. */
  predicate AllButOne(fin: seq<bool>, k: nat, i: nat) {
    && BLOCK_SIZE * k + BLOCK_SIZE <= |fin|
    && forall j | BLOCK_SIZE * k <= j < BLOCK_SIZE * k + BLOCK_SIZE && j < |fin| && j != i :: fin[j]
  }

  /** The count of consumer t leads from s to s', and drains the block if and only if it is the last one. */
  predicate CountDrains<T>(s: Store<T>, s': Store<T>, t: Tid)
    requires t in s.consumers && s.consumers[t].Count?
  {
    var Count(i, _, b, _) := s.consumers[t];
    && i / BLOCK_SIZE < |s'.stage| && b in s.mem && s.mem[b].counter < BLOCK_SIZE
    && (StageOf(s'.stage, i / BLOCK_SIZE, Drained(t)) <==> s.mem[b].counter == BLOCK_SIZE - 1)
    && (s.mem[b].counter == BLOCK_SIZE - 1 <==> AllButOne(s.fin, i / BLOCK_SIZE, i))
  }

  lemma LastCountDrains<T>(s: Store<T>, t: Tid)
    requires ImplicitProducers.Inv(s) && t in s.consumers && s.consumers[t].Count?
    ensures Defined(s, t) && CountDrains(s, Consume(s, t), t)
  {
    var pc := s.consumers[t];
    assert ConsumerOk(s, t, pc);
    CountKeepsData(s, t);
    FinishOne(s.fin, pc.i, pc.i / BLOCK_SIZE);
    OneMoreFills(s.fin, pc.i);
    assert Consume(s, t) == AfterCount(s, t);
  }

  lemma OneMoreFills(fin: seq<bool>, i: nat)
    requires i < |fin| && !fin[i]
    ensures Finished(fin[i := true], i / BLOCK_SIZE) == BLOCK_SIZE <==> AllButOne(fin, i / BLOCK_SIZE, i)
  {
    var k := i / BLOCK_SIZE;
    assert i == BLOCK_SIZE * k + i % BLOCK_SIZE;
    var fin' := fin[i := true];
    FinishedBound(fin', k);
    assert forall j | 0 <= j < |fin| && j != i :: fin'[j] == fin[j];
  }

  /** Every drained block is on its way to the pool: its closer is about to clear its entry or to release it. */
  lemma DrainedIsReleased<T(!new)>(run: seq<State<T>>, k: nat)
    requires IsRun(run) && k < |run[|run| - 1].store.stage|
    ensures var s := run[|run| - 1].store; var st := s.stage[k];
            || st.Live? || st.Released?
            || (st.closer in s.consumers && (s.consumers[st.closer].Clear? || s.consumers[st.closer].Release?)
                && k < |s.blk| && s.consumers[st.closer].b == s.blk[k])
  {
    RunHolds(run);
    var s := run[|run| - 1].store;
    var st := s.stage[k];
    if !st.Live? && !st.Released? {
      assert ConsumerOk(s, st.closer, s.consumers[st.closer]);
    }
  }

  /** enqueue never takes the queue for full, as long as fewer than 2^63 elements are in it. */
  lemma NeverFull<T(!new)>(run: seq<State<T>>)
    requires IsRun(run) && run[|run| - 1].store.producer.CheckFull?
    requires Tickets.Close(|run[|run| - 1].store.fin|, |run[|run| - 1].store.log| + BLOCK_SIZE)
    ensures Produce(run[|run| - 1].store).producer.ProbeKey?
  {
    RunHolds(run);
    var s := run[|run| - 1].store;
    Tickets.CircularLessIsLess(|s.fin|, |s.log| + BLOCK_SIZE);
  }
}

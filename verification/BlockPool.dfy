/**
 The free list and one producer's queue stepping together, with any number of other
 users of the free list. A requisitioned block comes from the list by try_get, from the
 initial pool or from the allocator; a released one is added to the list, or destroyed
 if it was allocated.

 The queue's own machine supposes that a requisitioned block is in nobody's use, and
 the list's that a user only adds a block of its own. Here neither is supposed: whatever
 block the list returns is used, and whatever block the queue releases is added. Every
 run of the two is then a run of each.
 */
module BlockPool {
  import opened BlockIndexes
  import FreeList
  import ImplicitProducers
  import ProducerQueue

  /**
   `spare` is the set of blocks that the initial pool and the allocator may hand out, `heap` that of
   the blocks that are destroyed when they are released.
   */
  datatype State<T> = State(pool: FreeList.State, queue: ProducerQueue.State<T>, spare: set<Block>, heap: set<Block>)

  /** The blocks the queue has. */
  function Used<T>(s: State<T>): set<Block> {
    s.queue.store.mem.Keys
  }

  // ------------------------------------------------------------------------- steps

  /** The producer goes on with block b, whatever is in it. */
  ghost predicate Takes<T(!new)>(q: ProducerQueue.State<T>, q': ProducerQueue.State<T>, b: Block) {
    && q.store.producer.GetBlock? && q'.tickets == q.tickets
    && exists m: ImplicitProducers.Memory<T> ::
         |m.cells| == BLOCK_SIZE && q'.store == ImplicitProducers.WithBlock(q.store, b, m)
  }

  /** A step of the queue in which no block changes hands. */
  ghost predicate QueueStep<T(!new)>(s: State<T>, s': State<T>) {
    ProducerQueue.Next(s.queue, s'.queue) && Used(s') == Used(s) && s' == s.(queue := s'.queue)
  }

  /** try_get returns a block, and the producer goes on with it. */
  ghost predicate TakeStep<T(!new)>(s: State<T>, s': State<T>, t: Tid) {
    && t in s.pool.threads && s.pool.threads[t].GetTaken? && FreeList.Step(s.pool, s'.pool, t)
    && Takes(s.queue, s'.queue, s.pool.threads[t].node) && s' == s.(pool := s'.pool, queue := s'.queue)
  }

  /** The producer gets a block from the initial pool or the allocator. */
  ghost predicate SpareStep<T(!new)>(s: State<T>, s': State<T>, b: Block) {
    b in s.spare && Takes(s.queue, s'.queue, b) && s' == s.(queue := s'.queue, spare := s.spare - {b})
  }

  /** Consumer t is about to release block b. */
  predicate Releases<T>(q: ProducerQueue.State<T>, t: Tid, b: Block) {
    t in q.store.consumers && q.store.consumers[t].Release? && q.store.consumers[t].b == b
  }

  /** A consumer releases a block: its thread starts to add it to the list. */
  ghost predicate ReleaseStep<T>(s: State<T>, s': State<T>, t: Tid, b: Block) {
    && Releases(s.queue, t, b) && ProducerQueue.FetchStep(s.queue, s'.queue, t)
    && b !in s.heap && t in s.pool.threads && s.pool.threads[t].Idle?
    && s' == s.(queue := s'.queue, pool := FreeList.Goto(s.pool, t, FreeList.AddFlag(b)).(out := s.pool.out - {b}))
  }

  /** A consumer releases a block that was allocated: it goes back to the allocator. */
  ghost predicate DestroyStep<T>(s: State<T>, s': State<T>, t: Tid, b: Block) {
    && Releases(s.queue, t, b) && ProducerQueue.FetchStep(s.queue, s'.queue, t)
    && b in s.heap && s' == s.(queue := s'.queue, spare := s.spare + {b})
  }

  /** Another access to the free list. Other users add blocks of their own, and keep what they get. */
  ghost predicate OthersStep<T>(s: State<T>, s': State<T>, t: Tid) {
    FreeList.Step(s.pool, s'.pool, t) && s' == s.(pool := s'.pool) && (s.pool.out - s'.pool.out) !! (Used(s) + s.spare)
  }

  /** Other users get blocks from the initial pool or the allocator, or destroy blocks of their own. */
  ghost predicate OthersSpareStep<T>(s: State<T>, s': State<T>) {
    s' == s.(spare := s'.spare) && s'.spare - s.spare <= s.pool.out - Used(s)
  }

  /** A block changes hands between the queue and the list, the pool or the allocator. */
  ghost predicate BlockStep<T(!new)>(s: State<T>, s': State<T>, t: Tid, b: Block) {
    TakeStep(s, s', t) || SpareStep(s, s', b) || ReleaseStep(s, s', t, b) || DestroyStep(s, s', t, b)
  }

  ghost predicate Next<T(!new)>(s: State<T>, s': State<T>) {
    || QueueStep(s, s')
    || OthersSpareStep(s, s')
    || (exists t :: OthersStep(s, s', t))
    || (exists t, b :: BlockStep(s, s', t, b))
  }

  ghost predicate Init<T>(s: State<T>) {
    FreeList.Init(s.pool) && ProducerQueue.Init(s.queue) && s.spare <= s.pool.out
  }

  ghost predicate StepAt<T(!new)>(run: seq<State<T>>, i: nat)
    requires 0 < i < |run|
  {
    Next(run[i - 1], run[i])
  }

  ghost predicate IsRun<T(!new)>(run: seq<State<T>>) {
    && |run| > 0
    && Init(run[0])
    && forall i | 0 < i < |run| :: StepAt(run, i)
  }

  // -------------------------------------------------------------------- projections

  /** The blocks of the queue and those still to be handed out are different, and the list counts both as out. */
  predicate Apart<T>(s: State<T>) {
    Used(s) !! s.spare && Used(s) + s.spare <= s.pool.out <= s.pool.nodes.Keys
  }

  /** A run of the free list that ends in s, and a run of the queue. */
  ghost predicate Projects<T(!new)>(s: State<T>, ps: seq<FreeList.State>, qs: seq<ProducerQueue.State<T>>) {
    && FreeList.IsRun(ps) && ps[|ps| - 1] == s.pool
    && ProducerQueue.IsRun(qs) && qs[|qs| - 1] == s.queue
  }

  lemma ExtendPool(ps: seq<FreeList.State>, p: FreeList.State, t: Tid)
    requires FreeList.IsRun(ps) && FreeList.Step(ps[|ps| - 1], p, t)
    ensures FreeList.IsRun(ps + [p])
  {
    var more := ps + [p];
    forall i | 0 < i < |more| ensures FreeList.StepAt(more, i) {
      if i < |ps| {
        assert FreeList.StepAt(ps, i);
      }
    }
  }

  lemma ExtendQueue<T(!new)>(qs: seq<ProducerQueue.State<T>>, q: ProducerQueue.State<T>)
    requires ProducerQueue.IsRun(qs) && ProducerQueue.Next(qs[|qs| - 1], q)
    ensures ProducerQueue.IsRun(qs + [q])
  {
    var more := qs + [q];
    forall i | 0 < i < |more| ensures ProducerQueue.StepAt(more, i) {
      if i < |qs| {
        assert ProducerQueue.StepAt(qs, i);
      }
    }
  }

  /** A block that the queue does not have is one it may get. */
  lemma TakesIsStep<T(!new)>(q: ProducerQueue.State<T>, q': ProducerQueue.State<T>, b: Block)
    requires Takes(q, q', b) && b !in q.store.mem
    ensures ProducerQueue.Next(q, q') && q'.store.mem.Keys == q.store.mem.Keys + {b}
  {
    assert ImplicitProducers.GetBlockStep(q.store, q'.store);
    assert ProducerQueue.ProducingStep(q, q');
  }

  lemma QueueStepProjects<T(!new)>(s: State<T>, s': State<T>, ps: seq<FreeList.State>, qs: seq<ProducerQueue.State<T>>)
    requires Projects(s, ps, qs) && Apart(s) && QueueStep(s, s')
    ensures Projects(s', ps, qs + [s'.queue]) && Apart(s')
  {
    ExtendQueue(qs, s'.queue);
  }

  lemma SpareStepProjects<T(!new)>(s: State<T>, s': State<T>, b: Block, ps: seq<FreeList.State>,
                            qs: seq<ProducerQueue.State<T>>)
    requires Projects(s, ps, qs) && Apart(s) && SpareStep(s, s', b)
    ensures Projects(s', ps, qs + [s'.queue]) && Apart(s')
  {
    TakesIsStep(s.queue, s'.queue, b);
    ExtendQueue(qs, s'.queue);
  }

  /** The block that try_get returns is one the queue does not have. */
  lemma TakeStepProjects<T(!new)>(s: State<T>, s': State<T>, t: Tid, ps: seq<FreeList.State>,
                           qs: seq<ProducerQueue.State<T>>)
    requires Projects(s, ps, qs) && Apart(s) && TakeStep(s, s', t)
    ensures s.pool.threads[t].node !in s.pool.out
    ensures Projects(s', ps + [s'.pool], qs + [s'.queue]) && Apart(s')
  {
    FreeList.TryGetGivesToOne(ps, t);
    TakesIsStep(s.queue, s'.queue, s.pool.threads[t].node);
    ExtendPool(ps, s'.pool, t);
    ExtendQueue(qs, s'.queue);
  }

  /** The block that a consumer releases is one the queue has. */
  lemma ReleaseStepProjects<T(!new)>(s: State<T>, s': State<T>, t: Tid, b: Block,
                                     ps: seq<FreeList.State>, qs: seq<ProducerQueue.State<T>>)
    requires Projects(s, ps, qs) && Apart(s) && ReleaseStep(s, s', t, b)
    ensures b in Used(s)
    ensures Projects(s', ps + [s'.pool], qs + [s'.queue]) && Apart(s')
  {
    assert FreeList.Step(s.pool, s'.pool, t);
    ExtendPool(ps, s'.pool, t);
    ExtendQueue(qs, s'.queue);
  }

  lemma DestroyStepProjects<T(!new)>(s: State<T>, s': State<T>, t: Tid, b: Block,
                                     ps: seq<FreeList.State>, qs: seq<ProducerQueue.State<T>>)
    requires Projects(s, ps, qs) && Apart(s) && DestroyStep(s, s', t, b)
    ensures b in Used(s)
    ensures Projects(s', ps, qs + [s'.queue]) && Apart(s')
  {
    ExtendQueue(qs, s'.queue);
  }

  lemma StepKeepsNodes(p: FreeList.State, p': FreeList.State, t: Tid)
    requires FreeList.Step(p, p', t) && p.out <= p.nodes.Keys
    ensures p'.nodes.Keys == p.nodes.Keys && p'.out <= p'.nodes.Keys
  {
  }

  lemma OthersStepProjects<T(!new)>(s: State<T>, s': State<T>, t: Tid, ps: seq<FreeList.State>,
                             qs: seq<ProducerQueue.State<T>>)
    requires Projects(s, ps, qs) && Apart(s) && OthersStep(s, s', t)
    ensures Projects(s', ps + [s'.pool], qs) && Apart(s')
  {
    StepKeepsNodes(s.pool, s'.pool, t);
    ExtendPool(ps, s'.pool, t);
  }

  lemma OthersSpareKeepsApart<T>(s: State<T>, s': State<T>)
    requires Apart(s) && OthersSpareStep(s, s')
    ensures Apart(s')
  {
    forall b | b in s'.spare ensures b in s.pool.out && b !in Used(s) {
      assert b in s.spare || b in s'.spare - s.spare;
    }
  }

  lemma BlockStepProjects<T(!new)>(s: State<T>, s': State<T>, t: Tid, b: Block, ps: seq<FreeList.State>,
                            qs: seq<ProducerQueue.State<T>>)
    returns (ps': seq<FreeList.State>)
    requires Projects(s, ps, qs) && Apart(s) && BlockStep(s, s', t, b)
    ensures Projects(s', ps', qs + [s'.queue]) && Apart(s')
  {
    ps' := ps;
    if TakeStep(s, s', t) {
      ps' := ps + [s'.pool];
      TakeStepProjects(s, s', t, ps, qs);
    } else if SpareStep(s, s', b) {
      SpareStepProjects(s, s', b, ps, qs);
    } else if ReleaseStep(s, s', t, b) {
      ps' := ps + [s'.pool];
      ReleaseStepProjects(s, s', t, b, ps, qs);
    } else {
      DestroyStepProjects(s, s', t, b, ps, qs);
    }
  }

  lemma StepProjects<T(!new)>(s: State<T>, s': State<T>, ps: seq<FreeList.State>, qs: seq<ProducerQueue.State<T>>)
    returns (ps': seq<FreeList.State>, qs': seq<ProducerQueue.State<T>>)
    requires Projects(s, ps, qs) && Apart(s) && Next(s, s')
    ensures Projects(s', ps', qs') && Apart(s')
  {
    ps', qs' := ps, qs;
    if QueueStep(s, s') {
      qs' := qs + [s'.queue];
      QueueStepProjects(s, s', ps, qs);
    } else if OthersSpareStep(s, s') {
      OthersSpareKeepsApart(s, s');
    } else if t :| OthersStep(s, s', t) {
      ps' := ps + [s'.pool];
      OthersStepProjects(s, s', t, ps, qs);
    } else {
      var t, b :| BlockStep(s, s', t, b);
      qs' := qs + [s'.queue];
      ps' := BlockStepProjects(s, s', t, b, ps, qs);
    }
  }

  // ---------------------------------------------------------------------- theorems

  /**
   Every run of the two is a run of the free list and a run of the queue, so that what holds of the
   runs of either holds here, with nothing supposed about the blocks they exchange.
   */
  lemma {:induction false} RunProjects<T(!new)>(run: seq<State<T>>, k: nat)
    returns (ps: seq<FreeList.State>, qs: seq<ProducerQueue.State<T>>)
    requires IsRun(run) && k < |run|
    ensures Projects(run[k], ps, qs) && Apart(run[k])
  {
    if k == 0 {
      ps, qs := [run[0].pool], [run[0].queue];
    } else {
      ps, qs := RunProjects(run, k - 1);
      assert StepAt(run, k);
      ps, qs := StepProjects(run[k - 1], run[k], ps, qs);
    }
  }

  /** A block that is requisitioned is new to the queue. */
  lemma RequisitionedIsNew<T(!new)>(run: seq<State<T>>, s': State<T>, t: Tid)
    requires IsRun(run) && TakeStep(run[|run| - 1], s', t)
    ensures var s := run[|run| - 1];
            s.pool.threads[t].node !in Used(s) && s.pool.threads[t].node !in s.spare
              && ProducerQueue.Next(s.queue, s'.queue)
  {
    var ps, qs := RunProjects(run, |run| - 1);
    var s := run[|run| - 1];
    TakeStepProjects(s, s', t, ps, qs);
    TakesIsStep(s.queue, s'.queue, s.pool.threads[t].node);
  }

  /** No block is on the free list while the queue has it. */
  lemma ListedIsNotUsed<T(!new)>(run: seq<State<T>>)
    requires IsRun(run)
    ensures var s := run[|run| - 1];
            exists list :: FreeList.IsChain(s.pool.head, s.pool.nodes, list) && forall b | b in list :: b !in Used(s)
  {
    var ps, qs := RunProjects(run, |run| - 1);
    FreeList.ListHoldsNoBlockTwice(ps);
    var s := run[|run| - 1];
    var list :| FreeList.IsChain(s.pool.head, s.pool.nodes, list) && forall b | b in list :: b !in s.pool.out;
    assert forall b | b in list :: b !in Used(s);
  }

  /** What a dequeue has read is what was enqueued at its index, although blocks go round through the free list. */
  lemma DeliveredIsEnqueued<T(!new)>(run: seq<State<T>>, i: nat)
    requires IsRun(run) && i in run[|run| - 1].queue.store.delivered
    ensures var s := run[|run| - 1].queue.store; i < |s.fin| && i < |s.log| && s.delivered[i] == s.log[i]
  {
    var ps, qs := RunProjects(run, |run| - 1);
    ProducerQueue.RunHolds(qs);
  }
}

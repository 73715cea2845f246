/**
 What enqueue and try_dequeue achieve: a thread that steps alone from any reachable state.
 A consumer in a queue with an element takes the element at the front and comes back with
 it. The producer gets its element into the queue, whether or not it needs a new block or a
 larger index, if memory can be had; and whenever enqueue refuses an element, memory could
 not be had.
 */
module QueueProgress {
  import opened Options
  import opened BlockIndexes
  import opened ImplicitProducers
  import opened ProducerQueue
  import Tickets

  // ------------------------------------------------------------------------ dequeue

  /** A step of consumer t. */
  ghost predicate OwnStep<T>(s: State<T>, s': State<T>, t: Tid) {
    TicketStep(s, s', t) || ClaimStep(s, s', t) || FetchStep(s, s', t)
  }

  ghost predicate OwnStepAt<T>(path: seq<State<T>>, i: nat, t: Tid)
    requires 0 < i < |path|
  {
    OwnStep(path[i - 1], path[i], t)
  }

  /** The states from s to d that consumer t goes through when it steps alone. */
  ghost predicate IsPath<T>(path: seq<State<T>>, s: State<T>, d: State<T>, t: Tid) {
    |path| > 0 && path[0] == s && path[|path| - 1] == d && forall i | 0 < i < |path| :: OwnStepAt(path, i, t)
  }

  /** Consumer t, stepping alone, gets from s to d. */
  ghost predicate Leads<T(!new)>(s: State<T>, d: State<T>, t: Tid) {
    exists path :: IsPath(path, s, d, t)
  }

  lemma LeadsNowhere<T(!new)>(s: State<T>, t: Tid)
    ensures Leads(s, s, t)
  {
    assert IsPath([s], s, s, t);
  }

  lemma LeadsOn<T(!new)>(s: State<T>, s': State<T>, d: State<T>, t: Tid)
    requires OwnStep(s, s', t) && Leads(s', d, t)
    ensures Leads(s, d, t)
  {
    var path :| IsPath(path, s', d, t);
    var more := [s] + path;
    forall i | 0 < i < |more| ensures OwnStepAt(more, i, t) {
      if i > 1 {
        assert OwnStepAt(path, i - 1, t);
      }
    }
    assert IsPath(more, s, d, t);
  }

  /** One path after the other. */
  lemma {:induction false} LeadsThrough<T(!new)>(path: seq<State<T>>, s: State<T>, m: State<T>, d: State<T>, t: Tid)
    requires IsPath(path, s, m, t) && Leads(m, d, t)
    ensures Leads(s, d, t)
    decreases |path|
  {
    if |path| > 1 {
      var rest := path[1..];
      assert OwnStepAt(path, 1, t);
      forall i | 0 < i < |rest| ensures OwnStepAt(rest, i, t) {
        assert OwnStepAt(path, i + 1, t);
      }
      LeadsThrough(rest, path[1], m, d, t);
      LeadsOn(s, path[1], d, t);
    }
  }

  lemma LeadsTogether<T(!new)>(s: State<T>, m: State<T>, d: State<T>, t: Tid)
    requires Leads(s, m, t) && Leads(m, d, t)
    ensures Leads(s, d, t)
  {
    var path :| IsPath(path, s, m, t);
    LeadsThrough(path, s, m, d, t);
  }

  /** The accesses left to a consumer of the ticket protocol until it claims. */
  function TicketsLeft(pc: Tickets.Pc): nat {
    match pc
    case Out => 6
    case LoadTail => 5
    case LoadOvercommit(_) => 4
    case LoadCount(_, _) => 3
    case Take(_) => 2
    case Recheck(_, _) => 1
    case _ => 0
  }

  /** Consumer t is in the ticket protocol, and an element is there for it. */
  ghost predicate Heading<T>(s: State<T>, t: Tid) {
    && ProducerQueue.Inv(s) && Tickets.OnItsWay(s.tickets, t)
    && t in s.store.consumers && !Working(s.store.consumers[t])
  }

  lemma TicketMoves<T>(s: State<T>, t: Tid) returns (s': State<T>)
    requires Heading(s, t) && !s.tickets.threads[t].Claim?
    ensures OwnStep(s, s', t) && Heading(s', t) && s'.store == s.store
    ensures TicketsLeft(s'.tickets.threads[t]) < TicketsLeft(s.tickets.threads[t])
  {
    s' := s.(tickets := Tickets.Access(s.tickets, t));
    Tickets.OnItsWayStep(s.tickets, t);
    assert TicketStep(s, s', t);
    TicketStepKeeps(s, s', t);
  }

  /** The protocol goes through without fail when an element is there and no ticket is out. */
  lemma ReachesClaim<T(!new)>(s: State<T>, t: Tid) returns (c: State<T>)
    requires Heading(s, t)
    ensures Leads(s, c, t) && Heading(c, t) && c.store == s.store && c.tickets.threads[t].Claim?
    decreases TicketsLeft(s.tickets.threads[t])
  {
    if s.tickets.threads[t].Claim? {
      c := s;
      LeadsNowhere(s, t);
    } else {
      var s' := TicketMoves(s, t);
      c := ReachesClaim(s', t);
      LeadsOn(s, s', c, t);
    }
  }

  /** The accesses left to a consumer that has claimed an index. */
  function FetchLeft<T>(pc: Consumer<T>): nat {
    match pc
    case LoadIndex(_) => 8
    case LoadTail(_, _) => 7
    case LoadKey(_, _, _, _) => 6
    case LoadValue(_, _) => 5
    case Read(_, _, _) => 4
    case Count(_, _, _, _) => 3
    case Clear(_, _, _, _) => 2
    case Release(_, _, _) => 1
    case _ => 0
  }

  /** Each access takes it further, with its own index. */
  lemma UseGoesOn<T>(s: Store<T>, t: Tid)
    requires t in s.consumers && Working(s.consumers[t]) && Defined(s, t)
    requires s.consumers[t].Read? || s.consumers[t].Count? || s.consumers[t].Clear? || s.consumers[t].Release?
    ensures t in Consume(s, t).consumers && !Consume(s, t).consumers[t].Away?
    ensures Consume(s, t).consumers[t].i == s.consumers[t].i
    ensures FetchLeft(Consume(s, t).consumers[t]) < FetchLeft(s.consumers[t])
  {
  }

  lemma FetchGoesOn<T>(s: Store<T>, t: Tid)
    requires t in s.consumers && Working(s.consumers[t]) && Defined(s, t)
    ensures t in Consume(s, t).consumers && !Consume(s, t).consumers[t].Away?
    ensures Consume(s, t).consumers[t].i == s.consumers[t].i
    ensures FetchLeft(Consume(s, t).consumers[t]) < FetchLeft(s.consumers[t])
  {
    if s.consumers[t].Read? || s.consumers[t].Count? || s.consumers[t].Clear? || s.consumers[t].Release? {
      UseGoesOn(s, t);
    }
  }

  /** Consumer t has claimed index i. */
  ghost predicate Fetching<T>(s: State<T>, t: Tid, i: nat) {
    ProducerQueue.Inv(s) && t in s.store.consumers && !s.store.consumers[t].Away? && s.store.consumers[t].i == i
  }

  lemma FetchMoves<T>(s: State<T>, t: Tid, i: nat) returns (s': State<T>)
    requires Fetching(s, t, i) && !s.store.consumers[t].Done?
    ensures OwnStep(s, s', t) && Fetching(s', t, i)
    ensures s'.store.log == s.store.log && |s'.store.fin| == |s.store.fin|
    ensures FetchLeft(s'.store.consumers[t]) < FetchLeft(s.store.consumers[t])
  {
    ConsumeKeeps(s.store, t);
    s' := s.(store := Consume(s.store, t));
    assert FetchStep(s, s', t);
    FetchStepKeeps(s, s', t);
    FetchGoesOn(s.store, t);
    FetchChangesNoIndex(s.store, t);
  }

  lemma DoneHasElement<T>(s: State<T>, t: Tid, i: nat)
    requires Fetching(s, t, i) && s.store.consumers[t].Done?
    ensures i < |s.store.log| && s.store.consumers[t] == Done(i, s.store.log[i])
  {
    assert ConsumerOk(s.store, t, s.store.consumers[t]);
  }

  /** A consumer that has claimed an index comes back with the element enqueued there. */
  lemma ReachesDone<T(!new)>(s: State<T>, t: Tid, i: nat) returns (d: State<T>)
    requires Fetching(s, t, i)
    ensures Leads(s, d, t) && d.store.log == s.store.log && |d.store.fin| == |s.store.fin|
    ensures t in d.store.consumers && i < |s.store.log| && d.store.consumers[t] == Done(i, s.store.log[i])
    decreases FetchLeft(s.store.consumers[t])
  {
    if s.store.consumers[t].Done? {
      DoneHasElement(s, t, i);
      d := s;
      LeadsNowhere(s, t);
    } else {
      var s' := FetchMoves(s, t, i);
      d := ReachesDone(s', t, i);
      LeadsOn(s, s', d, t);
    }
  }

  /** Dequeues that are in progress have no ticket in their hands, and the element at the front waits. */
  ghost predicate ElementWaits<T>(s: State<T>) {
    && Tickets.NoTicketHeld(s.tickets)
    && |s.store.fin| < |s.store.log| && Tickets.Close(|s.store.fin|, |s.store.log|)
  }

  /** The part of a run that the ticket protocol sees. */
  lemma {:induction false} TicketsAreHeld<T(!new)>(run: seq<State<T>>, k: nat)
    requires IsRun(run) && k < |run|
    ensures ProducerQueue.Inv(run[k]) && Tickets.TicketsHeld(run[k].tickets)
  {
    ProducerQueue.InvAt(run, k);
    if k > 0 {
      TicketsAreHeld(run, k - 1);
      TicketsStayHeld(run, k);
    }
  }

  lemma TicketsStayHeld<T(!new)>(run: seq<State<T>>, k: nat)
    requires IsRun(run) && 0 < k < |run|
    requires ProducerQueue.Inv(run[k - 1]) && Tickets.TicketsHeld(run[k - 1].tickets)
    ensures Tickets.TicketsHeld(run[k].tickets)
  {
    assert StepAt(run, k);
    var s, s' := run[k - 1], run[k];
    if ProducingStep(s, s') {
      Tickets.PublishKeepsHeld(s.tickets);
    } else {
      var t :| TicketStep(s, s', t) || ClaimStep(s, s', t) || FetchStep(s, s', t);
      if TicketStep(s, s', t) || ClaimStep(s, s', t) {
        Tickets.ConsumerStepKeepsHeld(s.tickets, t);
      }
    }
  }

  lemma StartsOnItsWay<T(!new)>(run: seq<State<T>>, t: Tid)
    requires IsRun(run) && ElementWaits(run[|run| - 1])
    requires var s := run[|run| - 1]; t in s.tickets.threads && s.tickets.threads[t].Out?
    ensures Tickets.OnItsWay(run[|run| - 1].tickets, t) && ProducerQueue.Inv(run[|run| - 1])
  {
    TicketsAreHeld(run, |run| - 1);
    Tickets.RestingCount(run[|run| - 1].tickets);
  }

  /** The claim takes the index of the front. */
  lemma ClaimsFront<T(!new)>(c: State<T>, t: Tid) returns (d: State<T>)
    requires Heading(c, t) && c.tickets.threads[t].Claim?
    ensures Leads(c, d, t) && Fetching(d, t, |c.store.fin|)
    ensures d.store.log == c.store.log && |d.store.fin| == |c.store.fin| + 1 <= |d.store.log|
  {
    assert Tickets.ThreadOk(c.tickets, c.tickets.threads[t]);
    d := State(Tickets.Access(c.tickets, t), Claim(c.store, t));
    assert ClaimStep(c, d, t);
    ClaimStepKeeps(c, d, t);
    LeadsNowhere(d, t);
    LeadsOn(c, d, d, t);
  }

  lemma DequeuesFront<T(!new)>(s: State<T>, t: Tid) returns (d: State<T>)
    requires Heading(s, t)
    ensures Leads(s, d, t)
    ensures d.store.log == s.store.log && |d.store.fin| == |s.store.fin| + 1 <= |s.store.log|
    ensures t in d.store.consumers && d.store.consumers[t] == Done(|s.store.fin|, s.store.log[|s.store.fin|])
  {
    var c := ReachesClaim(s, t);
    var f := ClaimsFront(c, t);
    d := ReachesDone(f, t, |s.store.fin|);
    LeadsTogether(c, f, d, t);
    LeadsTogether(s, c, d, t);
  }

  /**
   From every reachable state in which an element is in the queue and no ticket is in a consumer's hands,
   a consumer that steps alone dequeues the element at the front.
   */
  lemma DequeueSucceedsAlone<T(!new)>(run: seq<State<T>>, t: Tid) returns (d: State<T>)
    requires IsRun(run) && ElementWaits(run[|run| - 1])
    requires var s := run[|run| - 1];
             t in s.tickets.threads && s.tickets.threads[t].Out? && t in s.store.consumers
               && !Working(s.store.consumers[t])
    ensures |run[|run| - 1].store.fin| < |run[|run| - 1].store.log|
    ensures Leads(run[|run| - 1], d, t)
    ensures var s := run[|run| - 1];
            && |d.store.fin| <= |d.store.log| && Queue(d) == Queue(s)[1..]
            && t in d.store.consumers && d.store.consumers[t] == Done(|s.store.fin|, Queue(s)[0])
  {
    StartsOnItsWay(run, t);
    d := DequeuesFront(run[|run| - 1], t);
  }

  // ------------------------------------------------------------------------ enqueue

  /** What enqueue needs from outside: a block that it may be given, and room for the index to grow. */
  ghost predicate MemoryCanBeHad<T>(s: Store<T>, b: Block, m: Memory<T>) {
    && b !in s.mem && |m.cells| == BLOCK_SIZE
    && |s.headers| > 0 && 2 * |Current(s).index| <= MAX_CAPACITY
    && Tickets.Close(|s.fin|, |s.log| + BLOCK_SIZE)
  }

  /** The accesses left to a call of enqueue until its element is in the queue. */
  function EnqueueLeft<T>(p: Producer<T>): nat {
    match p
    case CheckFull(_) => 11
    case ProbeKey(_) => 10
    case ProbeValue(_) => 9
    case Grow(_) => 8
    case SetKey(_, _) => 7
    case SetTail(_, _) => 6
    case GetBlock(_, _) => 5
    case ResetCounter(_, _, _) => 4
    case SetValue(_, _, _) => 3
    case Write(_) => 2
    case Publish(_) => 1
    case _ => 0
  }

  /** The call that enqueues x is under way, and what it still needs from outside can be had. */
  ghost predicate Enqueuing<T>(s: Store<T>, x: T, b: Block, m: Memory<T>) {
    && ImplicitProducers.Inv(s)
    && !s.producer.Resting? && !s.producer.Rewind? && !s.producer.ClearValue? && s.producer.x == x
    && (EnqueueLeft(s.producer) >= 5 ==> b !in s.mem && |m.cells| == BLOCK_SIZE)
    && (EnqueueLeft(s.producer) >= 8 ==> 2 * |Current(s).index| <= MAX_CAPACITY)
    && (s.producer.CheckFull? ==> Tickets.Close(|s.fin|, |s.log| + BLOCK_SIZE))
  }

  /** What the producer does next if memory can be had. */
  function Produced<T>(s: Store<T>, b: Block, m: Memory<T>): Store<T>
    requires ProducerDefined(s) && (s.producer.Grow? ==> |s.headers| > 0 && Current(s).tail < |Current(s).index|)
  {
    if s.producer.Grow? then Grown(s, seq(|Current(s).index|, _ => None))
    else if s.producer.GetBlock? then WithBlock(s, b, m)
    else Produce(s)
  }

  lemma GrowMoves<T(!new)>(s: Store<T>, x: T, b: Block, m: Memory<T>)
    requires Enqueuing(s, x, b, m) && s.producer.Grow?
    ensures ProducerDefined(s) && Current(s).tail < |Current(s).index|
    ensures ProducerStep(s, Produced(s, b, m)) && Enqueuing(Produced(s, b, m), x, b, m)
    ensures Produced(s, b, m).log == s.log && Produced(s, b, m).fin == s.fin
    ensures EnqueueLeft(Produced(s, b, m).producer) < EnqueueLeft(s.producer)
  {
    var values := seq(|Current(s).index|, _ => None);
    GrowKeeps(s, values);
    assert GrowStep(s, Grown(s, values));
  }

  lemma GetBlockMoves<T(!new)>(s: Store<T>, x: T, b: Block, m: Memory<T>)
    requires Enqueuing(s, x, b, m) && s.producer.GetBlock?
    ensures ProducerDefined(s)
    ensures ProducerStep(s, Produced(s, b, m)) && Enqueuing(Produced(s, b, m), x, b, m)
    ensures Produced(s, b, m).log == s.log && Produced(s, b, m).fin == s.fin
    ensures EnqueueLeft(Produced(s, b, m).producer) < EnqueueLeft(s.producer)
  {
    GetBlockKeeps(s, b, m);
    assert GetBlockStep(s, WithBlock(s, b, m));
  }

  /** Where an access that leaves the producer no choice takes a call, and what it leaves alone. */
  ghost predicate MovesOn<T>(s: Store<T>, s': Store<T>) {
    && EnqueueLeft(s'.producer) < EnqueueLeft(s.producer)
    && !s'.producer.Resting? && !s'.producer.Rewind? && !s'.producer.ClearValue? && !s'.producer.CheckFull?
    && s'.producer.x == s.producer.x && s'.log == s.log && s'.fin == s.fin
    && (EnqueueLeft(s'.producer) >= 5 ==> s'.mem == s.mem)
    && (EnqueueLeft(s'.producer) >= 8 ==> s'.headers == s.headers)
  }

  /** The queue is not full. */
  lemma CheckFullMoves<T>(s: Store<T>)
    requires s.producer.CheckFull? && Tickets.Close(|s.fin|, |s.log| + BLOCK_SIZE) && |s.fin| <= |s.log|
    ensures ProducerDefined(s) && MovesOn(s, Produce(s))
  {
    Tickets.CircularLessIsLess(|s.fin|, |s.log| + BLOCK_SIZE);
  }

  /** The next index entry is taken if it is free, and else the index is to grow. */
  lemma ProbeMoves<T>(s: Store<T>)
    requires ProducerDefined(s) && (s.producer.ProbeKey? || s.producer.ProbeValue?)
    ensures MovesOn(s, Produce(s))
  {
  }

  /** The entry gets its key, and the tail moves. */
  lemma IndexMoves<T>(s: Store<T>)
    requires ProducerDefined(s) && (s.producer.SetKey? || s.producer.SetTail?)
    ensures MovesOn(s, Produce(s))
  {
  }

  /** The block goes into the index, and the element into the block. */
  lemma FillMoves<T>(s: Store<T>)
    requires ProducerDefined(s) && (s.producer.ResetCounter? || s.producer.SetValue? || s.producer.Write?)
    ensures MovesOn(s, Produce(s))
  {
  }

  lemma ProduceMoves<T(!new)>(s: Store<T>, x: T, b: Block, m: Memory<T>)
    requires Enqueuing(s, x, b, m) && EnqueueLeft(s.producer) >= 2 && !s.producer.Grow? && !s.producer.GetBlock?
    ensures ProducerDefined(s) && MovesOn(s, Produce(s))
  {
    ProduceKeeps(s);
    if s.producer.CheckFull? {
      CheckFullMoves(s);
    } else if s.producer.ProbeKey? || s.producer.ProbeValue? {
      ProbeMoves(s);
    } else if s.producer.SetKey? || s.producer.SetTail? {
      IndexMoves(s);
    } else {
      FillMoves(s);
    }
  }

  lemma ProduceGoesOn<T(!new)>(s: Store<T>, x: T, b: Block, m: Memory<T>)
    requires Enqueuing(s, x, b, m) && EnqueueLeft(s.producer) >= 2 && !s.producer.Grow? && !s.producer.GetBlock?
    ensures ProducerDefined(s)
    ensures ProducerStep(s, Produced(s, b, m)) && Enqueuing(Produced(s, b, m), x, b, m)
    ensures Produced(s, b, m).log == s.log && Produced(s, b, m).fin == s.fin
    ensures EnqueueLeft(Produced(s, b, m).producer) < EnqueueLeft(s.producer)
  {
    ProduceKeeps(s);
    ProduceMoves(s, x, b, m);
    assert ProduceStep(s, Produce(s));
  }

  lemma EnqueueMoves<T(!new)>(s: Store<T>, x: T, b: Block, m: Memory<T>) returns (s': Store<T>)
    requires Enqueuing(s, x, b, m) && !s.producer.Publish?
    ensures ProducerStep(s, s') && Enqueuing(s', x, b, m) && s'.log == s.log && s'.fin == s.fin
    ensures EnqueueLeft(s'.producer) < EnqueueLeft(s.producer)
  {
    if s.producer.Grow? {
      GrowMoves(s, x, b, m);
    } else if s.producer.GetBlock? {
      GetBlockMoves(s, x, b, m);
    } else {
      ProduceGoesOn(s, x, b, m);
    }
    s' := Produced(s, b, m);
  }

  ghost predicate ProducerStepAt<T(!new)>(path: seq<Store<T>>, i: nat)
    requires 0 < i < |path|
  {
    ProducerStep(path[i - 1], path[i])
  }

  /** The states from s to d that the producer goes through when it steps alone. */
  ghost predicate IsProducing<T(!new)>(path: seq<Store<T>>, s: Store<T>, d: Store<T>) {
    |path| > 0 && path[0] == s && path[|path| - 1] == d && forall i | 0 < i < |path| :: ProducerStepAt(path, i)
  }

  /** The producer, stepping alone, gets from s to d. */
  ghost predicate Produces<T(!new)>(s: Store<T>, d: Store<T>) {
    exists path :: IsProducing(path, s, d)
  }

  lemma ProducesOn<T(!new)>(s: Store<T>, s': Store<T>, d: Store<T>)
    requires ProducerStep(s, s') && Produces(s', d)
    ensures Produces(s, d)
  {
    var path :| IsProducing(path, s', d);
    var more := [s] + path;
    forall i | 0 < i < |more| ensures ProducerStepAt(more, i) {
      if i > 1 {
        assert ProducerStepAt(path, i - 1);
      }
    }
    assert IsProducing(more, s, d);
  }

  lemma Publishes<T(!new)>(s: Store<T>, x: T, b: Block, m: Memory<T>) returns (d: Store<T>)
    requires Enqueuing(s, x, b, m) && s.producer.Publish?
    ensures Produces(s, d) && d.log == s.log + [x] && d.fin == s.fin && d.producer.Resting?
  {
    d := Produce(s);
    assert ProducerStep(s, d);
    assert IsProducing([d], d, d);
    ProducesOn(s, d, d);
  }

  /** A call under way ends with its element in the queue. */
  lemma ReachesRest<T(!new)>(s: Store<T>, x: T, b: Block, m: Memory<T>) returns (d: Store<T>)
    requires Enqueuing(s, x, b, m)
    ensures Produces(s, d) && d.log == s.log + [x] && d.fin == s.fin && d.producer.Resting?
    decreases EnqueueLeft(s.producer)
  {
    if s.producer.Publish? {
      d := Publishes(s, x, b, m);
    } else {
      var s' := EnqueueMoves(s, x, b, m);
      d := ReachesRest(s', x, b, m);
      ProducesOn(s, s', d);
    }
  }

  lemma EnqueueBegins<T(!new)>(s: Store<T>, x: T, b: Block, m: Memory<T>)
    requires ImplicitProducers.Inv(s) && s.producer.Resting? && MemoryCanBeHad(s, b, m)
    ensures ProducerStep(s, Begin(s, x)) && Enqueuing(Begin(s, x), x, b, m)
    ensures Begin(s, x).log == s.log && Begin(s, x).fin == s.fin
  {
    assert BeginStep(s, Begin(s, x));
    BeginKeeps(s, Begin(s, x));
  }

  /**
   From every reachable state in which the producer rests, a call of enqueue puts its element at the end of
   the queue, whether the last block has room or a new one is needed, and whether the index has a free entry
   or has to grow, if a block and memory for the index can be had.
   */
  lemma EnqueueSucceedsAlone<T(!new)>(run: seq<State<T>>, x: T, b: Block, m: Memory<T>) returns (d: Store<T>)
    requires IsRun(run) && run[|run| - 1].store.producer.Resting? && MemoryCanBeHad(run[|run| - 1].store, b, m)
    ensures Produces(run[|run| - 1].store, d) && d.producer.Resting?
    ensures d.log == run[|run| - 1].store.log + [x] && d.fin == run[|run| - 1].store.fin
    ensures |run[|run| - 1].store.fin| <= |run[|run| - 1].store.log|
    ensures d.log[|d.fin|..] == Queue(run[|run| - 1]) + [x]
  {
    var s := run[|run| - 1].store;
    LogIsLonger(run);
    ProducerQueue.RunHolds(run);
    EnqueueBegins(s, x, b, m);
    d := ReachesRest(Begin(s, x), x, b, m);
    ProducesOn(s, Begin(s, x), d);
  }

  // ----------------------------------------------------------------- when enqueue fails

  /** The step is a request for memory that is refused. */
  predicate MemoryRefused<T>(s: Store<T>, s': Store<T>) {
    (s.producer.Grow? && s'.producer.Resting?) || (s.producer.GetBlock? && s'.producer.Rewind?)
  }

  ghost predicate CallAt<T>(run: seq<State<T>>, j: nat, k: nat) {
    j <= k < |run| && forall i | j <= i <= k :: !run[i].store.producer.Resting?
  }

  /** During the call that is under way at state k, memory has been refused. */
  ghost predicate RefusedInCall<T>(run: seq<State<T>>, j: nat, k: nat) {
    0 < j <= k < |run| && MemoryRefused(run[j - 1].store, run[j].store) && CallAt(run, j, k)
  }

  lemma RefusalIsRecent<T(!new)>(s: State<T>, s': State<T>)
    requires Next(s, s') && (s'.store.producer.Rewind? || s'.store.producer.ClearValue?)
    ensures MemoryRefused(s.store, s'.store) || s.store.producer.Rewind? || s.store.producer.ClearValue?
  {
    if ProducingStep(s, s') {
      assert ProducerStep(s.store, s'.store);
    } else {
      var t :| TicketStep(s, s', t) || ClaimStep(s, s', t) || FetchStep(s, s', t);
      ConsumersLeaveProducer(s, s', t);
    }
  }

  lemma ConsumersLeaveProducer<T>(s: State<T>, s': State<T>, t: Tid)
    requires TicketStep(s, s', t) || ClaimStep(s, s', t) || FetchStep(s, s', t)
    ensures s'.store.producer == s.store.producer && s'.store.log == s.store.log
  {
  }

  lemma {:induction false} RewindWasRefused<T(!new)>(run: seq<State<T>>, k: nat) returns (j: nat)
    requires IsRun(run) && k < |run| && (run[k].store.producer.Rewind? || run[k].store.producer.ClearValue?)
    ensures RefusedInCall(run, j, k)
  {
    j := k;
    if k > 0 {
      RefusalIsRecentAt(run, k);
      if !MemoryRefused(run[k - 1].store, run[k].store) {
        j := RewindWasRefused(run, k - 1);
      }
    }
  }

  lemma RefusalIsRecentAt<T(!new)>(run: seq<State<T>>, k: nat)
    requires IsRun(run) && 0 < k < |run| && (run[k].store.producer.Rewind? || run[k].store.producer.ClearValue?)
    ensures var s := run[k - 1].store;
            MemoryRefused(s, run[k].store) || s.producer.Rewind? || s.producer.ClearValue?
  {
    assert StepAt(run, k);
    RefusalIsRecent(run[k - 1], run[k]);
  }

  /** The accesses without a choice that bring a call to rest. */
  lemma ProduceRests<T>(s: Store<T>)
    requires ProducerDefined(s) && !s.producer.Resting? && !s.producer.Grow? && !s.producer.GetBlock?
    requires Produce(s).producer.Resting? && Produce(s).log == s.log && |s.fin| <= |s.log|
    requires Tickets.Close(|s.fin|, |s.log| + BLOCK_SIZE)
    ensures s.producer.ClearValue?
  {
    Tickets.CircularLessIsLess(|s.fin|, |s.log| + BLOCK_SIZE);
  }

  lemma RestsFor<T(!new)>(s: State<T>, s': State<T>)
    requires |s.store.fin| <= |s.store.log| && Next(s, s') && !s.store.producer.Resting? && s'.store.producer.Resting?
    requires s'.store.log == s.store.log && Tickets.Close(|s.store.fin|, |s.store.log| + BLOCK_SIZE)
    ensures s.store.producer.Grow? || s.store.producer.ClearValue?
  {
    if ProducingStep(s, s') {
      if ProduceStep(s.store, s'.store) {
        ProduceRests(s.store);
      }
    } else {
      var t :| TicketStep(s, s', t) || ClaimStep(s, s', t) || FetchStep(s, s', t);
      ConsumersLeaveProducer(s, s', t);
    }
  }

  /**
   A call of enqueue that comes to rest without its element in the queue has been refused memory: for a
   larger index just now, or for a block earlier in the call. No other branch gives up, as long as fewer
   than 2^63 elements are in the queue.
   */
  lemma EnqueueFailsForMemory<T(!new)>(run: seq<State<T>>, s': State<T>) returns (j: nat)
    requires IsRun(run) && Next(run[|run| - 1], s')
    requires !run[|run| - 1].store.producer.Resting? && s'.store.producer.Resting?
    requires s'.store.log == run[|run| - 1].store.log
    requires Tickets.Close(|run[|run| - 1].store.fin|, |run[|run| - 1].store.log| + BLOCK_SIZE)
    ensures MemoryRefused(run[|run| - 1].store, s'.store) || RefusedInCall(run, j, |run| - 1)
  {
    LogIsLonger(run);
    RestsFor(run[|run| - 1], s');
    j := 0;
    if run[|run| - 1].store.producer.ClearValue? {
      j := RewindWasRefused(run, |run| - 1);
    }
  }

  lemma LogIsLonger<T(!new)>(run: seq<State<T>>)
    requires IsRun(run)
    ensures |run[|run| - 1].store.fin| <= |run[|run| - 1].store.log|
  {
    ProducerQueue.RunHolds(run);
  }
}

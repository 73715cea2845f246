/**
 Two-phase commit among the nodes: any number of concurrent coordinators (put and
 put3), the participants' handlers, and a network that may lose or delay requests
 and replies. A request is answered by its own reply or fails; a request that has
 failed may still take effect later.

 A coordinator asks its participants one after the other, in any order. A step is
 one message sent or received, one critical section of `pending_mtx`, or the
 application of a transaction to a table under its stripes (module NodeLocks).
 Nodes are 0 .. n - 1, and a node starts fewer than 2^32 transactions.
 */
module TwoPhaseCommit {
  import opened Options
  import opened Placement
  import WireFormat

  /** Transaction tx at a node. */
  datatype At = At(tx: TxId, node: nat)

  /** A call of put or put3 at a node, with the participants' shares. */
  datatype Batch = Batch(node: nat, kvs: seq<KV>, shares: map<nat, seq<KV>>)

  datatype Phase =
    | Staging                                                        // before the local prepare
    | Preparing(todo: set<nat>, waiting: Option<nat>)                // participants to be asked, and the one asked
    | Finishing(commit: bool, todo: set<nat>, waiting: Option<nat>)  // participants to be told, and the one told
    | Applying                                                       // in the local handle_commit
    | Returned(commit: bool)

  datatype Coordinator = Coordinator(voted: set<nat>, phase: Phase)

  /**
   `pending` and `tables` are the nodes' state; `taken` holds what handle_commit has moved out of
   `pending`. `prepares`, `commits` and `aborts` are requests in flight, `yes` and `told` replies.
   `batches`, `applied` (per node, in order) and `order` (of the decisions to commit) are history.
   */
  datatype State = State(
    n: nat, counters: seq<nat>, batches: map<TxId, Batch>, txs: map<TxId, Coordinator>,
    pending: map<At, seq<KV>>, taken: map<At, seq<KV>>, tables: seq<Table>, applied: seq<seq<TxId>>,
    prepares: map<At, seq<KV>>, commits: set<At>, aborts: set<At>, yes: set<At>, told: set<At>, order: seq<TxId>)

  // ------------------------------------------------------------------------- shares

  /** The share as it arrives in a PREPARE. */
  function OnWire(kvs: seq<KV>): (w: seq<KV>)
    ensures |w| == |kvs|
  {
    seq(|kvs|, i requires 0 <= i < |kvs| => KV(kvs[i].key, WireFormat.Sent(kvs[i].val)))
  }

  predicate IsPart(b: Batch, node: nat) {
    node in b.shares
  }

  /** What a participant stages: the coordinator itself stages the values as they are. */
  function Staged(b: Batch, node: nat): seq<KV>
    requires IsPart(b, node)
  {
    if node == b.node then b.shares[node] else OnWire(b.shares[node])
  }

  function Remotes(b: Batch): set<nat> {
    b.shares.Keys - {b.node}
  }

  // --------------------------------------------------------------- the coordinator's steps

  function WithPhase(s: State, tx: TxId, phase: Phase): State
    requires tx in s.txs
  {
    s.(txs := s.txs[tx := s.txs[tx].(phase := phase)])
  }

  /** put or put3 takes an id and shares the batch out. */
  ghost predicate BeginStep(s: State, s': State, b: Batch) {
    && b.node < |s.counters| && s.counters[b.node] < WORD && 1 <= |b.kvs| <= WIRE_SLOTS
    && 0 < s.n && IsGrouping(b.shares, b.kvs, s.n)
    && var tx := MakeTxId(b.node, s.counters[b.node]);
       s' == s.(counters := s.counters[b.node := s.counters[b.node] + 1],
                batches := s.batches[tx := b], txs := s.txs[tx := Coordinator({}, Staging)])
  }

  /** Local prepare, if the coordinator is a participant. */
  ghost predicate StageStep(s: State, s': State, tx: TxId) {
    && tx in s.txs && tx in s.batches && s.txs[tx].phase.Staging?
    && var b := s.batches[tx];
       s' == WithPhase(s, tx, Preparing(Remotes(b), None))
             .(pending := if IsPart(b, b.node) then s.pending[At(tx, b.node) := b.shares[b.node]] else s.pending)
  }

  ghost predicate AskStep(s: State, s': State, tx: TxId, dest: nat) {
    && tx in s.txs && tx in s.batches && s.txs[tx].phase.Preparing? && s.txs[tx].phase.waiting.None?
    && dest in s.txs[tx].phase.todo
    && IsPart(s.batches[tx], dest)
    && s' == WithPhase(s, tx, Preparing(s.txs[tx].phase.todo - {dest}, Some(dest)))
             .(prepares := s.prepares[At(tx, dest) := OnWire(s.batches[tx].shares[dest])])
  }

  /** The reply to the PREPARE arrives. */
  ghost predicate VoteStep(s: State, s': State, tx: TxId, dest: nat) {
    && tx in s.txs && s.txs[tx].phase.Preparing? && s.txs[tx].phase.waiting == Some(dest) && At(tx, dest) in s.yes
    && s' == s.(txs := s.txs[tx := Coordinator(s.txs[tx].voted + {dest}, Preparing(s.txs[tx].phase.todo, None))],
                yes := s.yes - {At(tx, dest)})
  }

  /** The PREPARE fails, wherever it or its reply is by now: abort those that have voted. */
  ghost predicate PrepareFailsStep(s: State, s': State, tx: TxId) {
    && tx in s.txs && s.txs[tx].phase.Preparing? && s.txs[tx].phase.waiting.Some?
    && s' == WithPhase(s, tx, Finishing(false, s.txs[tx].voted, None))
  }

  /** All have voted: the decision to commit. */
  ghost predicate DecideStep(s: State, s': State, tx: TxId) {
    && tx in s.txs && s.txs[tx].phase == Preparing({}, None)
    && s' == WithPhase(s, tx, Finishing(true, s.txs[tx].voted, None)).(order := s.order + [tx])
  }

  ghost predicate TellStep(s: State, s': State, tx: TxId, dest: nat) {
    && tx in s.txs && s.txs[tx].phase.Finishing? && s.txs[tx].phase.waiting.None? && dest in s.txs[tx].phase.todo
    && var ph := s.txs[tx].phase;
       s' == WithPhase(s, tx, Finishing(ph.commit, ph.todo - {dest}, Some(dest)))
             .(commits := if ph.commit then s.commits + {At(tx, dest)} else s.commits,
               aborts := if ph.commit then s.aborts else s.aborts + {At(tx, dest)})
  }

  /** The reply to COMMIT or ABORT arrives. */
  ghost predicate ToldStep(s: State, s': State, tx: TxId, dest: nat) {
    && tx in s.txs && s.txs[tx].phase.Finishing? && s.txs[tx].phase.waiting == Some(dest) && At(tx, dest) in s.told
    && s' == WithPhase(s, tx, Finishing(s.txs[tx].phase.commit, s.txs[tx].phase.todo, None))
             .(told := s.told - {At(tx, dest)})
  }

  /** COMMIT or ABORT fails, which the coordinator ignores. */
  ghost predicate TellFailsStep(s: State, s': State, tx: TxId) {
    && tx in s.txs && s.txs[tx].phase.Finishing? && s.txs[tx].phase.waiting.Some?
    && s' == WithPhase(s, tx, Finishing(s.txs[tx].phase.commit, s.txs[tx].phase.todo, None))
  }

  predicate AllTold(s: State, tx: TxId) {
    tx in s.txs && tx in s.batches && s.txs[tx].phase.Finishing? && s.txs[tx].phase.todo == {}
      && s.txs[tx].phase.waiting.None?
  }

  /** All have been told to commit: the local handle_commit takes the staged writes, if there are any. */
  ghost predicate FinishCommitStep(s: State, s': State, tx: TxId) {
    && AllTold(s, tx) && s.txs[tx].phase.commit
    && var a := At(tx, s.batches[tx].node);
       var here := IsPart(s.batches[tx], a.node) && a in s.pending;
       s' == WithPhase(s, tx, if here then Applying else Returned(true))
             .(pending := if here then s.pending - {a} else s.pending,
               taken := if here then s.taken[a := s.pending[a]] else s.taken)
  }

  /** All have been told to abort: the local handle_abort drops the staged writes. */
  ghost predicate FinishAbortStep(s: State, s': State, tx: TxId) {
    && AllTold(s, tx) && !s.txs[tx].phase.commit
    && var a := At(tx, s.batches[tx].node);
       s' == WithPhase(s, tx, Returned(false))
             .(pending := if IsPart(s.batches[tx], a.node) then s.pending - {a} else s.pending)
  }

  // --------------------------------------------------------------- the participants' steps

  ghost predicate HandlePrepareStep(s: State, s': State, a: At) {
    && a in s.prepares
    && s' == s.(pending := s.pending[a := s.prepares[a]], prepares := s.prepares - {a}, yes := s.yes + {a})
  }

  /** handle_commit for a COMMIT request: it takes the staged writes, or returns if there are none. */
  ghost predicate HandleCommitStep(s: State, s': State, a: At) {
    && a in s.commits
    && var staged := a in s.pending;
       s' == s.(commits := s.commits - {a}, pending := s.pending - {a},
                taken := if staged then s.taken[a := s.pending[a]] else s.taken,
                told := if staged then s.told else s.told + {a})
  }

  /** handle_commit, with the stripes of the transaction held: all writes, then the reply or the return to put. */
  ghost predicate ApplyStep(s: State, s': State, a: At) {
    && a in s.taken && a.node < |s.tables| && a.node < |s.applied| && a.tx in s.txs && a.tx in s.batches
    && var here := a.node == s.batches[a.tx].node;
       s' == s.(taken := s.taken - {a},
                tables := s.tables[a.node := Replay(s.taken[a], s.tables[a.node])],
                applied := s.applied[a.node := s.applied[a.node] + [a.tx]],
                txs := if here then s.txs[a.tx := s.txs[a.tx].(phase := Returned(true))] else s.txs,
                told := if here then s.told else s.told + {a})
  }

  ghost predicate HandleAbortStep(s: State, s': State, a: At) {
    && a in s.aborts
    && s' == s.(aborts := s.aborts - {a}, pending := s.pending - {a}, told := s.told + {a})
  }

  /** A step of a coordinator that concerns no other node. */
  ghost predicate TxStep(s: State, s': State, tx: TxId) {
    || StageStep(s, s', tx) || PrepareFailsStep(s, s', tx) || DecideStep(s, s', tx) || TellFailsStep(s, s', tx)
    || FinishCommitStep(s, s', tx) || FinishAbortStep(s, s', tx)
  }

  /** A coordinator sends a request or gets a reply. */
  ghost predicate DestStep(s: State, s': State, tx: TxId, dest: nat) {
    AskStep(s, s', tx, dest) || VoteStep(s, s', tx, dest) || TellStep(s, s', tx, dest) || ToldStep(s, s', tx, dest)
  }

  /** A step of a handler. */
  ghost predicate AtStep(s: State, s': State, a: At) {
    HandlePrepareStep(s, s', a) || HandleCommitStep(s, s', a) || ApplyStep(s, s', a) || HandleAbortStep(s, s', a)
  }

  ghost predicate Next(s: State, s': State) {
    || (exists b :: BeginStep(s, s', b))
    || (exists tx :: TxStep(s, s', tx))
    || (exists tx, dest :: DestStep(s, s', tx, dest))
    || (exists a :: AtStep(s, s', a))
  }

  ghost predicate Init(s: State) {
    && 0 < s.n <= MAX_NODES
    && s.counters == seq(s.n, _ => 0) && s.tables == seq(s.n, _ => map[]) && s.applied == seq(s.n, _ => [])
    && s.batches == map[] && s.txs == map[] && s.pending == map[] && s.taken == map[] && s.prepares == map[]
    && s.commits == {} && s.aborts == {} && s.yes == {} && s.told == {} && s.order == []
  }

  ghost predicate StepAt(run: seq<State>, i: nat)
    requires 0 < i < |run|
  {
    Next(run[i - 1], run[i])
  }

  ghost predicate IsRun(run: seq<State>) {
    && |run| > 0
    && Init(run[0])
    && forall i | 0 < i < |run| :: StepAt(run, i)
  }

  // ----------------------------------------------------------------------- invariant

  predicate Committed(s: State, tx: TxId) {
    && tx in s.txs
    && var ph := s.txs[tx].phase;
       (ph.Finishing? && ph.commit) || ph.Applying? || (ph.Returned? && ph.commit)
  }

  predicate Aborted(s: State, tx: TxId) {
    && tx in s.txs
    && var ph := s.txs[tx].phase;
       (ph.Finishing? && !ph.commit) || (ph.Returned? && !ph.commit)
  }

  predicate Applied(s: State, a: At) {
    a.node < |s.applied| && a.tx in s.applied[a.node]
  }

  predicate Part(s: State, a: At) {
    a.tx in s.txs && a.tx in s.batches && IsPart(s.batches[a.tx], a.node)
  }

  predicate Remote(s: State, a: At) {
    Part(s, a) && a.node != s.batches[a.tx].node
  }

  /** The coordinator of a.tx has not asked a.node yet. */
  predicate Unasked(s: State, a: At) {
    a.tx in s.txs && (s.txs[a.tx].phase.Staging? || (s.txs[a.tx].phase.Preparing? && a.node in s.txs[a.tx].phase.todo))
  }

  /** The coordinator of a.tx counts on a.node having staged its share. */
  predicate Counted(s: State, a: At) {
    && Part(s, a)
    && (|| (s.txs[a.tx].phase.Preparing? && (a.node == s.batches[a.tx].node || a.node in s.txs[a.tx].voted))
        || (s.txs[a.tx].phase.Finishing? && s.txs[a.tx].phase.commit
             && (a.node == s.batches[a.tx].node || a.node in s.txs[a.tx].phase.todo)))
  }

  /**
   Transaction a.tx is staged, taken or applied at a.node only as its coordinator sent it, and at one
   stage at a time.
   */
  ghost predicate StoreOk(s: State, a: At) {
    && (a in s.pending ==>
          Part(s, a) && s.pending[a] == Staged(s.batches[a.tx], a.node) && a !in s.taken && !Applied(s, a))
    && (a in s.taken ==>
          Part(s, a) && s.taken[a] == Staged(s.batches[a.tx], a.node) && Committed(s, a.tx) && !Applied(s, a))
    && (Applied(s, a) ==> Part(s, a) && Committed(s, a.tx))
  }

  /** The messages in flight between the coordinator of a.tx and a.node. */
  ghost predicate MessagesOk(s: State, a: At) {
    && (a in s.prepares ==>
          && Remote(s, a) && s.prepares[a] == Staged(s.batches[a.tx], a.node) && a !in s.pending && a !in s.yes
          && a.node !in s.txs[a.tx].voted && !Committed(s, a.tx) && !Unasked(s, a))
    && (a in s.yes ==> && Remote(s, a) && a.node !in s.txs[a.tx].voted && !Committed(s, a.tx) && !Unasked(s, a)
                       && (s.txs[a.tx].phase.Preparing? ==> a in s.pending))
    && (a in s.pending && Remote(s, a) ==> !Unasked(s, a))
    && (a in s.commits ==> Part(s, a) && Committed(s, a.tx) && a in s.pending)
    && (a in s.aborts ==> Part(s, a) && Aborted(s, a.tx))
  }

  /** What the coordinator of a.tx may rely on at a.node. */
  ghost predicate CountedOk(s: State, a: At) {
    && (Counted(s, a) ==> a in s.pending && a !in s.commits)
    && (Part(s, a) && Committed(s, a.tx) ==> a in s.pending || a in s.taken || Applied(s, a))
    && (Part(s, a) && s.txs[a.tx].phase.Applying? && a.node == s.batches[a.tx].node ==> a in s.taken)
  }

  /** The state of transaction a.tx at a.node. */
  ghost predicate AtOk(s: State, a: At) {
    StoreOk(s, a) && MessagesOk(s, a) && CountedOk(s, a)
  }

  function Pick(w: Option<nat>): set<nat> {
    if w.Some? then {w.value} else {}
  }

  /** Who has voted, who has been asked and who is still to be asked. */
  predicate PhaseOk(c: Coordinator, remotes: set<nat>) {
    match c.phase
    case Staging => c.voted == {}
    case Preparing(todo, w) => c.voted + todo + Pick(w) == remotes && c.voted !! todo && c.voted !! Pick(w)
      && todo !! Pick(w)
    case Finishing(commit, todo, w) => todo + Pick(w) <= c.voted <= remotes && todo !! Pick(w)
      && (commit <==> c.voted == remotes)
    case Applying => c.voted == remotes
    case Returned(commit) => c.voted <= remotes && (commit <==> c.voted == remotes)
  }

  predicate IdOk(tx: TxId, node: nat, counter: nat) {
    node * WORD <= tx < node * WORD + counter
  }

  ghost predicate CoordinatorOk(s: State, tx: TxId)
    requires |s.counters| == s.n && tx in s.txs && tx in s.batches
  {
    && s.batches[tx].node < s.n
    && IdOk(tx, s.batches[tx].node, s.counters[s.batches[tx].node])
    && PhaseOk(s.txs[tx], Remotes(s.batches[tx]))
  }

  ghost predicate BatchOk(b: Batch, n: nat) {
    0 < n && 1 <= |b.kvs| <= WIRE_SLOTS && IsGrouping(b.shares, b.kvs, n)
  }

  ghost predicate BatchesOk(batches: map<TxId, Batch>, n: nat) {
    forall tx | tx in batches :: BatchOk(batches[tx], n)
  }

  ghost predicate CoordinatorOkAt(s: State, tx: TxId) {
    |s.counters| == s.n && tx in s.txs && tx in s.batches && CoordinatorOk(s, tx)
  }

  ghost predicate Shape(s: State) {
    && 0 < s.n && |s.counters| == |s.tables| == |s.applied| == s.n
    && s.txs.Keys == s.batches.Keys
    && (forall node | 0 <= node < s.n :: s.counters[node] <= WORD)
    && (forall tx | tx in s.txs :: CoordinatorOk(s, tx))
  }

  ghost predicate NoDuplicates(ids: seq<TxId>) {
    forall i, j | 0 <= i < j < |ids| :: ids[i] != ids[j]
  }

  ghost predicate OrderOk(s: State) {
    NoDuplicates(s.order) && forall tx :: tx in s.order <==> Committed(s, tx)
  }

  /** The table of a node that has applied these transactions. */
  ghost function Outcome(batches: map<TxId, Batch>, ids: seq<TxId>, node: nat): Table
  {
    if ids == [] then map[]
    else
      var before := Outcome(batches, ids[..|ids| - 1], node);
      var tx := ids[|ids| - 1];
      if tx in batches && IsPart(batches[tx], node) then Replay(Staged(batches[tx], node), before) else before
  }

  ghost predicate NodeOk(s: State, node: nat)
    requires node < |s.tables| && node < |s.applied|
  {
    NoDuplicates(s.applied[node]) && s.tables[node] == Outcome(s.batches, s.applied[node], node)
  }

  ghost predicate NodesOk(s: State) {
    |s.tables| == |s.applied| && forall node | 0 <= node < |s.tables| :: NodeOk(s, node)
  }

  ghost predicate Inv(s: State) {
    && Shape(s) && OrderOk(s) && NodesOk(s) && BatchesOk(s.batches, s.n)
    && forall a :: AtOk(s, a)
  }

  // --------------------------------------------------------------------------- steps

  lemma InitHolds(s: State)
    requires Init(s)
    ensures Inv(s)
  {
  }

  /** Tables and their histories are untouched. */
  lemma NodesUntouched(s: State, s': State)
    requires NodesOk(s) && s'.tables == s.tables && s'.applied == s.applied && s'.batches == s.batches && s'.n == s.n
    ensures NodesOk(s')
  {
    forall node | 0 <= node < |s'.tables| ensures NodeOk(s', node) {
      assert NodeOk(s, node);
    }
  }

  /** A step that moves one coordinator from phase to phase, and neither commits nor uncommits. */
  lemma CoordinatorMoves(s: State, s': State, tx: TxId, c: Coordinator)
    requires Shape(s) && OrderOk(s) && NodesOk(s) && tx in s.txs
    requires s'.txs == s.txs[tx := c] && s'.batches == s.batches && s'.counters == s.counters && s'.n == s.n
    requires s'.tables == s.tables && s'.applied == s.applied
    requires PhaseOk(c, Remotes(s.batches[tx]))
    requires s'.order == s.order && (Committed(s', tx) <==> Committed(s, tx))
    ensures Shape(s') && OrderOk(s') && NodesOk(s')
  {
    forall t | t in s'.txs ensures CoordinatorOk(s', t) {
      assert CoordinatorOk(s, t);
    }
    forall t ensures t in s'.order <==> Committed(s', t) {
      assert t != tx ==> (Committed(s', t) <==> Committed(s, t));
    }
    NodesUntouched(s, s');
  }

  lemma {:induction false} OutcomeKept(batches: map<TxId, Batch>, batches': map<TxId, Batch>, ids: seq<TxId>, node: nat)
    requires forall tx | tx in ids :: tx in batches && tx in batches' && batches'[tx] == batches[tx]
    ensures Outcome(batches', ids, node) == Outcome(batches, ids, node)
  {
    if ids != [] {
      OutcomeKept(batches, batches', ids[..|ids| - 1], node);
      assert ids[|ids| - 1] in ids;
    }
  }

  lemma IdsDiffer(tx: TxId, other: nat, c: nat, node: nat, counter: nat)
    requires IdOk(tx, other, c) && c <= WORD && counter < WORD && (other == node ==> c <= counter)
    ensures tx != node * WORD + counter
  {
    if other < node {
      assert other * WORD + WORD <= node * WORD;
    } else if node < other {
      assert node * WORD + WORD <= other * WORD;
    }
  }

  /** The id of a new transaction is nobody's. */
  lemma NewIdIsFresh(s: State, node: nat)
    requires Shape(s) && node < s.n && s.counters[node] < WORD
    ensures MakeTxId(node, s.counters[node]) == node * WORD + s.counters[node]
    ensures MakeTxId(node, s.counters[node]) !in s.txs
  {
    forall t | t in s.txs ensures t != node * WORD + s.counters[node] {
      assert CoordinatorOk(s, t);
      IdsDiffer(t, s.batches[t].node, s.counters[s.batches[t].node], node, s.counters[node]);
    }
  }

  lemma BeginKeepsCoordinators(s: State, s': State, b: Batch)
    requires Shape(s) && OrderOk(s) && BeginStep(s, s', b)
    ensures Shape(s') && OrderOk(s') && MakeTxId(b.node, s.counters[b.node]) !in s.txs
  {
    NewIdIsFresh(s, b.node);
    BeginKeepsShape(s, s', b);
    var tx := MakeTxId(b.node, s.counters[b.node]);
    forall t ensures t in s'.order <==> Committed(s', t) {
      assert t != tx ==> (Committed(s', t) <==> Committed(s, t));
    }
  }

  lemma BeginKeepsShape(s: State, s': State, b: Batch)
    requires Shape(s) && BeginStep(s, s', b)
    requires MakeTxId(b.node, s.counters[b.node]) == b.node * WORD + s.counters[b.node]
    ensures Shape(s')
  {
    forall t | t in s'.txs && t != MakeTxId(b.node, s.counters[b.node]) ensures CoordinatorOk(s', t) {
      assert CoordinatorOk(s, t);
    }
  }

  lemma BeginKeepsNodes(s: State, s': State, b: Batch)
    requires NodesOk(s) && BeginStep(s, s', b) && MakeTxId(b.node, s.counters[b.node]) !in s.txs
    requires forall a :: AtOk(s, a)
    ensures NodesOk(s')
  {
    forall m | 0 <= m < |s'.tables| ensures NodeOk(s', m) {
      assert NodeOk(s, m);
      forall t | t in s.applied[m] ensures t in s.batches && t in s.txs {
        assert AtOk(s, At(t, m));
      }
      OutcomeKept(s.batches, s'.batches, s.applied[m], m);
    }
  }

  lemma BeginKeepsAt(s: State, s': State, b: Batch, a: At)
    requires BeginStep(s, s', b) && MakeTxId(b.node, s.counters[b.node]) !in s.txs && AtOk(s, a)
    ensures AtOk(s', a)
  {
    if a.tx != MakeTxId(b.node, s.counters[b.node]) {
      SameKeepsAt(s, s', a);
    }
  }

  lemma BeginKeeps(s: State, s': State, b: Batch)
    requires Inv(s) && BeginStep(s, s', b)
    ensures Inv(s')
  {
    BeginKeepsCoordinators(s, s', b);
    BeginKeepsNodes(s, s', b);
    forall a ensures AtOk(s', a) {
      assert AtOk(s, a);
      BeginKeepsAt(s, s', b, a);
    }
  }

  /** Nothing about transaction a.tx at a.node has changed. */
  ghost predicate SameAt(s: State, s': State, a: At) {
    && s'.n == s.n
    && (a.tx in s'.txs <==> a.tx in s.txs) && (a.tx in s.txs ==> s'.txs[a.tx] == s.txs[a.tx])
    && (a.tx in s'.batches <==> a.tx in s.batches) && (a.tx in s.batches ==> s'.batches[a.tx] == s.batches[a.tx])
    && (a in s'.pending <==> a in s.pending) && (a in s.pending ==> s'.pending[a] == s.pending[a])
    && (a in s'.taken <==> a in s.taken) && (a in s.taken ==> s'.taken[a] == s.taken[a])
    && (a in s'.prepares <==> a in s.prepares) && (a in s.prepares ==> s'.prepares[a] == s.prepares[a])
    && (a in s'.commits <==> a in s.commits) && (a in s'.aborts <==> a in s.aborts) && (a in s'.yes <==> a in s.yes)
    && (Applied(s', a) <==> Applied(s, a))
  }

  lemma SameKeepsAt(s: State, s': State, a: At)
    requires AtOk(s, a) && SameAt(s, s', a)
    ensures AtOk(s', a)
  {
  }

  lemma StageKeepsAt(s: State, s': State, tx: TxId, a: At)
    requires StageStep(s, s', tx) && CoordinatorOkAt(s, tx) && AtOk(s, a)
    ensures AtOk(s', a)
  {
    if a.tx != tx {
      SameKeepsAt(s, s', a);
    }
  }

  lemma StageKeepsShape(s: State, s': State, tx: TxId)
    requires Shape(s) && OrderOk(s) && NodesOk(s) && StageStep(s, s', tx)
    ensures Shape(s') && OrderOk(s') && NodesOk(s')
  {
    assert CoordinatorOk(s, tx);
    CoordinatorMoves(s, s', tx, Coordinator(s.txs[tx].voted, Preparing(Remotes(s.batches[tx]), None)));
  }

  lemma StageKeeps(s: State, s': State, tx: TxId)
    requires Inv(s) && StageStep(s, s', tx)
    ensures Inv(s')
  {
    StageKeepsShape(s, s', tx);
    forall a ensures AtOk(s', a) {
      assert AtOk(s, a) && CoordinatorOk(s, tx);
      StageKeepsAt(s, s', tx, a);
    }
  }

  lemma AskKeepsAt(s: State, s': State, tx: TxId, dest: nat, a: At)
    requires AskStep(s, s', tx, dest) && CoordinatorOkAt(s, tx) && AtOk(s, a)
    ensures AtOk(s', a)
  {
    if a.tx != tx {
      SameKeepsAt(s, s', a);
    }
  }

  lemma AskKeepsShape(s: State, s': State, tx: TxId, dest: nat)
    requires Shape(s) && OrderOk(s) && NodesOk(s) && AskStep(s, s', tx, dest)
    ensures Shape(s') && OrderOk(s') && NodesOk(s')
  {
    assert CoordinatorOk(s, tx);
    var ph := s.txs[tx].phase;
    assert ph.todo - {dest} + {dest} == ph.todo;
    CoordinatorMoves(s, s', tx, Coordinator(s.txs[tx].voted, Preparing(ph.todo - {dest}, Some(dest))));
  }

  lemma AskKeeps(s: State, s': State, tx: TxId, dest: nat)
    requires Inv(s) && AskStep(s, s', tx, dest)
    ensures Inv(s')
  {
    AskKeepsShape(s, s', tx, dest);
    forall a ensures AtOk(s', a) {
      assert AtOk(s, a) && CoordinatorOk(s, tx);
      AskKeepsAt(s, s', tx, dest, a);
    }
  }

  lemma VoteKeepsAt(s: State, s': State, tx: TxId, dest: nat, a: At)
    requires VoteStep(s, s', tx, dest) && CoordinatorOkAt(s, tx) && AtOk(s, a)
    ensures AtOk(s', a)
  {
    if a.tx != tx {
      SameKeepsAt(s, s', a);
    }
  }

  lemma VoteKeepsShape(s: State, s': State, tx: TxId, dest: nat)
    requires Shape(s) && OrderOk(s) && NodesOk(s) && VoteStep(s, s', tx, dest)
    ensures Shape(s') && OrderOk(s') && NodesOk(s')
  {
    assert CoordinatorOk(s, tx);
    CoordinatorMoves(s, s', tx, Coordinator(s.txs[tx].voted + {dest}, Preparing(s.txs[tx].phase.todo, None)));
  }

  lemma VoteKeeps(s: State, s': State, tx: TxId, dest: nat)
    requires Inv(s) && VoteStep(s, s', tx, dest)
    ensures Inv(s')
  {
    VoteKeepsShape(s, s', tx, dest);
    forall a ensures AtOk(s', a) {
      assert AtOk(s, a) && CoordinatorOk(s, tx);
      VoteKeepsAt(s, s', tx, dest, a);
    }
  }

  lemma PrepareFailsKeepsAt(s: State, s': State, tx: TxId, a: At)
    requires PrepareFailsStep(s, s', tx) && CoordinatorOkAt(s, tx) && AtOk(s, a)
    ensures AtOk(s', a)
  {
    if a.tx != tx {
      SameKeepsAt(s, s', a);
    }
  }

  lemma PrepareFailsKeepsShape(s: State, s': State, tx: TxId)
    requires Shape(s) && OrderOk(s) && NodesOk(s) && PrepareFailsStep(s, s', tx)
    ensures Shape(s') && OrderOk(s') && NodesOk(s')
  {
    assert CoordinatorOk(s, tx);
    CoordinatorMoves(s, s', tx, Coordinator(s.txs[tx].voted, Finishing(false, s.txs[tx].voted, None)));
  }

  lemma PrepareFailsKeeps(s: State, s': State, tx: TxId)
    requires Inv(s) && PrepareFailsStep(s, s', tx)
    ensures Inv(s')
  {
    PrepareFailsKeepsShape(s, s', tx);
    forall a ensures AtOk(s', a) {
      assert AtOk(s, a) && CoordinatorOk(s, tx);
      PrepareFailsKeepsAt(s, s', tx, a);
    }
  }

  /** When the decision to commit is taken, every participant has staged its whole share. */
  lemma AllStaged(s: State, s': State, tx: TxId)
    requires Inv(s) && DecideStep(s, s', tx)
    ensures s.txs[tx].voted == Remotes(s.batches[tx])
    ensures forall node | IsPart(s.batches[tx], node) ::
              At(tx, node) in s.pending && s.pending[At(tx, node)] == Staged(s.batches[tx], node)
  {
    assert CoordinatorOk(s, tx);
    forall node | IsPart(s.batches[tx], node)
      ensures At(tx, node) in s.pending && s.pending[At(tx, node)] == Staged(s.batches[tx], node)
    {
      assert AtOk(s, At(tx, node));
      assert node == s.batches[tx].node || node in Remotes(s.batches[tx]);
    }
  }

  lemma DecideKeepsStore(s: State, s': State, tx: TxId, a: At)
    requires DecideStep(s, s', tx) && CoordinatorOkAt(s, tx) && AtOk(s, a)
    ensures StoreOk(s', a)
  {
  }

  lemma DecideKeepsMessages(s: State, s': State, tx: TxId, a: At)
    requires DecideStep(s, s', tx) && CoordinatorOkAt(s, tx) && AtOk(s, a)
    ensures MessagesOk(s', a)
  {
  }

  lemma DecideKeepsCounted(s: State, s': State, tx: TxId, a: At)
    requires DecideStep(s, s', tx) && CoordinatorOkAt(s, tx) && AtOk(s, a)
    ensures CountedOk(s', a)
  {
  }

  lemma DecideKeepsAt(s: State, s': State, tx: TxId, a: At)
    requires DecideStep(s, s', tx) && CoordinatorOkAt(s, tx) && AtOk(s, a)
    ensures AtOk(s', a)
  {
    if a.tx != tx {
      SameKeepsAt(s, s', a);
    } else {
      DecideKeepsStore(s, s', tx, a);
      DecideKeepsMessages(s, s', tx, a);
      DecideKeepsCounted(s, s', tx, a);
    }
  }

  lemma DecideKeepsCoordinators(s: State, s': State, tx: TxId)
    requires Shape(s) && DecideStep(s, s', tx)
    ensures Shape(s')
  {
    forall t | t in s'.txs ensures CoordinatorOk(s', t) {
      assert CoordinatorOk(s, t);
    }
  }

  lemma DecideKeepsOrder(s: State, s': State, tx: TxId)
    requires OrderOk(s) && NodesOk(s) && DecideStep(s, s', tx)
    ensures OrderOk(s') && NodesOk(s')
  {
    assert !Committed(s, tx) && tx !in s.order;
    forall t ensures t in s'.order <==> Committed(s', t) {
      assert t != tx ==> (Committed(s', t) <==> Committed(s, t));
    }
    NodesUntouched(s, s');
  }

  lemma DecideKeeps(s: State, s': State, tx: TxId)
    requires Inv(s) && DecideStep(s, s', tx)
    ensures Inv(s')
  {
    DecideKeepsCoordinators(s, s', tx);
    DecideKeepsOrder(s, s', tx);
    forall a ensures AtOk(s', a) {
      assert AtOk(s, a) && CoordinatorOk(s, tx);
      DecideKeepsAt(s, s', tx, a);
    }
  }

  lemma TellKeepsStore(s: State, s': State, tx: TxId, dest: nat, a: At)
    requires TellStep(s, s', tx, dest) && CoordinatorOkAt(s, tx) && AtOk(s, a)
    ensures StoreOk(s', a)
  {
  }

  lemma TellKeepsMessages(s: State, s': State, tx: TxId, dest: nat, a: At)
    requires TellStep(s, s', tx, dest) && CoordinatorOkAt(s, tx) && AtOk(s, a)
    ensures MessagesOk(s', a)
  {
  }

  lemma TellKeepsCounted(s: State, s': State, tx: TxId, dest: nat, a: At)
    requires TellStep(s, s', tx, dest) && CoordinatorOkAt(s, tx) && AtOk(s, a)
    ensures CountedOk(s', a)
  {
  }

  lemma TellKeepsAt(s: State, s': State, tx: TxId, dest: nat, a: At)
    requires TellStep(s, s', tx, dest) && CoordinatorOkAt(s, tx) && AtOk(s, a)
    ensures AtOk(s', a)
  {
    if a.tx != tx {
      SameKeepsAt(s, s', a);
    } else {
      TellKeepsStore(s, s', tx, dest, a);
      TellKeepsMessages(s, s', tx, dest, a);
      TellKeepsCounted(s, s', tx, dest, a);
    }
  }

  lemma TellKeepsShape(s: State, s': State, tx: TxId, dest: nat)
    requires Shape(s) && OrderOk(s) && NodesOk(s) && TellStep(s, s', tx, dest)
    ensures Shape(s') && OrderOk(s') && NodesOk(s')
  {
    assert CoordinatorOk(s, tx);
    var ph := s.txs[tx].phase;
    CoordinatorMoves(s, s', tx, Coordinator(s.txs[tx].voted, Finishing(ph.commit, ph.todo - {dest}, Some(dest))));
  }

  lemma TellKeeps(s: State, s': State, tx: TxId, dest: nat)
    requires Inv(s) && TellStep(s, s', tx, dest)
    ensures Inv(s')
  {
    TellKeepsShape(s, s', tx, dest);
    forall a ensures AtOk(s', a) {
      assert AtOk(s, a) && CoordinatorOk(s, tx);
      TellKeepsAt(s, s', tx, dest, a);
    }
  }

  /** The coordinator stops waiting, with or without a reply. */
  ghost predicate StopsWaiting(s: State, s': State, tx: TxId) {
    && tx in s.txs && s.txs[tx].phase.Finishing? && s'.told <= s.told
    && s' == WithPhase(s, tx, Finishing(s.txs[tx].phase.commit, s.txs[tx].phase.todo, None)).(told := s'.told)
  }

  lemma ToldKeepsAt(s: State, s': State, tx: TxId, a: At)
    requires StopsWaiting(s, s', tx) && CoordinatorOkAt(s, tx) && AtOk(s, a)
    ensures AtOk(s', a)
  {
    if a.tx != tx {
      SameKeepsAt(s, s', a);
    }
  }

  lemma ToldKeepsShape(s: State, s': State, tx: TxId)
    requires Shape(s) && OrderOk(s) && NodesOk(s) && StopsWaiting(s, s', tx)
    ensures Shape(s') && OrderOk(s') && NodesOk(s')
  {
    assert CoordinatorOk(s, tx);
    var ph := s.txs[tx].phase;
    CoordinatorMoves(s, s', tx, Coordinator(s.txs[tx].voted, Finishing(ph.commit, ph.todo, None)));
  }

  lemma ToldKeeps(s: State, s': State, tx: TxId)
    requires Inv(s) && StopsWaiting(s, s', tx)
    ensures Inv(s')
  {
    ToldKeepsShape(s, s', tx);
    forall a ensures AtOk(s', a) {
      assert AtOk(s, a) && CoordinatorOk(s, tx);
      ToldKeepsAt(s, s', tx, a);
    }
  }

  lemma FinishCommitKeepsStore(s: State, s': State, tx: TxId, a: At)
    requires FinishCommitStep(s, s', tx) && CoordinatorOkAt(s, tx) && AtOk(s, At(tx, s.batches[tx].node)) && AtOk(s, a)
    ensures StoreOk(s', a)
  {
  }

  lemma FinishCommitKeepsMessages(s: State, s': State, tx: TxId, a: At)
    requires FinishCommitStep(s, s', tx) && CoordinatorOkAt(s, tx) && AtOk(s, At(tx, s.batches[tx].node)) && AtOk(s, a)
    ensures MessagesOk(s', a)
  {
  }

  lemma FinishCommitKeepsCounted(s: State, s': State, tx: TxId, a: At)
    requires FinishCommitStep(s, s', tx) && CoordinatorOkAt(s, tx) && AtOk(s, At(tx, s.batches[tx].node)) && AtOk(s, a)
    ensures CountedOk(s', a)
  {
  }

  lemma FinishCommitKeepsAt(s: State, s': State, tx: TxId, a: At)
    requires FinishCommitStep(s, s', tx) && CoordinatorOkAt(s, tx) && AtOk(s, At(tx, s.batches[tx].node)) && AtOk(s, a)
    ensures AtOk(s', a)
  {
    if a.tx != tx {
      SameKeepsAt(s, s', a);
    } else {
      FinishCommitKeepsStore(s, s', tx, a);
      FinishCommitKeepsMessages(s, s', tx, a);
      FinishCommitKeepsCounted(s, s', tx, a);
    }
  }

  lemma FinishCommitKeeps(s: State, s': State, tx: TxId)
    requires Inv(s) && FinishCommitStep(s, s', tx)
    ensures Inv(s')
  {
    assert CoordinatorOk(s, tx);
    var own := At(tx, s.batches[tx].node);
    assert AtOk(s, own);
    CoordinatorMoves(s, s', tx, s'.txs[tx]);
    forall a ensures AtOk(s', a) {
      assert AtOk(s, a);
      FinishCommitKeepsAt(s, s', tx, a);
    }
  }

  lemma FinishAbortKeepsStore(s: State, s': State, tx: TxId, a: At)
    requires FinishAbortStep(s, s', tx) && CoordinatorOkAt(s, tx) && AtOk(s, At(tx, s.batches[tx].node)) && AtOk(s, a)
    ensures StoreOk(s', a)
  {
  }

  lemma FinishAbortKeepsMessages(s: State, s': State, tx: TxId, a: At)
    requires FinishAbortStep(s, s', tx) && CoordinatorOkAt(s, tx) && AtOk(s, At(tx, s.batches[tx].node)) && AtOk(s, a)
    ensures MessagesOk(s', a)
  {
  }

  lemma FinishAbortKeepsCounted(s: State, s': State, tx: TxId, a: At)
    requires FinishAbortStep(s, s', tx) && CoordinatorOkAt(s, tx) && AtOk(s, At(tx, s.batches[tx].node)) && AtOk(s, a)
    ensures CountedOk(s', a)
  {
  }

  lemma FinishAbortKeepsAt(s: State, s': State, tx: TxId, a: At)
    requires FinishAbortStep(s, s', tx) && CoordinatorOkAt(s, tx) && AtOk(s, At(tx, s.batches[tx].node)) && AtOk(s, a)
    ensures AtOk(s', a)
  {
    if a.tx != tx {
      SameKeepsAt(s, s', a);
    } else {
      FinishAbortKeepsStore(s, s', tx, a);
      FinishAbortKeepsMessages(s, s', tx, a);
      FinishAbortKeepsCounted(s, s', tx, a);
    }
  }

  lemma FinishAbortKeeps(s: State, s': State, tx: TxId)
    requires Inv(s) && FinishAbortStep(s, s', tx)
    ensures Inv(s')
  {
    assert CoordinatorOk(s, tx);
    var own := At(tx, s.batches[tx].node);
    assert AtOk(s, own);
    CoordinatorMoves(s, s', tx, s'.txs[tx]);
    forall a ensures AtOk(s', a) {
      assert AtOk(s, a);
      FinishAbortKeepsAt(s, s', tx, a);
    }
  }

  /** Steps of a participant that touch no coordinator and no table. */
  lemma CoordinatorsUntouched(s: State, s': State)
    requires Shape(s) && OrderOk(s) && NodesOk(s)
    requires s'.txs == s.txs && s'.batches == s.batches && s'.counters == s.counters && s'.n == s.n
    requires s'.order == s.order
    requires s'.tables == s.tables && s'.applied == s.applied
    ensures Shape(s') && OrderOk(s') && NodesOk(s')
  {
    forall t | t in s'.txs ensures CoordinatorOk(s', t) {
      assert CoordinatorOk(s, t);
    }
    forall t ensures t in s'.order <==> Committed(s', t) {
      assert Committed(s', t) <==> Committed(s, t);
    }
    NodesUntouched(s, s');
  }

  lemma HandlePrepareKeepsAt(s: State, s': State, a: At, b: At)
    requires HandlePrepareStep(s, s', a) && AtOk(s, a) && AtOk(s, b)
    ensures AtOk(s', b)
  {
    if b != a {
      SameKeepsAt(s, s', b);
    }
  }

  lemma HandlePrepareKeeps(s: State, s': State, a: At)
    requires Inv(s) && HandlePrepareStep(s, s', a)
    ensures Inv(s')
  {
    CoordinatorsUntouched(s, s');
    forall b ensures AtOk(s', b) {
      assert AtOk(s, a) && AtOk(s, b);
      HandlePrepareKeepsAt(s, s', a, b);
    }
  }

  lemma HandleCommitKeepsAt(s: State, s': State, a: At, b: At)
    requires HandleCommitStep(s, s', a) && AtOk(s, a) && AtOk(s, b)
    ensures AtOk(s', b)
  {
    if b != a {
      SameKeepsAt(s, s', b);
    }
  }

  lemma HandleCommitKeeps(s: State, s': State, a: At)
    requires Inv(s) && HandleCommitStep(s, s', a)
    ensures Inv(s') && a in s.pending
  {
    assert AtOk(s, a);
    CoordinatorsUntouched(s, s');
    forall b ensures AtOk(s', b) {
      assert AtOk(s, a) && AtOk(s, b);
      HandleCommitKeepsAt(s, s', a, b);
    }
  }

  lemma HandleAbortKeepsStore(s: State, s': State, a: At, b: At)
    requires HandleAbortStep(s, s', a) && AtOk(s, a) && AtOk(s, b)
    ensures StoreOk(s', b)
  {
  }

  lemma HandleAbortKeepsMessages(s: State, s': State, a: At, b: At)
    requires HandleAbortStep(s, s', a) && AtOk(s, a) && AtOk(s, b)
    ensures MessagesOk(s', b)
  {
  }

  lemma HandleAbortKeepsCounted(s: State, s': State, a: At, b: At)
    requires HandleAbortStep(s, s', a) && AtOk(s, a) && AtOk(s, b)
    ensures CountedOk(s', b)
  {
  }

  lemma HandleAbortKeepsAt(s: State, s': State, a: At, b: At)
    requires HandleAbortStep(s, s', a) && AtOk(s, a) && AtOk(s, b)
    ensures AtOk(s', b)
  {
    if b != a {
      SameKeepsAt(s, s', b);
    } else {
      HandleAbortKeepsStore(s, s', a, b);
      HandleAbortKeepsMessages(s, s', a, b);
      HandleAbortKeepsCounted(s, s', a, b);
    }
  }

  lemma HandleAbortKeeps(s: State, s': State, a: At)
    requires Inv(s) && HandleAbortStep(s, s', a)
    ensures Inv(s')
  {
    assert AtOk(s, a);
    CoordinatorsUntouched(s, s');
    forall b ensures AtOk(s', b) {
      assert AtOk(s, b);
      HandleAbortKeepsAt(s, s', a, b);
    }
  }

  /** A transaction is applied where it has not been applied before, as it was staged. */
  lemma OutcomeOneMore(batches: map<TxId, Batch>, ids: seq<TxId>, tx: TxId, node: nat)
    requires tx in batches && IsPart(batches[tx], node)
    ensures Outcome(batches, ids + [tx], node) == Replay(Staged(batches[tx], node), Outcome(batches, ids, node))
  {
    assert (ids + [tx])[..|ids|] == ids;
  }

  lemma ApplyKeepsNodes(s: State, s': State, a: At)
    requires NodesOk(s) && StoreOk(s, a) && ApplyStep(s, s', a)
    ensures NodesOk(s')
  {
    assert NodeOk(s, a.node);
    OutcomeOneMore(s.batches, s.applied[a.node], a.tx, a.node);
    forall m | 0 <= m < |s'.tables| ensures NodeOk(s', m) {
      assert NodeOk(s, m);
    }
  }

  lemma ApplyKeepsStore(s: State, s': State, a: At, b: At)
    requires ApplyStep(s, s', a) && AtOk(s, a) && AtOk(s, b) && CoordinatorOkAt(s, a.tx)
    ensures StoreOk(s', b)
  {
  }

  lemma ApplyKeepsMessages(s: State, s': State, a: At, b: At)
    requires ApplyStep(s, s', a) && AtOk(s, a) && AtOk(s, b) && CoordinatorOkAt(s, a.tx)
    ensures MessagesOk(s', b)
  {
  }

  lemma ApplyKeepsCounted(s: State, s': State, a: At, b: At)
    requires ApplyStep(s, s', a) && AtOk(s, a) && AtOk(s, b) && CoordinatorOkAt(s, a.tx)
    ensures CountedOk(s', b)
  {
  }

  lemma ApplyKeepsAt(s: State, s': State, a: At, b: At)
    requires ApplyStep(s, s', a) && AtOk(s, a) && AtOk(s, b) && CoordinatorOkAt(s, a.tx)
    ensures AtOk(s', b)
  {
    if b.tx != a.tx {
      SameKeepsAt(s, s', b);
    } else {
      ApplyKeepsStore(s, s', a, b);
      ApplyKeepsMessages(s, s', a, b);
      ApplyKeepsCounted(s, s', a, b);
    }
  }

  lemma ApplyKeepsShape(s: State, s': State, a: At)
    requires Shape(s) && AtOk(s, a) && ApplyStep(s, s', a)
    ensures Shape(s')
  {
    assert CoordinatorOk(s, a.tx);
    forall t | t in s'.txs ensures CoordinatorOk(s', t) {
      assert CoordinatorOk(s, t);
    }
  }

  lemma ApplyKeepsOrder(s: State, s': State, a: At)
    requires OrderOk(s) && AtOk(s, a) && ApplyStep(s, s', a)
    ensures OrderOk(s')
  {
    forall t ensures t in s'.order <==> Committed(s', t) {
      assert Committed(s', t) <==> Committed(s, t);
    }
  }

  lemma ApplyKeeps(s: State, s': State, a: At)
    requires Inv(s) && ApplyStep(s, s', a)
    ensures Inv(s')
  {
    assert AtOk(s, a) && CoordinatorOk(s, a.tx);
    ApplyKeepsNodes(s, s', a);
    ApplyKeepsShape(s, s', a);
    ApplyKeepsOrder(s, s', a);
    forall b ensures AtOk(s', b) {
      assert AtOk(s, b);
      ApplyKeepsAt(s, s', a, b);
    }
  }

  lemma TxStepKeeps(s: State, s': State, tx: TxId)
    requires Inv(s) && TxStep(s, s', tx)
    ensures Inv(s')
  {
    if StageStep(s, s', tx) {
      StageKeeps(s, s', tx);
    } else if PrepareFailsStep(s, s', tx) {
      PrepareFailsKeeps(s, s', tx);
    } else if DecideStep(s, s', tx) {
      DecideKeeps(s, s', tx);
    } else if TellFailsStep(s, s', tx) {
      ToldKeeps(s, s', tx);
    } else if FinishCommitStep(s, s', tx) {
      FinishCommitKeeps(s, s', tx);
    } else {
      FinishAbortKeeps(s, s', tx);
    }
  }

  lemma DestStepKeeps(s: State, s': State, tx: TxId, dest: nat)
    requires Inv(s) && DestStep(s, s', tx, dest)
    ensures Inv(s')
  {
    if AskStep(s, s', tx, dest) {
      AskKeeps(s, s', tx, dest);
    } else if VoteStep(s, s', tx, dest) {
      VoteKeeps(s, s', tx, dest);
    } else if TellStep(s, s', tx, dest) {
      TellKeeps(s, s', tx, dest);
    } else {
      ToldKeeps(s, s', tx);
    }
  }

  lemma AtStepKeeps(s: State, s': State, a: At)
    requires Inv(s) && AtStep(s, s', a)
    ensures Inv(s')
  {
    if HandlePrepareStep(s, s', a) {
      HandlePrepareKeeps(s, s', a);
    } else if HandleCommitStep(s, s', a) {
      HandleCommitKeeps(s, s', a);
    } else if ApplyStep(s, s', a) {
      ApplyKeeps(s, s', a);
    } else {
      HandleAbortKeeps(s, s', a);
    }
  }

  lemma StepKeeps(s: State, s': State)
    requires Inv(s) && Next(s, s')
    ensures Inv(s')
  {
    if b :| BeginStep(s, s', b) {
      BeginKeeps(s, s', b);
    } else if tx :| TxStep(s, s', tx) {
      TxStepKeeps(s, s', tx);
    } else if tx, dest :| DestStep(s, s', tx, dest) {
      DestStepKeeps(s, s', tx, dest);
    } else {
      var a :| AtStep(s, s', a);
      AtStepKeeps(s, s', a);
    }
  }

  lemma {:induction false} InvAt(run: seq<State>, k: nat)
    requires IsRun(run) && k < |run|
    ensures Inv(run[k])
  {
    if k == 0 {
      InitHolds(run[0]);
    } else {
      InvAt(run, k - 1);
      assert StepAt(run, k);
      StepKeeps(run[k - 1], run[k]);
    }
  }

  // ------------------------------------------------------------------------ theorems

  /** The decision to commit is unanimous: at that moment every participant has staged its whole share. */
  lemma DecisionIsUnanimous(run: seq<State>, s': State, tx: TxId)
    requires IsRun(run) && DecideStep(run[|run| - 1], s', tx)
    ensures var s := run[|run| - 1];
            && tx in s.batches && 0 < s.n && IsGrouping(s.batches[tx].shares, s.batches[tx].kvs, s.n)
            && forall node | IsPart(s.batches[tx], node) ::
                 At(tx, node) in s.pending && s.pending[At(tx, node)] == Staged(s.batches[tx], node)
  {
    InvAt(run, |run| - 1);
    AllStaged(run[|run| - 1], s', tx);
    assert BatchOk(run[|run| - 1].batches[tx], run[|run| - 1].n);
  }

  /**
   In every reachable state, what has been decided is to commit if all remote participants have voted,
   and to abort if some have not.
   */
  lemma CommitsIfAllVote(run: seq<State>, k: nat, tx: TxId)
    requires IsRun(run) && k < |run| && (Committed(run[k], tx) || Aborted(run[k], tx))
    ensures tx in run[k].txs && tx in run[k].batches
    ensures Committed(run[k], tx) <==> run[k].txs[tx].voted == Remotes(run[k].batches[tx])
    ensures Aborted(run[k], tx) <==> run[k].txs[tx].voted < Remotes(run[k].batches[tx])
  {
    InvAt(run, k);
    assert CoordinatorOk(run[k], tx);
  }

  /** A committed transaction is never forgotten: a participant that has not applied it still has its whole share. */
  lemma CommittedIsKept(run: seq<State>, tx: TxId, node: nat)
    requires IsRun(run)
    requires var s := run[|run| - 1]; tx in s.order && tx in s.batches && IsPart(s.batches[tx], node)
    ensures var s, a := run[|run| - 1], At(tx, node); var share := Staged(s.batches[tx], node);
            || (a in s.pending && s.pending[a] == share && a !in s.taken && !Applied(s, a))
            || (a in s.taken && s.taken[a] == share && a !in s.pending && !Applied(s, a))
            || (Applied(s, a) && a !in s.pending && a !in s.taken)
  {
    InvAt(run, |run| - 1);
    assert AtOk(run[|run| - 1], At(tx, node));
  }

  /** What a node has applied was decided to be committed, concerned the node, and was applied once. */
  lemma AppliedWasCommitted(run: seq<State>, node: nat)
    requires IsRun(run) && node < |run[|run| - 1].applied|
    ensures var s := run[|run| - 1];
            && NoDuplicates(s.applied[node])
            && forall tx | tx in s.applied[node] :: tx in s.order && tx in s.batches && IsPart(s.batches[tx], node)
  {
    InvAt(run, |run| - 1);
    var s := run[|run| - 1];
    assert NodeOk(s, node);
    forall tx | tx in s.applied[node] ensures tx in s.order && tx in s.batches && IsPart(s.batches[tx], node) {
      assert AtOk(s, At(tx, node));
    }
  }

  /** Transaction tx wrote v to k, as staged at the node. */
  predicate Wrote(batches: map<TxId, Batch>, tx: TxId, node: nat, k: Key, v: Value) {
    tx in batches && IsPart(batches[tx], node) && Touches(Staged(batches[tx], node), k)
      && LastValue(Staged(batches[tx], node), k) == v
  }

  lemma {:induction false} OutcomeIsWritten(batches: map<TxId, Batch>, ids: seq<TxId>, node: nat, k: Key)
    returns (tx: TxId)
    requires k in Outcome(batches, ids, node)
    ensures tx in ids && Wrote(batches, tx, node, k, Outcome(batches, ids, node)[k])
  {
    var last := ids[|ids| - 1];
    var before := Outcome(batches, ids[..|ids| - 1], node);
    if last in batches && IsPart(batches[last], node) && Touches(Staged(batches[last], node), k) {
      ReplayLookup(Staged(batches[last], node), before, k);
      tx := last;
    } else {
      if last in batches && IsPart(batches[last], node) {
        ReplayLookup(Staged(batches[last], node), before, k);
      }
      tx := OutcomeIsWritten(batches, ids[..|ids| - 1], node, k);
    }
  }

  /** Every value in any table was written by a transaction whose coordinator decided to commit it. */
  lemma ValuesComeFromCommits(run: seq<State>, node: nat, k: Key) returns (tx: TxId)
    requires IsRun(run) && node < |run[|run| - 1].tables| && k in run[|run| - 1].tables[node]
    ensures var s := run[|run| - 1];
            && tx in s.order && node < |s.applied| && tx in s.applied[node]
            && Wrote(s.batches, tx, node, k, s.tables[node][k])
  {
    InvAt(run, |run| - 1);
    var s := run[|run| - 1];
    assert NodeOk(s, node);
    tx := OutcomeIsWritten(s.batches, s.applied[node], node, k);
    assert AtOk(s, At(tx, node));
  }

  ghost predicate KeepsDecision(s: State, s': State, t: TxId) {
    (Committed(s, t) ==> Committed(s', t)) && (Aborted(s, t) ==> Aborted(s', t))
  }

  lemma UndecidedKeepsDecision(s: State, s': State, tx: TxId, t: TxId)
    requires StageStep(s, s', tx) || PrepareFailsStep(s, s', tx) || DecideStep(s, s', tx)
    ensures KeepsDecision(s, s', t)
  {
    if t != tx {
      assert t in s.txs ==> s'.txs[t] == s.txs[t];
    }
  }

  lemma TxStepKeepsDecision(s: State, s': State, tx: TxId, t: TxId)
    requires TxStep(s, s', tx)
    ensures KeepsDecision(s, s', t)
  {
    if StageStep(s, s', tx) || PrepareFailsStep(s, s', tx) || DecideStep(s, s', tx) {
      UndecidedKeepsDecision(s, s', tx, t);
    } else if TellFailsStep(s, s', tx) {
      assert KeepsDecision(s, s', t);
    } else {
      FinishKeepsDecision(s, s', tx, t);
    }
  }

  lemma FinishKeepsDecision(s: State, s': State, tx: TxId, t: TxId)
    requires FinishCommitStep(s, s', tx) || FinishAbortStep(s, s', tx)
    ensures KeepsDecision(s, s', t)
  {
  }

  lemma PreparingKeepsDecision(s: State, s': State, tx: TxId, dest: nat, t: TxId)
    requires AskStep(s, s', tx, dest) || VoteStep(s, s', tx, dest)
    ensures KeepsDecision(s, s', t)
  {
    if t != tx {
      assert t in s.txs ==> s'.txs[t] == s.txs[t];
    }
  }

  lemma TellKeepsDecision(s: State, s': State, tx: TxId, dest: nat, t: TxId)
    requires TellStep(s, s', tx, dest)
    ensures KeepsDecision(s, s', t)
  {
  }

  lemma DestStepKeepsDecision(s: State, s': State, tx: TxId, dest: nat, t: TxId)
    requires DestStep(s, s', tx, dest)
    ensures KeepsDecision(s, s', t)
  {
    if AskStep(s, s', tx, dest) || VoteStep(s, s', tx, dest) {
      PreparingKeepsDecision(s, s', tx, dest, t);
    } else if TellStep(s, s', tx, dest) {
      TellKeepsDecision(s, s', tx, dest, t);
    } else {
      assert KeepsDecision(s, s', t);
    }
  }

  lemma AtStepKeepsDecision(s: State, s': State, a: At, t: TxId)
    requires AtStep(s, s', a) && AtOk(s, a)
    ensures KeepsDecision(s, s', t)
  {
  }

  /** A decision is final. */
  lemma StepKeepsDecision(s: State, s': State, t: TxId)
    requires Inv(s) && Next(s, s')
    ensures KeepsDecision(s, s', t)
  {
    if b :| BeginStep(s, s', b) {
      NewIdIsFresh(s, b.node);
    } else if tx :| TxStep(s, s', tx) {
      TxStepKeepsDecision(s, s', tx, t);
    } else if tx, dest :| DestStep(s, s', tx, dest) {
      DestStepKeepsDecision(s, s', tx, dest, t);
    } else {
      var a :| AtStep(s, s', a);
      assert AtOk(s, a);
      AtStepKeepsDecision(s, s', a, t);
    }
  }

  lemma {:induction false} DecisionIsFinal(run: seq<State>, j: nat, k: nat, t: TxId)
    requires IsRun(run) && j <= k < |run|
    ensures KeepsDecision(run[j], run[k], t)
    decreases k - j
  {
    if j < k {
      DecisionIsFinal(run, j, k - 1, t);
      InvAt(run, k - 1);
      assert StepAt(run, k);
      StepKeepsDecision(run[k - 1], run[k], t);
    }
  }

  /** A transaction that is aborted is never applied anywhere, before or after. */
  lemma AbortedIsNeverApplied(run: seq<State>, j: nat, k: nat, t: TxId, node: nat)
    requires IsRun(run) && j < |run| && k < |run| && Aborted(run[j], t) && node < |run[k].applied|
    ensures t !in run[k].applied[node]
  {
    InvAt(run, k);
    assert AtOk(run[k], At(t, node));
    if j <= k {
      DecisionIsFinal(run, j, k, t);
    } else if t in run[k].applied[node] {
      DecisionIsFinal(run, k, j, t);
    }
  }
}

/**
 What a put achieves when it is let through: if its requests are answered, it ends with
 the batch applied by every participant, whatever else is in flight; and if one of its
 PREPAREs fails, with nothing of it left where it has been staged and answered.
 */
module CommitProgress {
  import opened Options
  import opened Placement
  import opened TwoPhaseCommit
  import opened LastWriters
  import WireFormat

  function Last(run: seq<State>): State
    requires |run| > 0
  {
    run[|run| - 1]
  }

  lemma Extend(run: seq<State>, s': State)
    requires IsRun(run) && Next(Last(run), s')
    ensures IsRun(run + [s'])
  {
    var more := run + [s'];
    forall i | 0 < i < |more| ensures StepAt(more, i) {
      if i < |run| {
        assert StepAt(run, i);
      }
    }
  }

  /**
   The run goes on from run, and the batch of tx and the tables of all nodes but those in `nodes` are
   as they were.
   */
  ghost predicate GoesOn(run: seq<State>, run': seq<State>, tx: TxId) {
    && |run| > 0 && run <= run' && IsRun(run')
    && tx in Last(run').txs && tx in Last(run').batches && tx in Last(run).batches
    && Last(run').batches[tx] == Last(run).batches[tx] && Last(run').n == Last(run).n
  }

  // ------------------------------------------------------------------------ prepare

  /** Participant d is asked, stages its share and votes. */
  lemma AskOne(run: seq<State>, tx: TxId, d: nat) returns (run': seq<State>)
    requires IsRun(run) && tx in Last(run).txs && tx in Last(run).batches
    requires var ph := Last(run).txs[tx].phase; ph.Preparing? && ph.waiting.None? && d in ph.todo
    requires IsPart(Last(run).batches[tx], d)
    ensures GoesOn(run, run', tx) && Last(run').applied == Last(run).applied
    ensures Last(run').txs[tx].phase == Preparing(Last(run).txs[tx].phase.todo - {d}, None)
  {
    var s, a := Last(run), At(tx, d);
    var asked := WithPhase(s, tx, Preparing(s.txs[tx].phase.todo - {d}, Some(d)))
                 .(prepares := s.prepares[a := OnWire(s.batches[tx].shares[d])]);
    assert DestStep(s, asked, tx, d) by {
      assert AskStep(s, asked, tx, d);
    }
    Extend(run, asked);
    var staged := asked.(pending := asked.pending[a := asked.prepares[a]], prepares := asked.prepares - {a},
      yes := asked.yes + {a});
    assert AtStep(asked, staged, a) by {
      assert HandlePrepareStep(asked, staged, a);
    }
    Extend(run + [asked], staged);
    var voted := staged.(txs := staged.txs[tx := Coordinator(staged.txs[tx].voted + {d},
      Preparing(s.txs[tx].phase.todo - {d}, None))],
                         yes := staged.yes - {a});
    assert DestStep(staged, voted, tx, d) by {
      assert VoteStep(staged, voted, tx, d);
    }
    Extend(run + [asked] + [staged], voted);
    run' := run + [asked] + [staged] + [voted];
  }

  /** Whom the coordinator still has to ask are participants. */
  lemma TodoArePart(run: seq<State>, tx: TxId)
    requires IsRun(run) && tx in Last(run).txs && Last(run).txs[tx].phase.Preparing?
    ensures tx in Last(run).batches && forall d | d in Last(run).txs[tx].phase.todo :: IsPart(Last(run).batches[tx], d)
  {
    InvAt(run, |run| - 1);
    var s := Last(run);
    assert CoordinatorOk(s, tx);
    forall d | d in s.txs[tx].phase.todo ensures IsPart(s.batches[tx], d) {
      assert d in Remotes(s.batches[tx]);
    }
  }

  /** All are asked and vote. */
  lemma AskAll(run: seq<State>, tx: TxId) returns (run': seq<State>)
    requires IsRun(run) && tx in Last(run).txs && tx in Last(run).batches
    requires var ph := Last(run).txs[tx].phase; ph.Preparing? && ph.waiting.None?
    ensures GoesOn(run, run', tx) && Last(run').applied == Last(run).applied
    ensures Last(run').txs[tx].phase == Preparing({}, None)
    decreases |Last(run).txs[tx].phase.todo|
  {
    var todo := Last(run).txs[tx].phase.todo;
    run' := run;
    if todo != {} {
      var d :| d in todo;
      TodoArePart(run, tx);
      run' := AskOne(run, tx, d);
      run' := AskAll(run', tx);
    }
  }

  // ------------------------------------------------------------------------- commit

  lemma PartIsNode(b: Batch, n: nat, d: nat)
    requires BatchOk(b, n) && IsPart(b, d)
    ensures d < n
  {
    assert Share(b.kvs, d, n) != [];
    var kv := Share(b.kvs, d, n)[0];
    assert kv in Share(b.kvs, d, n);
  }

  /** Whom the coordinator still has to tell are remote participants. */
  lemma TodoAreRemote(run: seq<State>, tx: TxId)
    requires IsRun(run) && tx in Last(run).txs && Last(run).txs[tx].phase.Finishing?
    ensures var s := Last(run);
            && tx in s.batches && s.batches[tx].node < s.n == |s.tables| == |s.applied|
            && forall d | d in s.txs[tx].phase.todo :: d in Remotes(s.batches[tx]) && d < s.n
  {
    InvAt(run, |run| - 1);
    var s := Last(run);
    assert CoordinatorOk(s, tx) && BatchOk(s.batches[tx], s.n);
    forall d | d in s.txs[tx].phase.todo ensures d in Remotes(s.batches[tx]) && d < s.n {
      PartIsNode(s.batches[tx], s.n, d);
    }
  }

  /** The phase of a coordinator that has the decision to tell to these, and waits for none. */
  ghost predicate Telling(s: State, tx: TxId, commit: bool, todo: set<nat>) {
    tx in s.txs && tx in s.batches && s.txs[tx].phase == Finishing(commit, todo, None)
  }

  /** A participant is told: its COMMIT is on its way. */
  lemma TellOne(run: seq<State>, tx: TxId, todo: set<nat>, d: nat) returns (run': seq<State>)
    requires IsRun(run) && Telling(Last(run), tx, true, todo) && d in todo
    ensures GoesOn(run, run', tx) && Last(run').applied == Last(run).applied && At(tx, d) in Last(run').commits
    ensures Last(run').txs[tx].phase == Finishing(true, todo - {d}, Some(d))
  {
    var s := Last(run);
    var told := WithPhase(s, tx, Finishing(true, todo - {d}, Some(d))).(commits := s.commits + {At(tx, d)});
    assert DestStep(s, told, tx, d) by {
      assert TellStep(s, told, tx, d);
    }
    Extend(run, told);
    run' := run + [told];
  }

  lemma CommitIsStaged(run: seq<State>, a: At)
    requires IsRun(run) && a in Last(run).commits
    ensures a in Last(run).pending
  {
    InvAt(run, |run| - 1);
    assert AtOk(Last(run), a);
  }

  /** It takes what it has staged. */
  lemma TakeOne(run: seq<State>, tx: TxId, d: nat) returns (run': seq<State>)
    requires IsRun(run) && tx in Last(run).txs && tx in Last(run).batches && At(tx, d) in Last(run).commits
    ensures GoesOn(run, run', tx) && Last(run').applied == Last(run).applied && At(tx, d) in Last(run').taken
    ensures Last(run').txs == Last(run).txs
  {
    var s, a := Last(run), At(tx, d);
    CommitIsStaged(run, a);
    var took := s.(commits := s.commits - {a}, pending := s.pending - {a}, taken := s.taken[a := s.pending[a]]);
    assert AtStep(s, took, a) by {
      assert HandleCommitStep(s, took, a);
    }
    Extend(run, took);
    run' := run + [took];
  }

  /** It applies it, and answers. */
  lemma ApplyOne(run: seq<State>, tx: TxId, d: nat) returns (run': seq<State>)
    requires IsRun(run) && tx in Last(run).txs && tx in Last(run).batches && At(tx, d) in Last(run).taken
    requires d < |Last(run).tables| && d < |Last(run).applied| && d != Last(run).batches[tx].node
    ensures GoesOn(run, run', tx) && At(tx, d) in Last(run').told
    ensures Last(run').applied == Last(run).applied[d := Last(run).applied[d] + [tx]]
    ensures Last(run').txs == Last(run).txs
  {
    var s, a := Last(run), At(tx, d);
    var next := s.(taken := s.taken - {a}, tables := s.tables[d := Replay(s.taken[a], s.tables[d])],
                   applied := s.applied[d := s.applied[d] + [tx]], told := s.told + {a});
    assert AtStep(s, next, a) by {
      assert ApplyStep(s, next, a);
    }
    Extend(run, next);
    run' := run + [next];
  }

  /** The answer arrives. */
  lemma ToldOne(run: seq<State>, tx: TxId, commit: bool, todo: set<nat>, d: nat) returns (run': seq<State>)
    requires IsRun(run) && tx in Last(run).txs && tx in Last(run).batches && At(tx, d) in Last(run).told
    requires Last(run).txs[tx].phase == Finishing(commit, todo, Some(d))
    ensures GoesOn(run, run', tx) && Last(run').applied == Last(run).applied && Last(run').pending == Last(run).pending
    ensures Telling(Last(run'), tx, commit, todo)
  {
    var s := Last(run);
    var next := WithPhase(s, tx, Finishing(commit, todo, None)).(told := s.told - {At(tx, d)});
    assert DestStep(s, next, tx, d) by {
      assert ToldStep(s, next, tx, d);
    }
    Extend(run, next);
    run' := run + [next];
  }

  /** One participant more has applied the batch. */
  lemma CommitOne(run: seq<State>, tx: TxId, todo: set<nat>, d: nat) returns (run': seq<State>)
    requires IsRun(run) && Telling(Last(run), tx, true, todo) && d in todo
    ensures d < |Last(run).applied| && d != Last(run).batches[tx].node
    ensures GoesOn(run, run', tx) && Telling(Last(run'), tx, true, todo - {d})
    ensures Last(run').applied == Last(run).applied[d := Last(run).applied[d] + [tx]]
  {
    TodoAreRemote(run, tx);
    run' := TellOne(run, tx, todo, d);
    run' := TakeOne(run', tx, d);
    LengthsAt(run');
    run' := ApplyOne(run', tx, d);
    run' := ToldOne(run', tx, true, todo - {d}, d);
  }

  lemma LengthsAt(run: seq<State>)
    requires IsRun(run)
    ensures |Last(run).tables| == |Last(run).applied| == Last(run).n
  {
    InvAt(run, |run| - 1);
  }

  /** Which nodes have applied one more transaction. */
  ghost predicate AppliesAt(before: State, after: State, tx: TxId, nodes: set<nat>) {
    && |after.applied| == |before.applied|
    && forall node: nat | node < |before.applied| ::
         after.applied[node] == if node in nodes then before.applied[node] + [tx] else before.applied[node]
  }

  /** All are told, and apply the batch. */
  lemma CommitAll(run: seq<State>, tx: TxId, todo: set<nat>) returns (run': seq<State>)
    requires IsRun(run) && Telling(Last(run), tx, true, todo)
    ensures GoesOn(run, run', tx) && Telling(Last(run'), tx, true, {}) && AppliesAt(Last(run), Last(run'), tx, todo)
    decreases |todo|
  {
    run' := run;
    if todo != {} {
      var d :| d in todo;
      run' := CommitOne(run, tx, todo, d);
      run' := CommitAll(run', tx, todo - {d});
    }
  }

  lemma OwnIsStaged(run: seq<State>, tx: TxId)
    requires IsRun(run) && Telling(Last(run), tx, true, {}) && IsPart(Last(run).batches[tx], Last(run).batches[tx].node)
    ensures At(tx, Last(run).batches[tx].node) in Last(run).pending && Last(run).batches[tx].node < Last(run).n
  {
    InvAt(run, |run| - 1);
    var s := Last(run);
    assert CoordinatorOk(s, tx) && AtOk(s, At(tx, s.batches[tx].node));
  }

  /** The coordinator applies its own share, if it has one, and returns true. */
  lemma ReturnTrue(run: seq<State>, tx: TxId) returns (run': seq<State>)
    requires IsRun(run) && Telling(Last(run), tx, true, {})
    ensures GoesOn(run, run', tx) && Last(run').txs[tx].phase == Returned(true)
    ensures var b := Last(run).batches[tx];
            AppliesAt(Last(run), Last(run'), tx, if IsPart(b, b.node) then {b.node} else {})
  {
    var s := Last(run);
    var b, a := s.batches[tx], At(tx, s.batches[tx].node);
    LengthsAt(run);
    if IsPart(b, b.node) {
      OwnIsStaged(run, tx);
      var took := WithPhase(s, tx, Applying).(pending := s.pending - {a}, taken := s.taken[a := s.pending[a]]);
      assert TxStep(s, took, tx) by {
        assert FinishCommitStep(s, took, tx);
      }
      Extend(run, took);
      run' := ApplyOwn(run + [took], tx);
    } else {
      var done := WithPhase(s, tx, Returned(true));
      assert TxStep(s, done, tx) by {
        assert FinishCommitStep(s, done, tx);
      }
      Extend(run, done);
      run' := run + [done];
    }
  }

  lemma ApplyOwn(run: seq<State>, tx: TxId) returns (run': seq<State>)
    requires IsRun(run) && tx in Last(run).txs && tx in Last(run).batches
    requires var node := Last(run).batches[tx].node;
             At(tx, node) in Last(run).taken && node < |Last(run).tables| && node < |Last(run).applied|
    ensures GoesOn(run, run', tx) && Last(run').txs[tx].phase == Returned(true)
    ensures AppliesAt(Last(run), Last(run'), tx, {Last(run).batches[tx].node})
  {
    var s, a := Last(run), At(tx, Last(run).batches[tx].node);
    var next := s.(taken := s.taken - {a}, tables := s.tables[a.node := Replay(s.taken[a], s.tables[a.node])],
                   applied := s.applied[a.node := s.applied[a.node] + [tx]],
                   txs := s.txs[tx := s.txs[tx].(phase := Returned(true))]);
    assert AtStep(s, next, a) by {
      assert ApplyStep(s, next, a);
    }
    Extend(run, next);
    run' := run + [next];
  }

  /** All have voted: the decision. */
  lemma DecideNow(run: seq<State>, tx: TxId) returns (run': seq<State>)
    requires IsRun(run) && tx in Last(run).txs && tx in Last(run).batches
    requires Last(run).txs[tx].phase == Preparing({}, None)
    ensures GoesOn(run, run', tx) && Last(run').applied == Last(run).applied
    ensures Telling(Last(run'), tx, true, Remotes(Last(run).batches[tx]))
  {
    InvAt(run, |run| - 1);
    var s := Last(run);
    assert CoordinatorOk(s, tx);
    var next := WithPhase(s, tx, Finishing(true, s.txs[tx].voted, None)).(order := s.order + [tx]);
    assert TxStep(s, next, tx) by {
      assert DecideStep(s, next, tx);
    }
    Extend(run, next);
    run' := run + [next];
  }

  /** The own share is staged. */
  lemma StageNow(run: seq<State>, tx: TxId) returns (run': seq<State>)
    requires IsRun(run) && tx in Last(run).txs && tx in Last(run).batches && Last(run).txs[tx].phase.Staging?
    ensures GoesOn(run, run', tx) && Last(run').applied == Last(run).applied
    ensures Last(run').txs[tx].phase == Preparing(Remotes(Last(run).batches[tx]), None)
  {
    var s, b := Last(run), Last(run).batches[tx];
    var next := WithPhase(s, tx, Preparing(Remotes(b), None))
                .(pending := if IsPart(b, b.node) then s.pending[At(tx, b.node) := b.shares[b.node]] else s.pending);
    assert TxStep(s, next, tx) by {
      assert StageStep(s, next, tx);
    }
    Extend(run, next);
    run' := run + [next];
  }

  /** put or put3 can be called with this batch. */
  ghost predicate CanBegin(s: State, b: Batch) {
    && b.node < |s.counters| && s.counters[b.node] < WORD && 1 <= |b.kvs| <= WIRE_SLOTS
    && 0 < s.n && IsGrouping(b.shares, b.kvs, s.n)
  }

  lemma BeginNow(run: seq<State>, b: Batch) returns (run': seq<State>, tx: TxId)
    requires IsRun(run) && CanBegin(Last(run), b)
    ensures run <= run' && IsRun(run') && tx in Last(run').txs && tx in Last(run').batches
    ensures Last(run').batches[tx] == b && Last(run').txs[tx].phase.Staging? && tx !in Last(run).txs
    ensures Last(run').applied == Last(run).applied && Last(run').n == Last(run).n
  {
    InvAt(run, |run| - 1);
    var s := Last(run);
    NewIdIsFresh(s, b.node);
    tx := MakeTxId(b.node, s.counters[b.node]);
    var next := s.(counters := s.counters[b.node := s.counters[b.node] + 1],
                   batches := s.batches[tx := b], txs := s.txs[tx := Coordinator({}, Staging)]);
    assert BeginStep(s, next, b);
    Extend(run, next);
    run' := run + [next];
  }

  /** All participants of the batch. */
  function Parts(b: Batch): set<nat> {
    b.shares.Keys
  }

  lemma AppliesTogether(s: State, m: State, d: State, tx: TxId, first: set<nat>, second: set<nat>)
    requires AppliesAt(s, m, tx, first) && AppliesAt(m, d, tx, second) && first !! second
    ensures AppliesAt(s, d, tx, first + second)
  {
  }

  /** From the decision on. */
  lemma DecidedIsApplied(run: seq<State>, tx: TxId) returns (run': seq<State>)
    requires IsRun(run) && tx in Last(run).batches && Telling(Last(run), tx, true, Remotes(Last(run).batches[tx]))
    ensures GoesOn(run, run', tx) && Last(run').txs[tx].phase == Returned(true)
    ensures AppliesAt(Last(run), Last(run'), tx, Parts(Last(run).batches[tx]))
  {
    var b := Last(run).batches[tx];
    var own := if IsPart(b, b.node) then {b.node} else {};
    var m := CommitAll(run, tx, Remotes(b));
    run' := ReturnTrue(m, tx);
    AppliesTogether(Last(run), Last(m), Last(run'), tx, Remotes(b), own);
    assert Remotes(b) + own == Parts(b);
  }

  /**
   From every reachable state, whatever is in flight, a put whose requests are answered returns true, and
   when it does each participant has applied the batch, and has applied nothing else meanwhile.
   */
  lemma AnsweredPutCommits(run: seq<State>, b: Batch) returns (run': seq<State>, tx: TxId)
    requires IsRun(run) && CanBegin(Last(run), b)
    ensures run <= run' && IsRun(run') && tx !in Last(run).txs
    ensures tx in Last(run').txs && tx in Last(run').batches && Last(run').batches[tx] == b
    ensures Last(run').txs[tx].phase == Returned(true)
    ensures Last(run').n == Last(run).n && AppliesAt(Last(run), Last(run'), tx, Parts(b))
  {
    run', tx := BeginNow(run, b);
    run' := StageNow(run', tx);
    run' := AskAll(run', tx);
    run' := DecideNow(run', tx);
    run' := DecidedIsApplied(run', tx);
  }

  /** And then every holder of a key of the batch has its last value, as it has reached that node. */
  lemma AnsweredPutIsRead(run: seq<State>, b: Batch, node: nat, k: Key) returns (run': seq<State>, tx: TxId)
    requires IsRun(run) && CanBegin(Last(run), b) && node < Last(run).n && Holds(node, k, Last(run).n)
    requires Touches(b.kvs, k)
    ensures run <= run' && IsRun(run') && tx in Last(run').txs && Last(run').txs[tx].phase == Returned(true)
    ensures node < |Last(run').tables| && Lookup(Last(run').tables[node], k) == Some(StagedValue(b, node, k))
  {
    run', tx := AnsweredPutCommits(run, b);
    var s, s' := Last(run), Last(run');
    assert BatchOk(b, s.n);
    HolderIsPart(b, node, s.n, k);
    LengthsAt(run);
    CopyIsLastWrite(run', node, k);
    assert s'.applied[node] == s.applied[node] + [tx];
    WritersOneMore(s'.batches, s.applied[node], tx, k);
  }

  // -------------------------------------------------------------------------- abort

  /** What is staged is what was, but for transaction tx at these nodes. */
  ghost predicate DropsAt(before: State, after: State, tx: TxId, nodes: set<nat>) {
    && after.applied == before.applied
    && forall a :: a in after.pending <==> a in before.pending && !(a.tx == tx && a.node in nodes)
  }

  /** A PREPARE fails. */
  lemma FailNow(run: seq<State>, tx: TxId) returns (run': seq<State>)
    requires IsRun(run) && tx in Last(run).txs && tx in Last(run).batches
    requires Last(run).txs[tx].phase.Preparing? && Last(run).txs[tx].phase.waiting.Some?
    ensures GoesOn(run, run', tx) && Telling(Last(run'), tx, false, Last(run).txs[tx].voted)
    ensures DropsAt(Last(run), Last(run'), tx, {})
  {
    var s := Last(run);
    var next := WithPhase(s, tx, Finishing(false, s.txs[tx].voted, None));
    assert TxStep(s, next, tx) by {
      assert PrepareFailsStep(s, next, tx);
    }
    Extend(run, next);
    run' := run + [next];
  }

  /** A participant is told to abort, and drops what it has staged. */
  lemma DropOne(run: seq<State>, tx: TxId, todo: set<nat>, d: nat) returns (run': seq<State>)
    requires IsRun(run) && Telling(Last(run), tx, false, todo) && d in todo
    ensures GoesOn(run, run', tx) && At(tx, d) in Last(run').told
    ensures Last(run').txs[tx].phase == Finishing(false, todo - {d}, Some(d))
    ensures DropsAt(Last(run), Last(run'), tx, {d})
  {
    var s, a := Last(run), At(tx, d);
    var told := WithPhase(s, tx, Finishing(false, todo - {d}, Some(d))).(aborts := s.aborts + {a});
    assert DestStep(s, told, tx, d) by {
      assert TellStep(s, told, tx, d);
    }
    Extend(run, told);
    var next := told.(aborts := told.aborts - {a}, pending := told.pending - {a}, told := told.told + {a});
    assert AtStep(told, next, a) by {
      assert HandleAbortStep(told, next, a);
    }
    Extend(run + [told], next);
    run' := run + [told] + [next];
  }

  lemma DropsTogether(s: State, m: State, d: State, tx: TxId, first: set<nat>, second: set<nat>)
    requires DropsAt(s, m, tx, first) && DropsAt(m, d, tx, second)
    ensures DropsAt(s, d, tx, first + second)
  {
  }

  lemma AbortAll(run: seq<State>, tx: TxId, todo: set<nat>) returns (run': seq<State>)
    requires IsRun(run) && Telling(Last(run), tx, false, todo)
    ensures GoesOn(run, run', tx) && Telling(Last(run'), tx, false, {}) && DropsAt(Last(run), Last(run'), tx, todo)
    decreases |todo|
  {
    run' := run;
    if todo != {} {
      var d :| d in todo;
      var m := DropOne(run, tx, todo, d);
      m := ToldOne(m, tx, false, todo - {d}, d);
      run' := AbortAll(m, tx, todo - {d});
      DropsTogether(Last(run), Last(m), Last(run'), tx, {d}, todo - {d});
      assert {d} + (todo - {d}) == todo;
    }
  }

  /** The coordinator drops its own share, and returns false. */
  lemma ReturnFalse(run: seq<State>, tx: TxId) returns (run': seq<State>)
    requires IsRun(run) && Telling(Last(run), tx, false, {})
    ensures GoesOn(run, run', tx) && Last(run').txs[tx].phase == Returned(false)
    ensures var b := Last(run).batches[tx]; DropsAt(Last(run), Last(run'), tx, if IsPart(b, b.node) then {b.node}
            else {})
  {
    var s, b := Last(run), Last(run).batches[tx];
    var next := WithPhase(s, tx, Returned(false))
                .(pending := if IsPart(b, b.node) then s.pending - {At(tx, b.node)} else s.pending);
    assert TxStep(s, next, tx) by {
      assert FinishAbortStep(s, next, tx);
    }
    Extend(run, next);
    run' := run + [next];
  }

  /**
   From every reachable state in which a PREPARE is waited for, a put whose PREPARE fails and whose ABORTs are
   answered returns false. What it had staged at the nodes that have voted, and at its own, is dropped, and
   nothing else is; a node that has staged its share without the coordinator hearing of it keeps it.
   */
  lemma FailedPutAborts(run: seq<State>, tx: TxId) returns (run': seq<State>)
    requires IsRun(run) && tx in Last(run).txs && tx in Last(run).batches
    requires Last(run).txs[tx].phase.Preparing? && Last(run).txs[tx].phase.waiting.Some?
    ensures GoesOn(run, run', tx) && Last(run').txs[tx].phase == Returned(false)
    ensures var s, b := Last(run), Last(run).batches[tx];
            DropsAt(s, Last(run'), tx, s.txs[tx].voted + (if IsPart(b, b.node) then {b.node} else {}))
  {
    var s, b := Last(run), Last(run).batches[tx];
    var own := if IsPart(b, b.node) then {b.node} else {};
    var failed := FailNow(run, tx);
    var told := AbortAll(failed, tx, s.txs[tx].voted);
    run' := ReturnFalse(told, tx);
    DropsTogether(s, Last(failed), Last(told), tx, {}, s.txs[tx].voted);
    DropsTogether(s, Last(told), Last(run'), tx, {} + s.txs[tx].voted, own);
    assert {} + s.txs[tx].voted == s.txs[tx].voted;
  }
}

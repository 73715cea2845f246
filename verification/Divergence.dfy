/**
 Three ways in which the copies of a key come to differ for good, although every put
 has returned true: runs of two nodes that put values to key 0. A COMMIT is lost; or
 nothing is lost and two commits overlap; or nothing is lost, nothing overlaps, and the
 value does not fit on the wire. What the copies hold then follows from module
 LastWriters, as in any other run.
 */
module Divergence {
  import opened Options
  import opened Placement
  import opened TwoPhaseCommit
  import opened LastWriters
  import opened ReplicaAgreement
  import CommitPhases
  import WireFormat

  const NODES: nat := 2

  /** put(0, v) at node c. */
  function PutZero(c: nat, v: Value): Batch {
    Batch(c, [KV(0, v)], map[0 := [KV(0, v)], 1 := [KV(0, v)]])
  }

  function Last(run: seq<State>): State
    requires |run| > 0
  {
    run[|run| - 1]
  }

  lemma Extend(run: seq<State>, s': State)
    requires IsRun(run) && Next(Last(run), s')
    ensures IsRun(run + [s'])
  {
    var run' := run + [s'];
    forall i | 0 < i < |run'| ensures StepAt(run', i) {
      if i < |run| {
        assert StepAt(run, i);
      }
    }
  }

  lemma OrderGrows(s: State, s': State)
    requires Next(s, s')
    ensures |s.order| <= |s'.order|
  {
    if tx :| TxStep(s, s', tx) && !DecideStep(s, s', tx) {
      TxStepIsQuiet(s, s', tx);
    } else if tx, dest :| DestStep(s, s', tx, dest) {
      DestStepIsQuiet(s, s', tx, dest);
    }
  }

  lemma {:induction false} OrderGrowsAlong(run: seq<State>, i: nat, j: nat)
    requires IsRun(run) && i <= j < |run|
    ensures |run[i].order| <= |run[j].order|
    decreases j - i
  {
    if i < j {
      OrderGrowsAlong(run, i, j - 1);
      assert StepAt(run, j);
      OrderGrows(run[j - 1], run[j]);
    }
  }

  /** With one decision there is nothing to overlap. */
  lemma OneDecisionIsSerial(run: seq<State>, k: Key)
    requires IsRun(run) && |Last(run).order| <= 1
    ensures IsSerialRun(run, k)
  {
    forall i | 0 < i < |run| ensures NoOverlapAt(run, i, k) {
      InvAt(run, i - 1);
      OrderGrowsAlong(run, i, |run| - 1);
    }
  }

  lemma PutZeroIsShared(c: nat, v: Value)
    ensures var b := PutZero(c, v); IsGrouping(b.shares, b.kvs, NODES)
  {
    var kvs := [KV(0, v)];
    assert kvs[..0] == [];
    forall p: nat ensures Share(kvs, p, NODES) == if p < 2 then kvs else [] {
      assert Share(kvs[..0], p, NODES) == [];
    }
  }

  /** What the other participant stages. */
  function Received(v: Value): seq<KV> {
    [KV(0, WireFormat.Sent(v))]
  }

  lemma PutZeroOnWire(v: Value)
    ensures OnWire([KV(0, v)]) == Received(v)
  {
  }

  /** Two nodes, and nothing in flight that anyone waits for. */
  predicate TwoNodes(s: State) {
    s.n == NODES && |s.counters| == |s.tables| == |s.applied| == NODES
  }

  function Other(c: nat): nat {
    if c == 0 then 1 else 0
  }

  /** The state after the prepare phase of put(0, v) at node c. */
  function AfterPrepare(s: State, c: nat, v: Value): State
    requires c < |s.counters|
  {
    var tx, r := MakeTxId(c, s.counters[c]), Other(c);
    s.(counters := s.counters[c := s.counters[c] + 1], batches := s.batches[tx := PutZero(c, v)],
       txs := s.txs[tx := Coordinator({r}, Preparing({}, None))],
       pending := s.pending[At(tx, c) := [KV(0, v)]][At(tx, r) := Received(v)])
  }

  /** put takes its id. */
  lemma Begin(run: seq<State>, c: nat, v: Value) returns (run': seq<State>)
    requires IsRun(run) && TwoNodes(Last(run)) && c < NODES && Last(run).counters[c] < WORD
    ensures var s := Last(run); var tx := MakeTxId(c, s.counters[c]);
            && IsRun(run')
            && Last(run') == s.(counters := s.counters[c := s.counters[c] + 1],
                                batches := s.batches[tx := PutZero(c, v)],
                                txs := s.txs[tx := Coordinator({}, Staging)])
  {
    var s, b := Last(run), PutZero(c, v);
    var tx := MakeTxId(c, s.counters[c]);
    PutZeroIsShared(c, v);
    var s1 := s.(counters := s.counters[c := s.counters[c] + 1], batches := s.batches[tx := b],
                 txs := s.txs[tx := Coordinator({}, Staging)]);
    assert BeginStep(s, s1, b);
    Extend(run, s1);
    run' := run + [s1];
  }

  /** ... and stages its own share. */
  lemma Stage(run: seq<State>, tx: TxId, c: nat, v: Value) returns (run': seq<State>)
    requires IsRun(run) && c < NODES
    requires var s := Last(run);
             tx in s.txs && s.txs[tx] == Coordinator({}, Staging) && tx in s.batches && s.batches[tx] == PutZero(c, v)
    ensures var s := Last(run);
            && IsRun(run')
            && Last(run') == WithPhase(s, tx, Preparing({Other(c)}, None))
                             .(pending := s.pending[At(tx, c) := [KV(0, v)]])
  {
    var s := Last(run);
    assert Remotes(PutZero(c, v)) == {Other(c)};
    var s1 := WithPhase(s, tx, Preparing({Other(c)}, None)).(pending := s.pending[At(tx, c) := [KV(0, v)]]);
    assert TxStep(s, s1, tx) by {
      assert StageStep(s, s1, tx);
    }
    Extend(run, s1);
    run' := run + [s1];
  }

  /** The participant r is asked. */
  lemma Ask(run: seq<State>, tx: TxId, r: nat, v: Value) returns (run': seq<State>)
    requires IsRun(run)
    requires var s := Last(run);
             && tx in s.txs && s.txs[tx] == Coordinator({}, Preparing({r}, None)) && tx in s.batches
             && r in s.batches[tx].shares && s.batches[tx].shares[r] == [KV(0, v)]
    ensures var s := Last(run);
            && IsRun(run')
            && Last(run') == WithPhase(s, tx, Preparing({}, Some(r))).(prepares := s.prepares[At(tx, r) := Received(v)])
  {
    var s := Last(run);
    PutZeroOnWire(v);
    assert {r} - {r} == {};
    var s1 := WithPhase(s, tx, Preparing({}, Some(r))).(prepares := s.prepares[At(tx, r) := Received(v)]);
    assert DestStep(s, s1, tx, r) by {
      assert AskStep(s, s1, tx, r);
    }
    Extend(run, s1);
    run' := run + [s1];
  }

  /** The participant stages its share and its reply arrives. */
  lemma Answer(run: seq<State>, tx: TxId, r: nat) returns (run': seq<State>)
    requires IsRun(run)
    requires var s, a := Last(run), At(tx, r);
             tx in s.txs && s.txs[tx] == Coordinator({}, Preparing({}, Some(r))) && a in s.prepares && a !in s.yes
    ensures var s, a := Last(run), At(tx, r);
            IsRun(run') && Last(run') == s.(txs := s.txs[tx := Coordinator({r}, Preparing({}, None))],
                                            pending := s.pending[a := s.prepares[a]], prepares := s.prepares - {a})
  {
    var s, a := Last(run), At(tx, r);
    var s1 := s.(pending := s.pending[a := s.prepares[a]], prepares := s.prepares - {a}, yes := s.yes + {a});
    assert AtStep(s, s1, a) by {
      assert HandlePrepareStep(s, s1, a);
    }
    Extend(run, s1);
    assert {} + {r} == {r} && s.yes + {a} - {a} == s.yes;
    var s2 := s1.(txs := s1.txs[tx := Coordinator({r}, Preparing({}, None))], yes := s.yes);
    assert DestStep(s1, s2, tx, r) by {
      assert VoteStep(s1, s2, tx, r);
    }
    Extend(run + [s1], s2);
    run' := run + [s1] + [s2];
  }

  lemma AskAndAnswer(run: seq<State>, tx: TxId, r: nat, v: Value) returns (run': seq<State>)
    requires IsRun(run)
    requires var s := Last(run);
             && tx in s.txs && s.txs[tx] == Coordinator({}, Preparing({r}, None)) && tx in s.batches
             && r in s.batches[tx].shares && s.batches[tx].shares[r] == [KV(0, v)]
             && At(tx, r) !in s.prepares && At(tx, r) !in s.yes
    ensures var s := Last(run);
            IsRun(run') && Last(run') == s.(txs := s.txs[tx := Coordinator({r}, Preparing({}, None))],
                                            pending := s.pending[At(tx, r) := Received(v)])
  {
    var s := Last(run);
    run' := Ask(run, tx, r, v);
    run' := Answer(run', tx, r);
    assert s.prepares[At(tx, r) := Received(v)] - {At(tx, r)} == s.prepares;
  }

  /** put(0, v) at node c has its id and its own share staged. */
  function AfterStage(s: State, c: nat, v: Value): State
    requires c < |s.counters|
  {
    var tx := MakeTxId(c, s.counters[c]);
    s.(counters := s.counters[c := s.counters[c] + 1], batches := s.batches[tx := PutZero(c, v)],
       txs := s.txs[tx := Coordinator({}, Preparing({Other(c)}, None))], pending := s.pending[At(tx, c) := [KV(0, v)]])
  }

  lemma BeginAndStage(run: seq<State>, c: nat, v: Value) returns (run': seq<State>)
    requires IsRun(run) && TwoNodes(Last(run)) && c < NODES && Last(run).counters[c] < WORD
    ensures IsRun(run') && Last(run') == AfterStage(Last(run), c, v)
  {
    run' := Begin(run, c, v);
    run' := Stage(run', MakeTxId(c, Last(run).counters[c]), c, v);
  }

  lemma PreparePhase(run: seq<State>, c: nat, v: Value) returns (run': seq<State>)
    requires IsRun(run) && TwoNodes(Last(run)) && c < NODES && Last(run).counters[c] < WORD
    requires var a := At(MakeTxId(c, Last(run).counters[c]), Other(c)); a !in Last(run).prepares && a !in Last(run).yes
    ensures IsRun(run') && Last(run') == AfterPrepare(Last(run), c, v)
  {
    run' := BeginAndStage(run, c, v);
    run' := AskAndAnswer(run', MakeTxId(c, Last(run).counters[c]), Other(c), v);
  }

  lemma Decide(run: seq<State>, tx: TxId) returns (run': seq<State>)
    requires IsRun(run) && tx in Last(run).txs && Last(run).txs[tx].phase == Preparing({}, None)
    ensures var s := Last(run);
            && IsRun(run')
            && Last(run') == WithPhase(s, tx, Finishing(true, s.txs[tx].voted, None)).(order := s.order + [tx])
  {
    var s := Last(run);
    var s1 := WithPhase(s, tx, Finishing(true, s.txs[tx].voted, None)).(order := s.order + [tx]);
    assert TxStep(s, s1, tx) by {
      assert DecideStep(s, s1, tx);
    }
    Extend(run, s1);
    run' := run + [s1];
  }

  /** The COMMIT to r is lost. */
  lemma LoseCommit(run: seq<State>, tx: TxId, r: nat) returns (run': seq<State>)
    requires IsRun(run) && tx in Last(run).txs && Last(run).txs[tx].phase == Finishing(true, {r}, None)
    ensures var s := Last(run);
            && IsRun(run')
            && Last(run') == WithPhase(s, tx, Finishing(true, {}, None)).(commits := s.commits + {At(tx, r)})
  {
    var s := Last(run);
    assert {r} - {r} == {};
    var s1 := WithPhase(s, tx, Finishing(true, {}, Some(r))).(commits := s.commits + {At(tx, r)});
    assert DestStep(s, s1, tx, r) by {
      assert TellStep(s, s1, tx, r);
    }
    Extend(run, s1);
    var s2 := WithPhase(s1, tx, Finishing(true, {}, None));
    assert TxStep(s1, s2, tx) by {
      assert TellFailsStep(s1, s2, tx);
    }
    Extend(run + [s1], s2);
    run' := run + [s1] + [s2];
  }

  /** Transaction a.tx, staged at a.node, has been applied there. */
  function AfterApply(s: State, a: At): State
    requires a in s.pending && a.node < |s.tables| && a.node < |s.applied|
  {
    s.(pending := s.pending - {a}, tables := s.tables[a.node := Replay(s.pending[a], s.tables[a.node])],
       applied := s.applied[a.node := s.applied[a.node] + [a.tx]])
  }

  /** The COMMIT to r arrives: handle_commit takes what is staged. */
  lemma DeliverCommit(run: seq<State>, tx: TxId, r: nat) returns (run': seq<State>)
    requires IsRun(run)
    requires var s, a := Last(run), At(tx, r);
             tx in s.txs && s.txs[tx].phase == Finishing(true, {r}, None) && a in s.pending && a !in s.commits
    ensures var s, a := Last(run), At(tx, r);
            IsRun(run') && Last(run') == WithPhase(s, tx, Finishing(true, {}, Some(r)))
                                         .(pending := s.pending - {a}, taken := s.taken[a := s.pending[a]])
  {
    var s, a := Last(run), At(tx, r);
    assert {r} - {r} == {};
    var s1 := WithPhase(s, tx, Finishing(true, {}, Some(r))).(commits := s.commits + {a});
    assert DestStep(s, s1, tx, r) by {
      assert TellStep(s, s1, tx, r);
    }
    Extend(run, s1);
    assert s.commits + {a} - {a} == s.commits;
    var s2 := s1.(commits := s.commits, pending := s.pending - {a}, taken := s.taken[a := s.pending[a]]);
    assert AtStep(s1, s2, a) by {
      assert HandleCommitStep(s1, s2, a);
    }
    Extend(run + [s1], s2);
    run' := run + [s1] + [s2];
  }

  /** What has been taken is applied, and the reply arrives. */
  lemma ApplyAndReply(run: seq<State>, tx: TxId, r: nat) returns (run': seq<State>)
    requires IsRun(run) && r < |Last(run).tables| && r < |Last(run).applied|
    requires var s, a := Last(run), At(tx, r);
             && tx in s.txs && s.txs[tx].phase == Finishing(true, {}, Some(r)) && tx in s.batches
             && s.batches[tx].node != r
             && a in s.taken && a !in s.told
    ensures var s, a := Last(run), At(tx, r);
            IsRun(run') && Last(run') == WithPhase(s, tx, Finishing(true, {}, None))
                                         .(taken := s.taken - {a},
                                           tables := s.tables[r := Replay(s.taken[a], s.tables[r])],
                                           applied := s.applied[r := s.applied[r] + [tx]])
  {
    var s, a := Last(run), At(tx, r);
    var s1 := s.(taken := s.taken - {a}, tables := s.tables[r := Replay(s.taken[a], s.tables[r])],
                 applied := s.applied[r := s.applied[r] + [tx]], told := s.told + {a});
    assert AtStep(s, s1, a) by {
      assert ApplyStep(s, s1, a);
    }
    Extend(run, s1);
    assert s.told + {a} - {a} == s.told;
    var s2 := WithPhase(s1, tx, Finishing(true, {}, None)).(told := s.told);
    assert DestStep(s1, s2, tx, r) by {
      assert ToldStep(s1, s2, tx, r);
    }
    Extend(run + [s1], s2);
    run' := run + [s1] + [s2];
  }

  /** The COMMIT to r arrives and is applied, and its reply arrives. */
  lemma CommitAt(run: seq<State>, tx: TxId, r: nat) returns (run': seq<State>)
    requires IsRun(run) && r < |Last(run).tables| && r < |Last(run).applied|
    requires var s, a := Last(run), At(tx, r);
             && tx in s.txs && s.txs[tx].phase == Finishing(true, {r}, None) && tx in s.batches
             && s.batches[tx].node != r
             && a in s.pending && a !in s.commits && a !in s.told && a !in s.taken
    ensures var s, a := Last(run), At(tx, r);
            IsRun(run') && Last(run') == WithPhase(AfterApply(s, a), tx, Finishing(true, {}, None))
  {
    var s, a := Last(run), At(tx, r);
    run' := DeliverCommit(run, tx, r);
    run' := ApplyAndReply(run', tx, r);
    assert s.taken[a := s.pending[a]] - {a} == s.taken;
  }

  /** The coordinator takes its own share. */
  lemma TakeHere(run: seq<State>, tx: TxId) returns (run': seq<State>)
    requires IsRun(run) && tx in Last(run).txs && tx in Last(run).batches
    requires var s := Last(run); var a := At(tx, s.batches[tx].node);
             s.txs[tx].phase == Finishing(true, {}, None) && IsPart(s.batches[tx], a.node) && a in s.pending
    ensures var s := Last(run); var a := At(tx, s.batches[tx].node);
            && IsRun(run')
            && Last(run') == WithPhase(s, tx, Applying)
                             .(pending := s.pending - {a}, taken := s.taken[a := s.pending[a]])
  {
    var s := Last(run);
    var a := At(tx, s.batches[tx].node);
    var s1 := WithPhase(s, tx, Applying).(pending := s.pending - {a}, taken := s.taken[a := s.pending[a]]);
    assert TxStep(s, s1, tx) by {
      assert FinishCommitStep(s, s1, tx);
    }
    Extend(run, s1);
    run' := run + [s1];
  }

  /** The coordinator applies its own share and returns true. */
  lemma FinishHere(run: seq<State>, tx: TxId) returns (run': seq<State>)
    requires IsRun(run) && tx in Last(run).txs && tx in Last(run).batches
    requires var s := Last(run); var a := At(tx, s.batches[tx].node);
             && s.txs[tx].phase == Finishing(true, {}, None) && IsPart(s.batches[tx], a.node)
             && a.node < |s.tables| && a.node < |s.applied| && a in s.pending && a !in s.taken
    ensures var s := Last(run); var a := At(tx, s.batches[tx].node);
            IsRun(run') && Last(run') == WithPhase(AfterApply(s, a), tx, Returned(true))
  {
    var s := Last(run);
    var a := At(tx, s.batches[tx].node);
    run' := TakeHere(run, tx);
    assert s.taken[a := s.pending[a]] - {a} == s.taken;
    var s2 := WithPhase(AfterApply(s, a), tx, Returned(true));
    assert AtStep(Last(run'), s2, a) by {
      assert ApplyStep(Last(run'), s2, a);
    }
    Extend(run', s2);
    run' := run' + [s2];
  }

  /** Two nodes at the start. */
  function Start(): State {
    State(NODES, seq(NODES, _ => 0), map[], map[], map[], map[], seq(NODES, _ => map[]), seq(NODES, _ => []), map[],
      {}, {}, {}, {}, [])
  }

  /** put(0, v) at node 0, all but its commit phase. */
  lemma OnePrepared(v: Value) returns (run: seq<State>, tx: TxId)
    ensures IsRun(run) && tx == MakeTxId(0, 0) && Last(run) == AfterPrepare(Start(), 0, v)
  {
    tx := MakeTxId(0, 0);
    run := PreparePhase([Start()], 0, v);
  }

  lemma WritersOfZero(batches: map<TxId, Batch>, tx: TxId, c: nat, v: Value)
    requires tx in batches && batches[tx] == PutZero(c, v)
    ensures Writers(batches, [tx], 0) == [tx] && LastValue(batches[tx].kvs, 0) == v
  {
    assert [KV(0, v)][0].key == 0;
    assert [tx] == [] + [tx];
    WritersOneMore(batches, [], tx, 0);
  }

  /** put(0, v) at node 0 has returned true, and it is all there is. */
  ghost predicate OneReturned(s: State, tx: TxId, v: Value) {
    && TwoNodes(s) && tx in s.txs && s.txs[tx].phase == Returned(true)
    && tx in s.batches && s.batches[tx] == PutZero(0, v) && s.order == [tx] && CommitPhases.NoneOpen(s, 0)
  }

  lemma OneLost(v: Value) returns (run: seq<State>, tx: TxId)
    ensures IsRun(run) && OneReturned(Last(run), tx, v) && Last(run).applied == [[tx], []]
  {
    run, tx := OnePrepared(v);
    run := Decide(run, tx);
    run := LoseCommit(run, tx, 1);
    run := FinishHere(run, tx);
    assert [] + [tx] == [tx];
    assert Last(run).applied == [[tx], []];
  }

  lemma OneArrives(v: Value) returns (run: seq<State>, tx: TxId)
    ensures IsRun(run) && OneReturned(Last(run), tx, v) && Last(run).applied == [[tx], [tx]] && Last(run).commits == {}
  {
    run, tx := OnePrepared(v);
    run := Decide(run, tx);
    run := CommitAt(run, tx, 1);
    run := FinishHere(run, tx);
    assert [] + [tx] == [tx];
    assert Last(run).applied == [[tx], [tx]];
  }

  /** What the copies are, and what they lack, once one put has returned. */
  lemma CopiesOfOne(run: seq<State>, tx: TxId, v: Value, node: nat)
    requires IsRun(run) && OneReturned(Last(run), tx, v) && node < NODES
    requires Last(run).applied[node] == [tx] || Last(run).applied[node] == []
    ensures var s := Last(run);
            Lookup(s.tables[node], 0) == if s.applied[node] == [] then None
              else Some(if node == 0 then v else WireFormat.Sent(v))
    ensures Lacks(Last(run), node, 0) <==> Last(run).applied[node] == []
    ensures var s := Last(run); Writers(s.batches, s.order, 0) == [tx] && LastValue(s.batches[tx].kvs, 0) == v
  {
    var s := Last(run);
    WritersOfZero(s.batches, tx, 0, v);
    CopyIsLastWrite(run, node, 0);
    if s.applied[node] == [] {
      assert !Applied(s, At(tx, node));
    }
  }

  /**
   A lost COMMIT: put returns true, and the replica never hears of the value. Commits on the key
   do not overlap; the replica lacks the writer.
   */
  lemma LostCommitDiverges(v: Value) returns (run: seq<State>, tx: TxId)
    ensures IsRun(run) && IsSerialRun(run, 0) && CommitPhases.NoneOpen(Last(run), 0)
    ensures var s := Last(run); tx in s.txs && s.txs[tx].phase == Returned(true) && s.applied == [[tx], []]
    ensures !Lacks(Last(run), Owner(0, NODES), 0) && Lacks(Last(run), Replica(0, NODES), 0)
    ensures var s := Last(run);
            |s.tables| == NODES && Lookup(s.tables[Owner(0, NODES)], 0) == Some(v)
              && Lookup(s.tables[Replica(0, NODES)], 0) == None
  {
    run, tx := OneLost(v);
    OneDecisionIsSerial(run, 0);
    CopiesOfOne(run, tx, v, 0);
    CopiesOfOne(run, tx, v, 1);
  }

  /**
   A value that does not fit: nothing is lost, nothing overlaps, both nodes have applied the put, and
   the copies agree if and only if the value fits.
   */
  lemma UnfitValueDiverges(v: Value) returns (run: seq<State>, tx: TxId)
    ensures IsRun(run) && IsSerialRun(run, 0) && CommitPhases.NoneOpen(Last(run), 0)
    ensures var s := Last(run);
            tx in s.txs && s.txs[tx].phase == Returned(true) && s.commits == {} && s.order == [tx]
              && s.applied == [[tx], [tx]]
    ensures !Lacks(Last(run), Owner(0, NODES), 0) && !Lacks(Last(run), Replica(0, NODES), 0)
    ensures var s := Last(run);
            && |s.tables| == NODES && Lookup(s.tables[Owner(0, NODES)], 0) == Some(v)
            && Lookup(s.tables[Replica(0, NODES)], 0) == Some(WireFormat.Sent(v))
            && (Lookup(s.tables[Owner(0, NODES)], 0) == Lookup(s.tables[Replica(0, NODES)], 0) <==> WireFormat.Fits(v))
  {
    run, tx := OneArrives(v);
    OneDecisionIsSerial(run, 0);
    CopiesOfOne(run, tx, v, 0);
    CopiesOfOne(run, tx, v, 1);
    CopiesAgree(run, 0);
  }

  /** put(0, v) at node 0 and put(0, w) at node 1 are decided; the COMMITs to rt and ru are still to be sent. */
  ghost predicate BothDecided(s: State, t: TxId, u: TxId, v: Value, w: Value, rt: set<nat>, ru: set<nat>) {
    && t == MakeTxId(0, 0) && u == MakeTxId(1, 0) && t != u && TwoNodes(s)
    && s.txs == map[t := Coordinator({1}, Finishing(true, rt, None)), u := Coordinator({0}, Finishing(true, ru, None))]
    && s.batches == map[t := PutZero(0, v), u := PutZero(1, w)]
    && s.commits == {} && s.taken == map[] && s.told == {} && s.order == [t, u]
    && At(t, 0) in s.pending && At(u, 1) in s.pending
    && (1 in rt ==> At(t, 1) in s.pending) && (0 in ru ==> At(u, 0) in s.pending)
  }

  lemma TwoDecided(v: Value, w: Value) returns (run: seq<State>, t: TxId, u: TxId)
    ensures IsRun(run) && BothDecided(Last(run), t, u, v, w, {1}, {0}) && Last(run).applied == [[], []]
  {
    run, t := OnePrepared(v);
    u := MakeTxId(1, 0);
    run := PreparePhase(run, 1, w);
    run := Decide(run, t);
    run := Decide(run, u);
  }

  /** The COMMIT of the first put arrives at the replica, that of the second at the owner. */
  lemma TwoCommitted(v: Value, w: Value) returns (run: seq<State>, t: TxId, u: TxId)
    ensures IsRun(run) && BothDecided(Last(run), t, u, v, w, {}, {}) && Last(run).applied == [[u], [t]]
  {
    run, t, u := TwoDecided(v, w);
    run := CommitAt(run, t, 1);
    assert BothDecided(Last(run), t, u, v, w, {}, {0});
    assert [] + [t] == [t] && [] + [u] == [u];
    assert Last(run).applied == [[], [t]];
    run := CommitAt(run, u, 0);
    assert Last(run).applied == [[u], [t]];
  }

  lemma WritersOfBoth(batches: map<TxId, Batch>, t: TxId, u: TxId, c: nat, v: Value)
    requires Writes(batches, t, 0) && u in batches && batches[u] == PutZero(c, v)
    ensures Writers(batches, [t, u], 0) == [t, u] && LastValue(batches[u].kvs, 0) == v
  {
    WritersOfZero(batches, u, c, v);
    WritersOneMore(batches, [], t, 0);
    assert [t] == [] + [t] && [t, u] == [t] + [u];
    WritersOneMore(batches, [t], u, 0);
  }

  /** Both puts have returned true, having been applied in one order here and in the other there. */
  ghost predicate BothReturned(s: State, t: TxId, u: TxId, v: Value, w: Value) {
    && TwoNodes(s) && t != u && t in s.txs && s.txs[t].phase == Returned(true) && u in s.txs
    && s.txs[u].phase == Returned(true)
    && t in s.batches && s.batches[t] == PutZero(0, v) && u in s.batches && s.batches[u] == PutZero(1, w)
    && s.commits == {} && s.order == [t, u] && s.applied == [[u, t], [t, u]] && CommitPhases.NoneOpen(s, 0)
  }

  lemma TwoReturned(v: Value, w: Value) returns (run: seq<State>, t: TxId, u: TxId)
    ensures IsRun(run) && BothReturned(Last(run), t, u, v, w)
  {
    run, t, u := TwoCommitted(v, w);
    run := FinishHere(run, t);
    run := FinishHere(run, u);
    assert [u] + [t] == [u, t] && [t] + [u] == [t, u];
    assert Last(run).applied == [[u, t], [t, u]];
  }

  lemma WritersOfTwo(s: State, t: TxId, u: TxId, v: Value, w: Value)
    requires BothReturned(s, t, u, v, w)
    ensures Writers(s.batches, s.applied[0], 0) == [u, t] && LastValue(s.batches[t].kvs, 0) == v
    ensures Writers(s.batches, s.applied[1], 0) == Writers(s.batches, s.order, 0) == [t, u]
    ensures LastValue(s.batches[u].kvs, 0) == w
  {
    WritersOfZero(s.batches, u, 1, w);
    WritersOfZero(s.batches, t, 0, v);
    WritersOfBoth(s.batches, u, t, 0, v);
    WritersOfBoth(s.batches, t, u, 1, w);
  }

  /**
   Two commits overlap: nothing is lost, both puts return true and have been applied at both nodes;
   but the owner has applied them in one order and the replica in the other.
   */
  lemma OverlapDiverges(v: Value, w: Value) returns (run: seq<State>, t: TxId, u: TxId)
    ensures IsRun(run) && !IsSerialRun(run, 0) && t != u && CommitPhases.NoneOpen(Last(run), 0)
    ensures var s := Last(run);
            && t in s.txs && s.txs[t].phase == Returned(true) && u in s.txs && s.txs[u].phase == Returned(true)
            && s.commits == {} && s.order == [t, u] && s.applied == [[u, t], [t, u]]
    ensures var s := Last(run);
            && |s.tables| == NODES && Lookup(s.tables[Owner(0, NODES)], 0) == Some(v)
            && Lookup(s.tables[Replica(0, NODES)], 0) == Some(w)
  {
    run, t, u := TwoReturned(v, w);
    WritersOfTwo(Last(run), t, u, v, w);
    CopyIsLastWrite(run, 0, 0);
    CopyIsLastWrite(run, 1, 0);
    if IsSerialRun(run, 0) {
      WritersApplyInOrder(run, 0, 0);
    }
  }
}

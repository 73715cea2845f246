/**
 The code of a node is what module TwoPhaseCommit takes steps of: what a step of the
 protocol does to a node is what the node's method does, and to all other nodes it does
 nothing.
 */
module NodeSteps {
  import opened Placement
  import opened TwoPhaseCommit
  import Nodes

  /** What is staged at a node. */
  ghost function StagedAt(pending: map<At, seq<KV>>, node: nat): map<TxId, seq<KV>> {
    map a | a in pending && a.node == node :: a.tx := pending[a]
  }

  /** A node as the protocol has it. */
  ghost function ViewOf(s: State, node: nat): Nodes.View
    requires node < |s.counters| && node < |s.tables|
  {
    Nodes.View(s.counters[node] % WORD, StagedAt(s.pending, node), s.tables[node])
  }

  /** The nodes but one are as they were. */
  ghost predicate OthersSame(s: State, s': State, node: nat) {
    && |s'.counters| == |s.counters| == |s'.tables| == |s.tables|
    && forall m | 0 <= m < |s.counters| && m != node :: ViewOf(s', m) == ViewOf(s, m)
  }

  lemma StagedOneMore(pending: map<At, seq<KV>>, a: At, kvs: seq<KV>, node: nat)
    ensures StagedAt(pending[a := kvs], node) ==
            if node == a.node then StagedAt(pending, node)[a.tx := kvs] else StagedAt(pending, node)
  {
  }

  lemma StagedOneLess(pending: map<At, seq<KV>>, a: At, node: nat)
    ensures StagedAt(pending - {a}, node) ==
            if node == a.node then StagedAt(pending, node) - {a.tx} else StagedAt(pending, node)
  {
    var less := StagedAt(pending - {a}, node);
    forall tx ensures tx in less <==> At(tx, node) in pending && At(tx, node) != a {
      assert tx in less <==> At(tx, node) in pending - {a};
    }
    forall tx ensures tx in StagedAt(pending, node) <==> At(tx, node) in pending {
    }
  }

  /** A change of what is staged for a.tx at a.node, and of nothing else. */
  lemma StagesAt(s: State, s': State, a: At, kvs: seq<KV>)
    requires s'.counters == s.counters && s'.tables == s.tables && a.node < |s.counters| == |s.tables|
    requires s'.pending == s.pending[a := kvs]
    ensures ViewOf(s', a.node) == Nodes.AfterPrepare(ViewOf(s, a.node), a.tx, kvs) && OthersSame(s, s', a.node)
  {
    forall m | 0 <= m < |s.counters| ensures m != a.node ==> ViewOf(s', m) == ViewOf(s, m) {
      StagedOneMore(s.pending, a, kvs, m);
    }
    StagedOneMore(s.pending, a, kvs, a.node);
  }

  lemma DropsAt(s: State, s': State, a: At)
    requires s'.counters == s.counters && s'.tables == s.tables && a.node < |s.counters| == |s.tables|
    requires s'.pending == s.pending - {a}
    ensures ViewOf(s', a.node) == Nodes.AfterAbort(ViewOf(s, a.node), a.tx) && OthersSame(s, s', a.node)
  {
    forall m | 0 <= m < |s.counters| ensures m != a.node ==> ViewOf(s', m) == ViewOf(s, m) {
      StagedOneLess(s.pending, a, m);
    }
    StagedOneLess(s.pending, a, a.node);
  }

  // ------------------------------------------------------------------- participants

  lemma HandlePrepareIsStep(s: State, s': State, a: At)
    requires HandlePrepareStep(s, s', a) && a.node < |s.counters| == |s.tables|
    ensures ViewOf(s', a.node) == Nodes.AfterPrepare(ViewOf(s, a.node), a.tx, s.prepares[a])
    ensures OthersSame(s, s', a.node)
  {
    StagesAt(s, s', a, s.prepares[a]);
  }

  lemma HandleAbortIsStep(s: State, s': State, a: At)
    requires HandleAbortStep(s, s', a) && a.node < |s.counters| == |s.tables|
    ensures ViewOf(s', a.node) == Nodes.AfterAbort(ViewOf(s, a.node), a.tx) && OthersSame(s, s', a.node)
  {
    DropsAt(s, s', a);
  }

  /** handle_commit takes the writes in one step ... */
  lemma HandleCommitTakes(s: State, m: State, a: At)
    requires HandleCommitStep(s, m, a) && a.node < |s.counters| == |s.tables|
    ensures ViewOf(m, a.node) == Nodes.AfterAbort(ViewOf(s, a.node), a.tx) && OthersSame(s, m, a.node)
    ensures a in s.pending <==> a.tx in StagedAt(s.pending, a.node)
    ensures a in s.pending ==> a in m.taken && m.taken[a] == StagedAt(s.pending, a.node)[a.tx]
  {
    DropsAt(s, m, a);
    assert a == At(a.tx, a.node);
  }

  /** ... and replays them in another one. */
  lemma ApplyReplays(m: State, s': State, a: At)
    requires ApplyStep(m, s', a) && a.node < |m.counters| == |m.tables|
    ensures var v := ViewOf(m, a.node);
            OthersSame(m, s', a.node) && ViewOf(s', a.node) == v.(table := Replay(m.taken[a], v.table))
  {
  }

  /** With nothing in between, the two are HandleCommit. */
  lemma HandleCommitIsSteps(s: State, m: State, s': State, a: At)
    requires HandleCommitStep(s, m, a) && a.node < |s.counters| == |s.tables|
    requires if a in s.pending then ApplyStep(m, s', a) else s' == m
    ensures ViewOf(s', a.node) == Nodes.AfterCommit(ViewOf(s, a.node), a.tx) && OthersSame(s, s', a.node)
  {
    HandleCommitTakes(s, m, a);
    if a in s.pending {
      ApplyReplays(m, s', a);
    }
  }

  // -------------------------------------------------------------------- coordinator

  lemma CounterIsWord(c: nat)
    requires c < WORD
    ensures c % WORD == c
  {
  }

  /** put takes its id as NextTxId does. */
  lemma BeginIsNextTxId(s: State, s': State, b: Batch)
    requires BeginStep(s, s', b) && |s.counters| == |s.tables|
    ensures OthersSame(s, s', b.node) && ViewOf(s, b.node).counter == s.counters[b.node]
    ensures ViewOf(s', b.node) == ViewOf(s, b.node).(counter := (s.counters[b.node] + 1) % WORD)
    ensures s'.batches == s.batches[MakeTxId(b.node, s.counters[b.node]) := b]
  {
    CounterIsWord(s.counters[b.node]);
    forall m | 0 <= m < |s.counters| && m != b.node ensures ViewOf(s', m) == ViewOf(s, m) {
      assert s'.counters[m] == s.counters[m];
    }
  }

  /** The node has a share of the batch exactly when it is a participant. */
  lemma PartHasShare(b: Batch, node: nat, n: nat)
    requires BatchOk(b, n)
    ensures IsPart(b, node) <==> Share(b.kvs, node, n) != []
    ensures IsPart(b, node) ==> b.shares[node] == Share(b.kvs, node, n)
  {
  }

  /** It stages its share as PrepareAll does. */
  lemma StageIsPrepare(s: State, s': State, tx: TxId)
    requires StageStep(s, s', tx) && BatchOk(s.batches[tx], s.n) && s.batches[tx].node < |s.counters| == |s.tables|
    ensures var node := s.batches[tx].node; var share := Share(s.batches[tx].kvs, node, s.n);
            && ViewOf(s', node) == (if share != [] then Nodes.AfterPrepare(ViewOf(s, node), tx, share)
                 else ViewOf(s, node))
            && OthersSame(s, s', node)
  {
    var b := s.batches[tx];
    PartHasShare(b, b.node, s.n);
    if IsPart(b, b.node) {
      StagesAt(s, s', At(tx, b.node), b.shares[b.node]);
    }
  }

  /** The PREPARE that goes out is the request that AskAll sends, as the participant receives it. */
  lemma AskIsPrepareRequest(s: State, s': State, tx: TxId, dest: nat)
    requires AskStep(s, s', tx, dest) && BatchOk(s.batches[tx], s.n)
    ensures At(tx, dest) in s'.prepares
    ensures s'.prepares[At(tx, dest)] == Nodes.Received(Nodes.Inputs(Share(s.batches[tx].kvs, dest, s.n)))
  {
    PartHasShare(s.batches[tx], dest, s.n);
    Nodes.ReceivedInputs(s.batches[tx].shares[dest]);
  }

  /** The coordinator's own handle_abort. */
  lemma FinishAbortIsStep(s: State, s': State, tx: TxId)
    requires FinishAbortStep(s, s', tx) && BatchOk(s.batches[tx], s.n)
    requires s.batches[tx].node < |s.counters| == |s.tables|
    ensures var node := s.batches[tx].node;
            && ViewOf(s', node) == (if Share(s.batches[tx].kvs, node, s.n) != []
                 then Nodes.AfterAbort(ViewOf(s, node), tx)
                                    else ViewOf(s, node))
            && OthersSame(s, s', node)
  {
    var b := s.batches[tx];
    PartHasShare(b, b.node, s.n);
    if IsPart(b, b.node) {
      DropsAt(s, s', At(tx, b.node));
    }
  }

  /** The coordinator's own handle_commit takes its writes, if it has staged any ... */
  lemma FinishCommitTakes(s: State, m: State, tx: TxId)
    requires FinishCommitStep(s, m, tx) && s.batches[tx].node < |s.counters| == |s.tables|
    requires var a := At(tx, s.batches[tx].node); IsPart(s.batches[tx], a.node) && a in s.pending
    ensures var a := At(tx, s.batches[tx].node);
            && ViewOf(m, a.node) == Nodes.AfterAbort(ViewOf(s, a.node), tx) && OthersSame(s, m, a.node)
            && tx in StagedAt(s.pending, a.node) && a in m.taken && m.taken[a] == StagedAt(s.pending, a.node)[tx]
  {
    var a := At(tx, s.batches[tx].node);
    DropsAt(s, m, a);
  }

  /** ... and replays them, as FinishLocal does. */
  lemma FinishCommitIsSteps(s: State, m: State, s': State, tx: TxId)
    requires FinishCommitStep(s, m, tx) && s.batches[tx].node < |s.counters| == |s.tables|
    requires var a := At(tx, s.batches[tx].node); IsPart(s.batches[tx], a.node) && a in s.pending && ApplyStep(m, s', a)
    ensures var node := s.batches[tx].node;
            ViewOf(s', node) == Nodes.AfterCommit(ViewOf(s, node), tx) && OthersSame(s, s', node)
  {
    FinishCommitTakes(s, m, tx);
    ApplyReplays(m, s', At(tx, s.batches[tx].node));
  }
}

/**
 When the two copies of a key agree. Locks are not held between the phases and
 replies to COMMIT are ignored, so that a run may decide a transaction while an
 earlier one on the same key is still on its way to a node that holds the key. In
 the runs in which this does not happen, and in no others, the holders apply the
 key's writers in the order of the decisions and are never more than one behind,
 whatever happens to the messages. A holder that is not behind has the value of the
 serial application of the committed batches, but for what the wire does to it, and
 get returns it.
 */
module ReplicaAgreement {
  import opened Options
  import opened Placement
  import opened TwoPhaseCommit
  import opened LastWriters
  import WireFormat

  // ---------------------------------------------------------------------- hypothesis

  /** The node has not applied some committed writer of k. */
  ghost predicate Lacks(s: State, node: nat, k: Key) {
    exists u :: u in s.order && Writes(s.batches, u, k) && !Applied(s, At(u, node))
  }

  /** A writer of k is decided only when no holder of k lacks an earlier one. */
  ghost predicate NoOverlap(s: State, s': State, k: Key)
    requires 0 < s.n
  {
    forall tx, node | DecideStep(s, s', tx) && Writes(s.batches, tx, k) && Holds(node, k, s.n) :: !Lacks(s, node, k)
  }

  ghost predicate NoOverlapAt(run: seq<State>, i: nat, k: Key)
    requires 0 < i < |run|
  {
    0 < run[i - 1].n && NoOverlap(run[i - 1], run[i], k)
  }

  /** A run in which commits on k do not overlap. */
  ghost predicate IsSerialRun(run: seq<State>, k: Key) {
    IsRun(run) && forall i | 0 < i < |run| :: NoOverlapAt(run, i, k)
  }

  // -------------------------------------------------------------- the serial application

  /** The table after all committed batches, in the order of the decisions. */
  ghost function Serial(batches: map<TxId, Batch>, order: seq<TxId>): Table {
    if order == [] then map[]
    else
      var before := Serial(batches, order[..|order| - 1]);
      var tx := order[|order| - 1];
      if tx in batches then Replay(batches[tx].kvs, before) else before
  }

  /** The last committed writer of a key decides its serial value. */
  lemma {:induction false} SerialLookup(batches: map<TxId, Batch>, order: seq<TxId>, k: Key)
    ensures Lookup(Serial(batches, order), k) ==
            if Writers(batches, order, k) == [] then None else Some(LastValue(LastBatch(batches, order, k).kvs, k))
  {
    if order != [] {
      var front, tx := order[..|order| - 1], order[|order| - 1];
      SerialLookup(batches, front, k);
      if tx in batches {
        ReplayLookup(batches[tx].kvs, Serial(batches, front), k);
      }
    }
  }

  // ----------------------------------------------------------------------- invariant

  function Front(ws: seq<TxId>): seq<TxId> {
    if ws == [] then [] else ws[..|ws| - 1]
  }

  /** A node has applied the committed writers of k in the order of the decisions, all of them or all but the last. */
  ghost predicate InOrder(s: State, node: nat, k: Key)
    requires node < |s.applied|
  {
    var ws, applied := Writers(s.batches, s.order, k), Writers(s.batches, s.applied[node], k);
    applied == ws || applied == Front(ws)
  }

  /** And so have all holders. */
  ghost predicate SerialInv(s: State, k: Key) {
    && 0 < s.n == |s.applied|
    && forall node | 0 <= node < s.n && Holds(node, k, s.n) :: InOrder(s, node, k)
  }

  /** Every transaction of the history has its batch, and is decided once, before it is applied. */
  ghost predicate HistoryOk(s: State) {
    && 0 < s.n == |s.applied| && NoDuplicates(s.order)
    && (forall tx | tx in s.order :: tx in s.batches)
    && forall node, tx | 0 <= node < |s.applied| && tx in s.applied[node] :: tx in s.order
  }

  lemma HistoryHolds(s: State)
    requires Inv(s)
    ensures HistoryOk(s)
  {
    forall tx | tx in s.order ensures tx in s.batches {
      assert Committed(s, tx);
    }
    forall node, tx | 0 <= node < |s.applied| && tx in s.applied[node] ensures tx in s.order {
      assert AtOk(s, At(tx, node));
    }
  }

  lemma {:induction false} LastWriterIsNew(batches: map<TxId, Batch>, ids: seq<TxId>, k: Key)
    requires NoDuplicates(ids) && Writers(batches, ids, k) != []
    ensures var ws := Writers(batches, ids, k); ws[|ws| - 1] in ws && ws[|ws| - 1] !in Front(ws)
  {
    var front, last := ids[..|ids| - 1], ids[|ids| - 1];
    if Writes(batches, last, k) {
      assert Front(Writers(batches, ids, k)) == Writers(batches, front, k);
    } else {
      LastWriterIsNew(batches, front, k);
    }
  }

  /** A node that lacks a committed writer of k lacks exactly the last one. */
  lemma BehindByOne(s: State, node: nat, k: Key)
    requires NoDuplicates(s.order) && node < |s.applied| && InOrder(s, node, k)
    ensures Writers(s.batches, s.applied[node], k) ==
            if Lacks(s, node, k) then Front(Writers(s.batches, s.order, k)) else Writers(s.batches, s.order, k)
    ensures Lacks(s, node, k) ==> Writers(s.batches, s.order, k) != []
  {
    var ws, applied := Writers(s.batches, s.order, k), Writers(s.batches, s.applied[node], k);
    if applied != ws {
      LastWriterIsNew(s.batches, s.order, k);
      assert ws[|ws| - 1] !in applied;
      assert !Applied(s, At(ws[|ws| - 1], node));
    }
  }

  // --------------------------------------------------------------------------- steps

  /** Nothing is decided and nothing applied. */
  ghost predicate SameHistory(s: State, s': State) {
    s'.n == s.n && s'.batches == s.batches && s'.order == s.order && s'.applied == s.applied
  }

  lemma SameHistoryKeeps(s: State, s': State, k: Key)
    requires SerialInv(s, k) && SameHistory(s, s')
    ensures SerialInv(s', k)
  {
    forall node | 0 <= node < s.n && Holds(node, k, s.n) ensures InOrder(s', node, k) {
      assert InOrder(s, node, k);
    }
  }

  /** A batch begins. */
  ghost predicate Begins(s: State, s': State, tx: TxId, b: Batch) {
    s'.n == s.n && tx !in s.batches && s'.batches == s.batches[tx := b] && s'.order == s.order
      && s'.applied == s.applied
  }

  lemma BeginKeepsSerial(s: State, s': State, tx: TxId, b: Batch, k: Key)
    requires SerialInv(s, k) && HistoryOk(s) && Begins(s, s', tx, b)
    ensures SerialInv(s', k)
  {
    WritersKept(s.batches, s'.batches, s.order, k);
    forall node | 0 <= node < s.n && Holds(node, k, s.n) ensures InOrder(s', node, k) {
      assert InOrder(s, node, k);
      WritersKept(s.batches, s'.batches, s.applied[node], k);
    }
  }

  /** tx is decided. */
  ghost predicate Decides(s: State, s': State, tx: TxId) {
    s'.n == s.n && s'.batches == s.batches && s'.order == s.order + [tx] && s'.applied == s.applied
  }

  /** A decision on k keeps a node in order if and only if the node lacks no committed writer of k. */
  lemma DecisionInOrder(s: State, s': State, tx: TxId, node: nat, k: Key)
    requires NoDuplicates(s.order) && Decides(s, s', tx) && node < |s.applied| && InOrder(s, node, k)
    ensures InOrder(s', node, k) <==> !Writes(s.batches, tx, k) || !Lacks(s, node, k)
  {
    WritersOneMore(s.batches, s.order, tx, k);
    BehindByOne(s, node, k);
  }

  lemma DecideKeepsSerial(s: State, s': State, tx: TxId, k: Key)
    requires SerialInv(s, k) && HistoryOk(s) && Decides(s, s', tx)
    requires Writes(s.batches, tx, k) ==> forall node | 0 <= node < s.n && Holds(node, k, s.n) :: !Lacks(s, node, k)
    ensures SerialInv(s', k)
  {
    forall node | 0 <= node < s.n && Holds(node, k, s.n) ensures InOrder(s', node, k) {
      assert InOrder(s, node, k);
      DecisionInOrder(s, s', tx, node, k);
    }
  }

  /** A decided transaction is applied where it was not. */
  ghost predicate Applies(s: State, s': State, a: At) {
    && a.node < |s.applied| && a.tx in s.order && !Applied(s, a)
    && s'.n == s.n && s'.batches == s.batches && s'.order == s.order
    && s'.applied == s.applied[a.node := s.applied[a.node] + [a.tx]]
  }

  /** A node that applies a writer of k applies the one it lacks. */
  lemma ApplyKeepsOrder(s: State, s': State, a: At, k: Key)
    requires HistoryOk(s) && Applies(s, s', a) && InOrder(s, a.node, k)
    ensures InOrder(s', a.node, k)
  {
    WritersOneMore(s.batches, s.applied[a.node], a.tx, k);
    if Writes(s.batches, a.tx, k) {
      var ws := Writers(s.batches, s.order, k);
      assert a.tx in ws && a.tx !in Writers(s.batches, s.applied[a.node], k);
      assert ws == Front(ws) + [ws[|ws| - 1]];
    }
  }

  lemma ApplyKeepsSerial(s: State, s': State, a: At, k: Key)
    requires SerialInv(s, k) && HistoryOk(s) && Applies(s, s', a)
    ensures SerialInv(s', k)
  {
    forall node | 0 <= node < s.n && Holds(node, k, s.n) ensures InOrder(s', node, k) {
      assert InOrder(s, node, k);
      if node == a.node {
        ApplyKeepsOrder(s, s', a, k);
      }
    }
  }

  lemma ApplyStepApplies(s: State, s': State, a: At)
    requires OrderOk(s) && AtOk(s, a) && ApplyStep(s, s', a)
    ensures Applies(s, s', a)
  {
  }

  lemma FinishIsQuiet(s: State, s': State, tx: TxId)
    requires FinishCommitStep(s, s', tx) || FinishAbortStep(s, s', tx)
    ensures SameHistory(s, s')
  {
  }

  lemma MoveIsQuiet(s: State, s': State, tx: TxId)
    requires StageStep(s, s', tx) || PrepareFailsStep(s, s', tx) || TellFailsStep(s, s', tx)
    ensures SameHistory(s, s')
  {
  }

  lemma TxStepIsQuiet(s: State, s': State, tx: TxId)
    requires TxStep(s, s', tx) && !DecideStep(s, s', tx)
    ensures SameHistory(s, s')
  {
    if FinishCommitStep(s, s', tx) || FinishAbortStep(s, s', tx) {
      FinishIsQuiet(s, s', tx);
    } else {
      MoveIsQuiet(s, s', tx);
    }
  }

  lemma TellIsQuiet(s: State, s': State, tx: TxId, dest: nat)
    requires TellStep(s, s', tx, dest)
    ensures SameHistory(s, s')
  {
  }

  lemma AskOrVoteIsQuiet(s: State, s': State, tx: TxId, dest: nat)
    requires AskStep(s, s', tx, dest) || VoteStep(s, s', tx, dest)
    ensures SameHistory(s, s')
  {
  }

  lemma DestStepIsQuiet(s: State, s': State, tx: TxId, dest: nat)
    requires DestStep(s, s', tx, dest)
    ensures SameHistory(s, s')
  {
    if TellStep(s, s', tx, dest) {
      TellIsQuiet(s, s', tx, dest);
    } else if !ToldStep(s, s', tx, dest) {
      AskOrVoteIsQuiet(s, s', tx, dest);
    }
  }

  lemma TxStepKeepsSerial(s: State, s': State, tx: TxId, k: Key)
    requires SerialInv(s, k) && HistoryOk(s) && TxStep(s, s', tx) && NoOverlap(s, s', k)
    ensures SerialInv(s', k)
  {
    if DecideStep(s, s', tx) {
      DecideKeepsSerial(s, s', tx, k);
    } else {
      TxStepIsQuiet(s, s', tx);
      SameHistoryKeeps(s, s', k);
    }
  }

  lemma AtStepKeepsSerial(s: State, s': State, a: At, k: Key)
    requires SerialInv(s, k) && HistoryOk(s) && OrderOk(s) && AtOk(s, a) && AtStep(s, s', a)
    ensures SerialInv(s', k)
  {
    if ApplyStep(s, s', a) {
      ApplyStepApplies(s, s', a);
      ApplyKeepsSerial(s, s', a, k);
    } else {
      SameHistoryKeeps(s, s', k);
    }
  }

  lemma BeginStepBegins(s: State, s': State, b: Batch)
    requires Inv(s) && BeginStep(s, s', b)
    ensures Begins(s, s', MakeTxId(b.node, s.counters[b.node]), b)
  {
    NewIdIsFresh(s, b.node);
  }

  lemma StepKeepsSerial(s: State, s': State, k: Key)
    requires SerialInv(s, k) && Inv(s) && Next(s, s') && NoOverlap(s, s', k)
    ensures SerialInv(s', k)
  {
    HistoryHolds(s);
    if b :| BeginStep(s, s', b) {
      BeginStepBegins(s, s', b);
      BeginKeepsSerial(s, s', MakeTxId(b.node, s.counters[b.node]), b, k);
    } else if tx :| TxStep(s, s', tx) {
      TxStepKeepsSerial(s, s', tx, k);
    } else if tx, dest :| DestStep(s, s', tx, dest) {
      DestStepIsQuiet(s, s', tx, dest);
      SameHistoryKeeps(s, s', k);
    } else {
      var a :| AtStep(s, s', a);
      assert AtOk(s, a);
      AtStepKeepsSerial(s, s', a, k);
    }
  }

  lemma {:induction false} SerialAt(run: seq<State>, i: nat, k: Key)
    requires IsSerialRun(run, k) && i < |run|
    ensures SerialInv(run[i], k)
  {
    if i > 0 {
      SerialAt(run, i - 1, k);
      InvAt(run, i - 1);
      assert StepAt(run, i) && NoOverlapAt(run, i, k);
      StepKeepsSerial(run[i - 1], run[i], k);
    }
  }

  // ------------------------------------------------------------------------ theorems

  /** The step overlaps if a holder gets out of order. */
  lemma OrderNeedsNoOverlap(s: State, s': State, k: Key)
    requires Inv(s) && SerialInv(s, k) && SerialInv(s', k)
    ensures NoOverlap(s, s', k)
  {
    forall tx, node | DecideStep(s, s', tx) && Writes(s.batches, tx, k) && Holds(node, k, s.n)
      ensures !Lacks(s, node, k) {
      assert InOrder(s, node, k) && InOrder(s', node, k);
      DecisionInOrder(s, s', tx, node, k);
    }
  }

  /**
   The commits on a key do not overlap if and only if, all through the run, its holders have applied
   its writers in the order of the decisions, all of them or all but the last.
   */
  lemma SerialExactly(run: seq<State>, k: Key)
    requires IsRun(run)
    ensures IsSerialRun(run, k) <==> forall i | 0 <= i < |run| :: SerialInv(run[i], k)
  {
    if IsSerialRun(run, k) {
      forall i | 0 <= i < |run| ensures SerialInv(run[i], k) {
        SerialAt(run, i, k);
      }
    }
    if forall i | 0 <= i < |run| :: SerialInv(run[i], k) {
      forall i | 0 < i < |run| ensures NoOverlapAt(run, i, k) {
        InvAt(run, i - 1);
        assert SerialInv(run[i - 1], k) && SerialInv(run[i], k);
        OrderNeedsNoOverlap(run[i - 1], run[i], k);
      }
    }
  }

  /** At the end of such a run a holder lacks nothing, or the last committed writer only. */
  lemma WritersApplyInOrder(run: seq<State>, node: nat, k: Key)
    requires IsSerialRun(run, k) && node < run[|run| - 1].n
    ensures var s := run[|run| - 1]; 0 < s.n == |s.applied|
    ensures var s := run[|run| - 1];
            var ws := Writers(s.batches, s.order, k);
            Holds(node, k, s.n) ==>
              Writers(s.batches, s.applied[node], k) == if Lacks(s, node, k) then Front(ws) else ws
  {
    var s := run[|run| - 1];
    SerialAt(run, |run| - 1, k);
    InvAt(run, |run| - 1);
    if Holds(node, k, s.n) {
      assert InOrder(s, node, k);
      BehindByOne(s, node, k);
    }
  }

  /**
   A holder that lacks no committed writer of k has the last one's value as it was staged there.
   That is the serial value if and only if there is no writer, or the node is its coordinator, or
   the value fits on the wire.
   */
  lemma CopyIsSerial(run: seq<State>, node: nat, k: Key)
    requires IsSerialRun(run, k) && node < run[|run| - 1].n
    requires var s := run[|run| - 1]; 0 < s.n && Holds(node, k, s.n) && !Lacks(s, node, k)
    ensures var s := run[|run| - 1];
            node < |s.tables| && Lookup(s.tables[node], k) == LastWrite(s.batches, s.order, node, k)
    ensures var s := run[|run| - 1];
            Lookup(s.tables[node], k) == Lookup(Serial(s.batches, s.order), k) <==>
              || Writers(s.batches, s.order, k) == []
              || LastBatch(s.batches, s.order, k).node == node
              || WireFormat.Fits(LastValue(LastBatch(s.batches, s.order, k).kvs, k))
  {
    var s := run[|run| - 1];
    WritersApplyInOrder(run, node, k);
    CopyIsLastWrite(run, node, k);
    SerialLookup(s.batches, s.order, k);
    if Writers(s.batches, s.order, k) != [] {
      WireFormat.RoundTrip(LastValue(LastBatch(s.batches, s.order, k).kvs, k));
    }
  }

  /**
   When neither holder lacks a committed writer of k, the copies agree if and only if there is no
   writer, or the last one's value is the same at both ends.
   */
  lemma CopiesAgree(run: seq<State>, k: Key)
    requires IsSerialRun(run, k)
    requires var s := run[|run| - 1]; 0 < s.n && !Lacks(s, Owner(k, s.n), k) && !Lacks(s, Replica(k, s.n), k)
    ensures var s := run[|run| - 1]; |s.tables| == s.n
    ensures var s := run[|run| - 1];
            Lookup(s.tables[Owner(k, s.n)], k) == Lookup(s.tables[Replica(k, s.n)], k) <==>
              Writers(s.batches, s.order, k) == [] || SameBothEnds(LastBatch(s.batches, s.order, k), s.n, k)
  {
    var s := run[|run| - 1];
    InvAt(run, |run| - 1);
    CopyIsSerial(run, Owner(k, s.n), k);
    CopyIsSerial(run, Replica(k, s.n), k);
    if Writers(s.batches, s.order, k) != [] {
      StagedCopiesAgree(LastBatch(s.batches, s.order, k), s.n, k);
    }
  }

  /** What a node's table yields in get: an absent key reads as the empty string. */
  function Read(t: Table, k: Key): Value {
    if k in t then t[k] else ""
  }

  /** The node whose copy get reads: the caller's own if it has one. */
  function Source(asker: nat, k: Key, askOwner: bool, n: nat): nat
    requires 0 < n
  {
    if Holds(asker, k, n) then asker else if askOwner then Owner(k, n) else Replica(k, n)
  }

  /**
   get: from the node's own table if it holds the key, else over the wire; an unanswered GET reads as
   the empty string.
   */
  function Get(s: State, asker: nat, k: Key, askOwner: bool, answered: bool): Value
    requires 0 < s.n && asker < s.n && |s.tables| == s.n
  {
    if Holds(asker, k, s.n) then Read(s.tables[asker], k)
    else if answered then WireFormat.Sent(Read(s.tables[Source(asker, k, askOwner, s.n)], k))
    else ""
  }

  /** What is read of a copy that is the serial value v, or what the wire has left of it. */
  lemma ReadingIsSerial(v: Value, copy: Value, own: bool, holds: bool, answered: bool)
    requires copy == if own then v else WireFormat.Sent(v)
    ensures (if holds then copy else if answered then WireFormat.Sent(copy) else "") == v <==>
            v == "" || (holds && own) || ((holds || answered) && WireFormat.Fits(v))
  {
    WireFormat.RoundTrip(v);
    WireFormat.SentTwice(v);
    WireFormat.RoundTrip("");
  }

  /** The serial value and a copy that lacks nothing, as get reads them. */
  lemma CopyReads(run: seq<State>, node: nat, k: Key)
    requires IsSerialRun(run, k) && node < run[|run| - 1].n
    requires var s := run[|run| - 1]; 0 < s.n && Holds(node, k, s.n) && !Lacks(s, node, k)
    ensures var s := run[|run| - 1]; node < |s.tables| == s.n
    ensures var s := run[|run| - 1];
            var v := Read(Serial(s.batches, s.order), k);
            var own := Writers(s.batches, s.order, k) != [] && LastBatch(s.batches, s.order, k).node == node;
            Read(s.tables[node], k) == if own then v else WireFormat.Sent(v)
  {
    var s := run[|run| - 1];
    InvAt(run, |run| - 1);
    CopyIsSerial(run, node, k);
    SerialLookup(s.batches, s.order, k);
    WireFormat.RoundTrip("");
  }

  /**
   When the node read lacks no committed writer of k, get returns the serial value if and only if
   this is the empty string, or the caller has it itself without the wire, or it fits on the wire
   and is not lost there.
   */
  lemma GetReadsSerial(run: seq<State>, asker: nat, k: Key, askOwner: bool, answered: bool)
    requires IsSerialRun(run, k) && asker < run[|run| - 1].n
    requires var s := run[|run| - 1]; 0 < s.n && !Lacks(s, Source(asker, k, askOwner, s.n), k)
    ensures var s := run[|run| - 1]; |s.tables| == s.n
    ensures var s := run[|run| - 1];
            var ws, v := Writers(s.batches, s.order, k), Read(Serial(s.batches, s.order), k);
            Get(s, asker, k, askOwner, answered) == v <==>
              || v == ""
              || (Holds(asker, k, s.n) && ws != [] && LastBatch(s.batches, s.order, k).node == asker)
              || ((Holds(asker, k, s.n) || answered) && WireFormat.Fits(v))
  {
    var s := run[|run| - 1];
    var source := Source(asker, k, askOwner, s.n);
    var own := Writers(s.batches, s.order, k) != [] && LastBatch(s.batches, s.order, k).node == source;
    CopyReads(run, source, k);
    ReadingIsSerial(Read(Serial(s.batches, s.order), k), Read(s.tables[source], k), own, Holds(asker, k, s.n),
      answered);
  }
}

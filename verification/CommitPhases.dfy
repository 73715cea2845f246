/**
 Agreement from the coordinators' point of view. A commit phase is open from the
 decision to the return of put. If a COMMIT that fails has been applied all the same,
 so that at most its reply is lost, and commit phases of transactions that write a key
 do not overlap, then commits on the key do not overlap (module ReplicaAgreement), and
 while no commit phase on it is open its holders lack nothing.
 */
module CommitPhases {
  import opened Options
  import opened Placement
  import opened TwoPhaseCommit
  import opened LastWriters
  import opened ReplicaAgreement
  import WireFormat

  // ---------------------------------------------------------------------- hypotheses

  /** The commit phase of tx is open: decided, and not finished by its coordinator. */
  predicate Open(s: State, tx: TxId) {
    tx in s.txs && ((s.txs[tx].phase.Finishing? && s.txs[tx].phase.commit) || s.txs[tx].phase.Applying?)
  }

  /** What the coordinator waits for is the reply to an ABORT, or to a COMMIT that has been applied. */
  predicate Harmless(s: State, tx: TxId)
    requires tx in s.txs && s.txs[tx].phase.Finishing? && s.txs[tx].phase.waiting.Some?
  {
    !s.txs[tx].phase.commit || Applied(s, At(tx, s.txs[tx].phase.waiting.value))
  }

  /** A COMMIT fails only when it has been applied. */
  ghost predicate Delivered(s: State, s': State) {
    forall tx | TellFailsStep(s, s', tx) :: Harmless(s, tx)
  }

  /** A commit phase on k begins only while no other one on k is open. */
  ghost predicate PhasesDisjoint(s: State, s': State, k: Key) {
    forall tx, u | DecideStep(s, s', tx) && Writes(s.batches, tx, k) && Writes(s.batches, u, k) :: !Open(s, u)
  }

  ghost predicate DeliveredAt(run: seq<State>, i: nat)
    requires 0 < i < |run|
  {
    Delivered(run[i - 1], run[i])
  }

  ghost predicate PhasesDisjointAt(run: seq<State>, i: nat, k: Key)
    requires 0 < i < |run|
  {
    PhasesDisjoint(run[i - 1], run[i], k)
  }

  ghost predicate IsDeliveredRun(run: seq<State>) {
    IsRun(run) && forall i | 0 < i < |run| :: DeliveredAt(run, i)
  }

  ghost predicate IsCarefulRun(run: seq<State>, k: Key) {
    IsDeliveredRun(run) && forall i | 0 < i < |run| :: PhasesDisjointAt(run, i, k)
  }

  // ----------------------------------------------------------- commits that have arrived

  /** The coordinator is done with a.node. */
  predicate Settled(s: State, a: At) {
    && Part(s, a)
    && var ph := s.txs[a.tx].phase;
       || (ph.Returned? && ph.commit)
       || (a.node != s.batches[a.tx].node &&
           (ph.Applying? || (ph.Finishing? && ph.commit && a.node !in ph.todo && ph.waiting != Some(a.node))))
  }

  /** When nothing is lost, done means applied. */
  ghost predicate SettledOk(s: State, a: At) {
    && (a in s.told ==> Aborted(s, a.tx) || Applied(s, a))
    && (Settled(s, a) ==> Applied(s, a))
  }

  /** Nothing about a.tx at a.node has changed, but that it may have been applied. */
  lemma SettledSame(s: State, s': State, a: At)
    requires SettledOk(s, a) && s'.batches == s.batches && (a in s'.told ==> a in s.told)
    requires Applied(s, a) ==> Applied(s', a)
    requires a.tx in s'.txs <==> a.tx in s.txs
    requires a.tx in s.txs ==> s'.txs[a.tx] == s.txs[a.tx]
    ensures SettledOk(s', a)
  {
  }

  /** Steps of a coordinator that has not decided. */
  lemma SettledUndecided(s: State, s': State, tx: TxId, a: At)
    requires SettledOk(s, a) && CoordinatorOkAt(s, tx) && (StageStep(s, s', tx) || PrepareFailsStep(s, s', tx))
    ensures SettledOk(s', a)
  {
    if a.tx == tx {
      assert !Committed(s', tx);
    } else {
      SettledSame(s, s', a);
    }
  }

  lemma SettledTellFails(s: State, s': State, tx: TxId, a: At)
    requires SettledOk(s, a) && TellFailsStep(s, s', tx) && Harmless(s, tx)
    ensures SettledOk(s', a)
  {
    if a.tx != tx {
      SettledSame(s, s', a);
    }
  }

  lemma SettledFinishAbort(s: State, s': State, tx: TxId, a: At)
    requires SettledOk(s, a) && CoordinatorOkAt(s, tx) && FinishAbortStep(s, s', tx)
    ensures SettledOk(s', a)
  {
    if a.tx == tx {
      assert !Committed(s', tx);
    } else {
      SettledSame(s, s', a);
    }
  }

  lemma SettledDecide(s: State, s': State, tx: TxId, a: At)
    requires SettledOk(s, a) && CoordinatorOkAt(s, tx) && DecideStep(s, s', tx) && AtOk(s, a)
    ensures SettledOk(s', a)
  {
    if a.tx != tx {
      SettledSame(s, s', a);
    }
  }

  lemma SettledFinishCommit(s: State, s': State, tx: TxId, a: At)
    requires CoordinatorOkAt(s, tx) && AtOk(s, a) && AtOk(s, At(tx, s.batches[tx].node)) && SettledOk(s, a)
    requires FinishCommitStep(s, s', tx)
    ensures SettledOk(s', a)
  {
    if a.tx != tx {
      SettledSame(s, s', a);
    }
  }

  lemma SettledAskOrVote(s: State, s': State, tx: TxId, dest: nat, a: At)
    requires SettledOk(s, a) && (AskStep(s, s', tx, dest) || VoteStep(s, s', tx, dest))
    ensures SettledOk(s', a)
  {
    if a.tx == tx {
      assert !Committed(s', tx);
    } else {
      SettledSame(s, s', a);
    }
  }

  lemma SettledTell(s: State, s': State, tx: TxId, dest: nat, a: At)
    requires CoordinatorOkAt(s, tx) && SettledOk(s, a) && TellStep(s, s', tx, dest)
    ensures SettledOk(s', a)
  {
    if a.tx != tx {
      SettledSame(s, s', a);
    }
  }

  lemma SettledTold(s: State, s': State, tx: TxId, dest: nat, a: At)
    requires CoordinatorOkAt(s, tx) && SettledOk(s, a) && SettledOk(s, At(tx, dest)) && ToldStep(s, s', tx, dest)
    ensures SettledOk(s', a)
  {
    if a.tx != tx {
      SettledSame(s, s', a);
    } else if a.node == dest {
      assert a == At(tx, dest);
    }
  }

  lemma SettledOneAt(s: State, s': State, b: At, a: At)
    requires AtOk(s, a) && AtOk(s, b) && SettledOk(s, a)
    requires HandlePrepareStep(s, s', b) || HandleCommitStep(s, s', b) || HandleAbortStep(s, s', b)
    ensures SettledOk(s', a)
  {
  }

  lemma SettledApply(s: State, s': State, b: At, a: At)
    requires AtOk(s, b) && SettledOk(s, a) && SettledOk(s, b) && ApplyStep(s, s', b) && CoordinatorOkAt(s, b.tx)
    ensures SettledOk(s', a)
  {
    if a.tx != b.tx {
      SettledSame(s, s', a);
    } else {
      SettledApplied(s, s', b, a);
    }
  }

  lemma SettledApplied(s: State, s': State, b: At, a: At)
    requires AtOk(s, b) && SettledOk(s, a) && ApplyStep(s, s', b) && CoordinatorOkAt(s, b.tx) && a.tx == b.tx
    ensures SettledOk(s', a)
  {
  }

  // --------------------------------------------------------------------------- steps

  ghost predicate AllSettledOk(s: State) {
    forall a :: SettledOk(s, a)
  }

  lemma SettledBegin(s: State, s': State, b: Batch, a: At)
    requires Starts(s, s', b) && AtOk(s, a) && SettledOk(s, a)
    ensures SettledOk(s', a)
  {
  }

  /** What a begin does to the parts that count here. */
  ghost predicate Starts(s: State, s': State, b: Batch) {
    && b.node < |s.counters|
    && var tx := MakeTxId(b.node, s.counters[b.node]);
       && tx !in s.txs && tx !in s.batches && s'.applied == s.applied && s'.told == s.told
       && s'.batches == s.batches[tx := b] && s'.txs == s.txs[tx := Coordinator({}, Staging)]
  }

  lemma BeginKeepsSettled(s: State, s': State, b: Batch)
    requires Inv(s) && AllSettledOk(s) && BeginStep(s, s', b)
    ensures AllSettledOk(s')
  {
    NewIdIsFresh(s, b.node);
    forall a ensures SettledOk(s', a) {
      assert AtOk(s, a) && SettledOk(s, a);
      SettledBegin(s, s', b, a);
    }
  }

  lemma TxStepKeepsSettledAt(s: State, s': State, tx: TxId, a: At)
    requires TxStep(s, s', tx) && (TellFailsStep(s, s', tx) ==> Harmless(s, tx)) && CoordinatorOkAt(s, tx)
    requires AtOk(s, a) && AtOk(s, At(tx, s.batches[tx].node)) && SettledOk(s, a)
    ensures SettledOk(s', a)
  {
    if DecideStep(s, s', tx) {
      SettledDecide(s, s', tx, a);
    } else if FinishCommitStep(s, s', tx) {
      SettledFinishCommit(s, s', tx, a);
    } else if FinishAbortStep(s, s', tx) {
      SettledFinishAbort(s, s', tx, a);
    } else if TellFailsStep(s, s', tx) {
      SettledTellFails(s, s', tx, a);
    } else {
      SettledUndecided(s, s', tx, a);
    }
  }

  lemma TxStepKeepsSettled(s: State, s': State, tx: TxId)
    requires Inv(s) && AllSettledOk(s) && TxStep(s, s', tx) && Delivered(s, s')
    ensures AllSettledOk(s')
  {
    assert CoordinatorOk(s, tx);
    forall a ensures SettledOk(s', a) {
      assert AtOk(s, a) && AtOk(s, At(tx, s.batches[tx].node)) && SettledOk(s, a);
      TxStepKeepsSettledAt(s, s', tx, a);
    }
  }

  lemma DestStepKeepsSettled(s: State, s': State, tx: TxId, dest: nat)
    requires Shape(s) && AllSettledOk(s) && DestStep(s, s', tx, dest)
    ensures AllSettledOk(s')
  {
    assert CoordinatorOk(s, tx);
    forall a ensures SettledOk(s', a) {
      assert SettledOk(s, a) && SettledOk(s, At(tx, dest));
      if AskStep(s, s', tx, dest) || VoteStep(s, s', tx, dest) {
        SettledAskOrVote(s, s', tx, dest, a);
      } else if TellStep(s, s', tx, dest) {
        SettledTell(s, s', tx, dest, a);
      } else {
        SettledTold(s, s', tx, dest, a);
      }
    }
  }

  lemma AtStepKeepsSettled(s: State, s': State, b: At)
    requires Inv(s) && AllSettledOk(s) && AtStep(s, s', b)
    ensures AllSettledOk(s')
  {
    assert AtOk(s, b) && SettledOk(s, b);
    forall a ensures SettledOk(s', a) {
      assert AtOk(s, a) && SettledOk(s, a);
      if ApplyStep(s, s', b) {
        assert CoordinatorOk(s, b.tx);
        SettledApply(s, s', b, a);
      } else {
        SettledOneAt(s, s', b, a);
      }
    }
  }

  lemma StepKeepsSettled(s: State, s': State)
    requires Inv(s) && AllSettledOk(s) && Next(s, s') && Delivered(s, s')
    ensures AllSettledOk(s')
  {
    if b :| BeginStep(s, s', b) {
      BeginKeepsSettled(s, s', b);
    } else if tx :| TxStep(s, s', tx) {
      TxStepKeepsSettled(s, s', tx);
    } else if tx, dest :| DestStep(s, s', tx, dest) {
      DestStepKeepsSettled(s, s', tx, dest);
    } else {
      var a :| AtStep(s, s', a);
      AtStepKeepsSettled(s, s', a);
    }
  }

  lemma {:induction false} SettledAt(run: seq<State>, i: nat)
    requires IsDeliveredRun(run) && i < |run|
    ensures AllSettledOk(run[i])
  {
    if i > 0 {
      SettledAt(run, i - 1);
      SettledNext(run, i);
    }
  }

  lemma SettledNext(run: seq<State>, i: nat)
    requires IsDeliveredRun(run) && 0 < i < |run| && AllSettledOk(run[i - 1])
    ensures AllSettledOk(run[i])
  {
    InvAt(run, i - 1);
    assert StepAt(run, i) && DeliveredAt(run, i);
    StepKeepsSettled(run[i - 1], run[i]);
  }

  // ------------------------------------------------------------------------ theorems

  /** If every failed COMMIT has been applied, a put that has returned true has been applied at every participant. */
  lemma ReturnedIsApplied(run: seq<State>, tx: TxId, node: nat)
    requires IsDeliveredRun(run)
    requires var s := run[|run| - 1];
             tx in s.txs && s.txs[tx].phase == Returned(true) && tx in s.batches && IsPart(s.batches[tx], node)
    ensures Applied(run[|run| - 1], At(tx, node))
  {
    SettledAt(run, |run| - 1);
    assert SettledOk(run[|run| - 1], At(tx, node));
  }

  /** No commit phase on the key is open. */
  ghost predicate NoneOpen(s: State, k: Key) {
    forall u | Writes(s.batches, u, k) :: !Open(s, u)
  }

  /** A holder lacks only what is open. */
  lemma LackedIsOpen(s: State, u: TxId, node: nat, k: Key)
    requires Inv(s) && AllSettledOk(s) && Holds(node, k, s.n)
    requires u in s.order && Writes(s.batches, u, k) && !Applied(s, At(u, node))
    ensures Open(s, u)
  {
    assert BatchOk(s.batches[u], s.n);
    HolderIsPart(s.batches[u], node, s.n, k);
    assert Committed(s, u) && SettledOk(s, At(u, node));
  }

  /** While no commit phase on a key is open, its holders lack nothing. */
  lemma NothingLacksWhileClosed(run: seq<State>, i: nat, node: nat, k: Key)
    requires IsDeliveredRun(run) && i < |run| && NoneOpen(run[i], k) && 0 < run[i].n && Holds(node, k, run[i].n)
    ensures !Lacks(run[i], node, k)
  {
    var s := run[i];
    InvAt(run, i);
    SettledAt(run, i);
    if u :| u in s.order && Writes(s.batches, u, k) && !Applied(s, At(u, node)) {
      LackedIsOpen(s, u, node, k);
    }
  }

  /** Where commit phases do not overlap, commits do not. */
  lemma CarefulRunsAreSerial(run: seq<State>, k: Key)
    requires IsCarefulRun(run, k)
    ensures IsSerialRun(run, k)
  {
    forall i | 0 < i < |run| ensures NoOverlapAt(run, i, k) {
      var s, s' := run[i - 1], run[i];
      InvAt(run, i - 1);
      assert PhasesDisjointAt(run, i, k);
      forall tx, node | DecideStep(s, s', tx) && Writes(s.batches, tx, k) && Holds(node, k, s.n)
        ensures !Lacks(s, node, k) {
        assert NoneOpen(s, k);
        NothingLacksWhileClosed(run, i - 1, node, k);
      }
    }
  }

  /**
   Whenever no commit phase on the key is open, both copies are what the committed batches, applied
   one after the other, make the key, if its last value fits on the wire.
   */
  lemma CopiesAreSerialWhileClosed(run: seq<State>, k: Key)
    requires IsCarefulRun(run, k) && NoneOpen(run[|run| - 1], k)
    requires var s := run[|run| - 1];
             Writers(s.batches, s.order, k) != [] ==>
               WireFormat.Fits(LastValue(LastBatch(s.batches, s.order, k).kvs, k))
    ensures var s := run[|run| - 1]; 0 < s.n == |s.tables|
    ensures var s := run[|run| - 1]; Lookup(s.tables[Owner(k, s.n)], k) == Lookup(Serial(s.batches, s.order), k)
    ensures var s := run[|run| - 1]; Lookup(s.tables[Replica(k, s.n)], k) == Lookup(Serial(s.batches, s.order), k)
  {
    var s := run[|run| - 1];
    InvAt(run, |run| - 1);
    CarefulRunsAreSerial(run, k);
    NothingLacksWhileClosed(run, |run| - 1, Owner(k, s.n), k);
    NothingLacksWhileClosed(run, |run| - 1, Replica(k, s.n), k);
    CopyIsSerial(run, Owner(k, s.n), k);
    CopyIsSerial(run, Replica(k, s.n), k);
  }

  /** And whether or not it fits, the copies agree if and only if its value is the same at both ends. */
  lemma CopiesAgreeWhileClosed(run: seq<State>, k: Key)
    requires IsCarefulRun(run, k) && NoneOpen(run[|run| - 1], k)
    ensures var s := run[|run| - 1]; 0 < s.n == |s.tables|
    ensures var s := run[|run| - 1];
            Lookup(s.tables[Owner(k, s.n)], k) == Lookup(s.tables[Replica(k, s.n)], k) <==>
              Writers(s.batches, s.order, k) == [] || SameBothEnds(LastBatch(s.batches, s.order, k), s.n, k)
  {
    var s := run[|run| - 1];
    InvAt(run, |run| - 1);
    CarefulRunsAreSerial(run, k);
    NothingLacksWhileClosed(run, |run| - 1, Owner(k, s.n), k);
    NothingLacksWhileClosed(run, |run| - 1, Replica(k, s.n), k);
    CopiesAgree(run, k);
  }

  lemma SourceLacksNothing(run: seq<State>, asker: nat, k: Key, askOwner: bool)
    requires IsCarefulRun(run, k) && NoneOpen(run[|run| - 1], k)
    ensures var s := run[|run| - 1]; 0 < s.n && !Lacks(s, Source(asker, k, askOwner, s.n), k)
    ensures IsSerialRun(run, k)
  {
    InvAt(run, |run| - 1);
    CarefulRunsAreSerial(run, k);
    NothingLacksWhileClosed(run, |run| - 1, Source(asker, k, askOwner, run[|run| - 1].n), k);
  }

  /**
   With values that fit, get returns the serial value if and only if it is answered or has no need to
   be, or there is none.
   */
  lemma GetReadsSerialWhileClosed(run: seq<State>, asker: nat, k: Key, askOwner: bool, answered: bool)
    requires IsCarefulRun(run, k) && NoneOpen(run[|run| - 1], k) && asker < run[|run| - 1].n
    requires var s := run[|run| - 1]; WireFormat.Fits(Read(Serial(s.batches, s.order), k))
    ensures var s := run[|run| - 1]; 0 < s.n == |s.tables|
    ensures var s := run[|run| - 1];
            Get(s, asker, k, askOwner, answered) == Read(Serial(s.batches, s.order), k) <==>
              Holds(asker, k, s.n) || answered || Read(Serial(s.batches, s.order), k) == ""
  {
    SourceLacksNothing(run, asker, k, askOwner);
    GetReadsSerial(run, asker, k, askOwner, answered);
  }
}

/**
 What a copy of a key holds in any run, whatever is lost and however commits overlap:
 the value staged by the last transaction that writes the key among those the node has
 applied. From this, exactly when the two copies of a key agree.
 */
module LastWriters {
  import opened Options
  import opened Placement
  import opened TwoPhaseCommit
  import WireFormat

  predicate Writes(batches: map<TxId, Batch>, tx: TxId, k: Key) {
    tx in batches && Touches(batches[tx].kvs, k)
  }

  /** The transactions that write k, in order. */
  function Writers(batches: map<TxId, Batch>, ids: seq<TxId>, k: Key): (ws: seq<TxId>)
    ensures forall w | w in ws :: w in ids && Writes(batches, w, k)
    ensures forall w | w in ids && Writes(batches, w, k) :: w in ws
  {
    if ids == [] then []
    else
      var before, last := Writers(batches, ids[..|ids| - 1], k), ids[|ids| - 1];
      if Writes(batches, last, k) then before + [last] else before
  }

  /** What a node stages for k: the coordinator its own value, and any other node what survives the wire. */
  function StagedValue(b: Batch, node: nat, k: Key): Value
    requires Touches(b.kvs, k)
  {
    if node == b.node then LastValue(b.kvs, k) else WireFormat.Sent(LastValue(b.kvs, k))
  }

  function LastWriter(batches: map<TxId, Batch>, ids: seq<TxId>, k: Key): (tx: TxId)
    requires Writers(batches, ids, k) != []
    ensures Writes(batches, tx, k)
  {
    var ws := Writers(batches, ids, k);
    assert ws[|ws| - 1] in ws;
    ws[|ws| - 1]
  }

  /** The batch of the last writer. */
  function LastBatch(batches: map<TxId, Batch>, ids: seq<TxId>, k: Key): (b: Batch)
    requires Writers(batches, ids, k) != []
    ensures Touches(b.kvs, k)
  {
    batches[LastWriter(batches, ids, k)]
  }

  /** What these transactions leave in a copy of k. */
  function LastWrite(batches: map<TxId, Batch>, ids: seq<TxId>, node: nat, k: Key): Option<Value> {
    if Writers(batches, ids, k) == [] then None else Some(StagedValue(LastBatch(batches, ids, k), node, k))
  }

  lemma {:induction false} WritersKept(batches: map<TxId, Batch>, batches': map<TxId, Batch>, ids: seq<TxId>, k: Key)
    requires forall tx | tx in ids :: tx in batches && tx in batches' && batches'[tx] == batches[tx]
    ensures Writers(batches', ids, k) == Writers(batches, ids, k)
  {
    if ids != [] {
      WritersKept(batches, batches', ids[..|ids| - 1], k);
      assert ids[|ids| - 1] in ids;
    }
  }

  lemma WritersOneMore(batches: map<TxId, Batch>, ids: seq<TxId>, tx: TxId, k: Key)
    ensures Writers(batches, ids + [tx], k) ==
            if Writes(batches, tx, k) then Writers(batches, ids, k) + [tx] else Writers(batches, ids, k)
  {
    assert (ids + [tx])[..|ids|] == ids;
  }

  lemma {:induction false} OnWireTouches(kvs: seq<KV>, k: Key)
    ensures Touches(OnWire(kvs), k) <==> Touches(kvs, k)
    ensures Touches(kvs, k) ==> LastValue(OnWire(kvs), k) == WireFormat.Sent(LastValue(kvs, k))
  {
    if kvs != [] {
      var front, last := kvs[..|kvs| - 1], kvs[|kvs| - 1];
      var sent := KV(last.key, WireFormat.Sent(last.val));
      OnWireTouches(front, k);
      assert front + [last] == kvs;
      assert OnWire(kvs) == OnWire(front) + [sent];
      AppendTouches(front, last, k);
      AppendTouches(OnWire(front), sent, k);
    }
  }

  /** What a participant stages of a batch: the keys it holds, with the values that reach it. */
  lemma StagedTouches(b: Batch, node: nat, n: nat, k: Key)
    requires BatchOk(b, n) && IsPart(b, node)
    ensures Touches(Staged(b, node), k) <==> Touches(b.kvs, k) && Holds(node, k, n)
    ensures Touches(b.kvs, k) && Holds(node, k, n) ==> LastValue(Staged(b, node), k) == StagedValue(b, node, k)
  {
    ShareTouches(b.kvs, node, n, k);
    OnWireTouches(b.shares[node], k);
  }

  lemma HolderIsPart(b: Batch, node: nat, n: nat, k: Key)
    requires BatchOk(b, n) && Touches(b.kvs, k) && Holds(node, k, n)
    ensures IsPart(b, node)
  {
    ShareTouches(b.kvs, node, n, k);
  }

  lemma LastWriteStep(batches: map<TxId, Batch>, ids: seq<TxId>, node: nat, k: Key)
    requires ids != []
    ensures var front, tx := ids[..|ids| - 1], ids[|ids| - 1];
            LastWrite(batches, ids, node, k) ==
            if Writes(batches, tx, k) then Some(StagedValue(batches[tx], node, k))
              else LastWrite(batches, front, node, k)
  {
  }

  /** What a node's transactions leave in its table: the last writer's value for a key the node holds, else nothing. */
  lemma {:induction false} OutcomeLookup(batches: map<TxId, Batch>, ids: seq<TxId>, node: nat, n: nat, k: Key)
    requires 0 < n && BatchesOk(batches, n)
    ensures Lookup(Outcome(batches, ids, node), k) ==
            if Holds(node, k, n) then LastWrite(batches, ids, node, k) else None
  {
    if ids != [] {
      var front, tx := ids[..|ids| - 1], ids[|ids| - 1];
      OutcomeLookup(batches, front, node, n, k);
      LastWriteStep(batches, ids, node, k);
      if tx in batches {
        OutcomeLookupStep(batches[tx], Outcome(batches, front, node), node, n, k);
      }
    }
  }

  lemma OutcomeLookupStep(b: Batch, t: Table, node: nat, n: nat, k: Key)
    requires BatchOk(b, n)
    ensures IsPart(b, node) ==> Lookup(Replay(Staged(b, node), t), k) ==
                                if Touches(b.kvs, k) && Holds(node, k, n) then Some(StagedValue(b, node, k))
                                  else Lookup(t, k)
    ensures Touches(b.kvs, k) && Holds(node, k, n) ==> IsPart(b, node)
  {
    if Touches(b.kvs, k) && Holds(node, k, n) {
      HolderIsPart(b, node, n, k);
    }
    if IsPart(b, node) {
      StagedTouches(b, node, n, k);
      ReplayLookup(Staged(b, node), t, k);
    }
  }

  // ------------------------------------------------------------------------ theorems

  /**
   In every run, a copy of a key is the value its node has staged for the last writer it has applied,
   and a node has no other keys than those it holds.
   */
  lemma CopyIsLastWrite(run: seq<State>, node: nat, k: Key)
    requires IsRun(run) && node < run[|run| - 1].n
    ensures var s := run[|run| - 1];
            && 0 < s.n == |s.tables| == |s.applied|
            && Lookup(s.tables[node], k) ==
               if Holds(node, k, s.n) then LastWrite(s.batches, s.applied[node], node, k) else None
  {
    InvAt(run, |run| - 1);
    var s := run[|run| - 1];
    assert NodeOk(s, node);
    OutcomeLookup(s.batches, s.applied[node], node, s.n, k);
  }

  /**
   One batch leaves the same value at the owner and at the replica: there is one copy, or neither is
   its coordinator's, or the value fits.
   */
  predicate SameBothEnds(b: Batch, n: nat, k: Key)
    requires 0 < n && Touches(b.kvs, k)
  {
    Owner(k, n) == Replica(k, n) || !Holds(b.node, k, n) || WireFormat.Fits(LastValue(b.kvs, k))
  }

  lemma StagedCopiesAgree(b: Batch, n: nat, k: Key)
    requires 0 < n && Touches(b.kvs, k)
    ensures StagedValue(b, Owner(k, n), k) == StagedValue(b, Replica(k, n), k) <==> SameBothEnds(b, n, k)
  {
    WireFormat.RoundTrip(LastValue(b.kvs, k));
  }

  /** When the last writers applied at both ends leave the same there. */
  lemma LastWritesAgree(batches: map<TxId, Batch>, atO: seq<TxId>, atR: seq<TxId>, n: nat, k: Key)
    requires 0 < n
    ensures var o, r := Owner(k, n), Replica(k, n);
            var atOwner, atReplica := Writers(batches, atO, k), Writers(batches, atR, k);
            LastWrite(batches, atO, o, k) == LastWrite(batches, atR, r, k) <==>
              if atOwner == [] || atReplica == [] then atOwner == atReplica
              else
                var b, c := LastBatch(batches, atO, k), LastBatch(batches, atR, k);
                if atOwner[|atOwner| - 1] == atReplica[|atReplica| - 1] then SameBothEnds(b, n, k)
                else StagedValue(b, o, k) == StagedValue(c, r, k)
  {
    var atOwner, atReplica := Writers(batches, atO, k), Writers(batches, atR, k);
    if atOwner != [] && atReplica != [] {
      BothWritten(batches, atO, atR, n, k);
    }
  }

  lemma BothWritten(batches: map<TxId, Batch>, atO: seq<TxId>, atR: seq<TxId>, n: nat, k: Key)
    requires 0 < n && Writers(batches, atO, k) != [] && Writers(batches, atR, k) != []
    ensures var o, r, b, c := Owner(k, n), Replica(k, n), LastBatch(batches, atO, k), LastBatch(batches, atR, k);
            LastWrite(batches, atO, o, k) == LastWrite(batches, atR, r, k) <==>
              if LastWriter(batches, atO, k) == LastWriter(batches, atR, k) then SameBothEnds(b, n, k)
              else StagedValue(b, o, k) == StagedValue(c, r, k)
  {
    StagedCopiesAgree(LastBatch(batches, atO, k), n, k);
  }

  /**
   In every run, the copies of a key agree if and only if neither node has applied a writer, or
   both have and their last ones staged the same value, each at its node. If the last ones are
   one transaction, that is so if and only if its value is the same at both ends.
   */
  lemma CopiesAgreeExactly(run: seq<State>, k: Key)
    requires IsRun(run)
    ensures var s := run[|run| - 1]; 0 < s.n == |s.tables| == |s.applied|
    ensures var s := run[|run| - 1];
            var o, r := Owner(k, s.n), Replica(k, s.n);
            var atOwner, atReplica := Writers(s.batches, s.applied[o], k), Writers(s.batches, s.applied[r], k);
            Lookup(s.tables[o], k) == Lookup(s.tables[r], k) <==>
              if atOwner == [] || atReplica == [] then atOwner == atReplica
              else
                var b, c := LastBatch(s.batches, s.applied[o], k), LastBatch(s.batches, s.applied[r], k);
                if atOwner[|atOwner| - 1] == atReplica[|atReplica| - 1] then SameBothEnds(b, s.n, k)
                else StagedValue(b, o, k) == StagedValue(c, r, k)
  {
    InvAt(run, |run| - 1);
    var s := run[|run| - 1];
    CopyIsLastWrite(run, Owner(k, s.n), k);
    CopyIsLastWrite(run, Replica(k, s.n), k);
    LastWritesAgree(s.batches, s.applied[Owner(k, s.n)], s.applied[Replica(k, s.n)], s.n, k);
  }
}

/**
 One node: its staged transactions and its table, the handlers of the requests it
 serves, and the code of put and put3, with the replies of the other nodes as a
 parameter. The table is the sharded table of module ParallelHashMaps.
 */
module Nodes {
  import opened Options
  import opened ParallelHashMaps
  import opened Placement
  import opened NodeLocks
  import TwoPhaseCommit
  import WireFormat

  datatype WireKV = WireKV(key: Key, value: string)

  /** What a handler makes of the inputs of a PREPARE. */
  function Received(inputs: seq<WireKV>): (kvs: seq<KV>)
    ensures |kvs| == |inputs|
  {
    seq(|inputs|, i requires 0 <= i < |inputs| => KV(inputs[i].key, WireFormat.Decode(inputs[i].value)))
  }

  /** The requests a coordinator sends, each with the id of its transaction. */
  datatype Request =
    | Prepare(dest: nat, txId: TxId, inputs: seq<WireKV>)
    | Commit(dest: nat, txId: TxId)
    | Abort(dest: nat, txId: TxId)

  /** The inputs of the PREPARE for a share. */
  function Inputs(share: seq<KV>): seq<WireKV> {
    seq(|share|, i requires 0 <= i < |share| => WireKV(share[i].key, WireFormat.Encode(share[i].val)))
  }

  /** What a participant stages is the share as modules TwoPhaseCommit and ReplicaAgreement have it. */
  lemma ReceivedInputs(share: seq<KV>)
    ensures Received(Inputs(share)) == TwoPhaseCommit.OnWire(share)
  {
    assert forall i | 0 <= i < |share| :: Received(Inputs(share))[i] == TwoPhaseCommit.OnWire(share)[i];
  }

  /** The number of leading destinations that answer. */
  function Votes(dests: seq<nat>, answers: set<nat>): (votes: nat)
    ensures votes <= |dests| && (forall j | 0 <= j < votes :: dests[j] in answers)
    ensures votes < |dests| ==> dests[votes] !in answers
  {
    if dests != [] && dests[0] in answers then 1 + Votes(dests[1..], answers) else 0
  }

  function Elements(dests: seq<nat>): (ds: set<nat>)
    ensures forall d :: d in ds <==> d in dests
  {
    set d | d in dests
  }

  function Prepares(txId: TxId, dests: seq<nat>, kvs: seq<KV>, n: nat): seq<Request>
    requires 0 < n
  {
    seq(|dests|, i requires 0 <= i < |dests| => Prepare(dests[i], txId, Inputs(Share(kvs, dests[i], n))))
  }

  /** COMMIT or ABORT to those who have voted, in ascending order. */
  function Tells(txId: TxId, voted: set<nat>, bound: nat, commit: bool): seq<Request> {
    if bound == 0 then []
    else Tells(txId, voted, bound - 1, commit)
         + (if bound - 1 !in voted then [] else if commit then [Commit(bound - 1, txId)] else [Abort(bound - 1, txId)])
  }

  /** Everyone who has voted, and nobody else, is told the decision on this transaction and on no other. */
  lemma {:induction false} TellsReachVoters(txId: TxId, voted: set<nat>, bound: nat, commit: bool, d: nat, id: TxId)
    ensures Commit(d, id) in Tells(txId, voted, bound, commit) <==> commit && id == txId && d in voted && d < bound
    ensures Abort(d, id) in Tells(txId, voted, bound, commit) <==> !commit && id == txId && d in voted && d < bound
  {
    if bound > 0 {
      TellsReachVoters(txId, voted, bound - 1, commit, d, id);
    }
  }

  /** The destinations are in ascending order, so that each is told once. */
  predicate Ascending(sent: seq<Request>, bound: nat) {
    (forall i | 0 <= i < |sent| :: sent[i].dest < bound)
      && forall i, j | 0 <= i < j < |sent| :: sent[i].dest < sent[j].dest
  }

  lemma {:induction false} TellsOnce(txId: TxId, voted: set<nat>, bound: nat, commit: bool)
    ensures Ascending(Tells(txId, voted, bound, commit), bound)
  {
    if bound > 0 {
      TellsOnce(txId, voted, bound - 1, commit);
    }
  }

  /** An order in which a container lists the remote participants of a batch. */
  ghost predicate ListsRemotes(dests: seq<nat>, kvs: seq<KV>, myIdx: nat, n: nat)
    requires 0 < n
  {
    && (forall i, j | 0 <= i < j < |dests| :: dests[i] != dests[j])
    && forall d: nat :: d in dests <==> d != myIdx && Share(kvs, d, n) != []
  }

  lemma RemotesAreNodes(dests: seq<nat>, kvs: seq<KV>, myIdx: nat, n: nat)
    requires 0 < n && ListsRemotes(dests, kvs, myIdx, n)
    ensures forall d | d in dests :: d < n
  {
    forall d | d in dests ensures d < n {
      var kv := Share(kvs, d, n)[0];
      assert kv in Share(kvs, d, n);
    }
  }

  /** Node d is among the first ones. */
  predicate IsAmong(d: nat, dests: seq<nat>, count: nat) {
    exists j :: 0 <= j < count && j < |dests| && dests[j] == d
  }

  /**
   What a put sends: first the shares of those that are asked, one PREPARE each, in their order, and
   then nothing but the decision, in ascending order.
   */
  ghost predicate AsksThenTells(sent: seq<Request>, txId: TxId, dests: seq<nat>, asked: nat, kvs: seq<KV>, n: nat)
    requires 0 < n
  {
    && asked <= |dests| && asked <= |sent|
    && (forall j | 0 <= j < asked :: sent[j] == Prepare(dests[j], txId, Inputs(Share(kvs, dests[j], n))))
    && (forall j | asked <= j < |sent| :: !sent[j].Prepare?)
    && Ascending(sent[asked..], n)
  }

  /**
   What a put sends, given who answers a PREPARE. If all do, all are asked and all are told to commit
   this transaction; else those up to the first that does not answer are asked, and those before it
   are told to abort it. Nobody else is told anything.
   */
  ghost predicate IsConversation(sent: seq<Request>, txId: TxId, ok: bool, dests: seq<nat>, answers: set<nat>,
                                 kvs: seq<KV>, n: nat)
    requires 0 < n
  {
    && (ok <==> forall d | d in dests :: d in answers)
    && AsksThenTells(sent, txId, dests, if ok then |dests| else Votes(dests, answers) + 1, kvs, n)
    && (forall d, id :: Commit(d, id) in sent <==> ok && id == txId && d in dests)
    && (forall d, id :: Abort(d, id) in sent <==> !ok && id == txId && IsAmong(d, dests, Votes(dests, answers)))
  }

  lemma {:induction false} TellsNoPrepare(txId: TxId, voted: set<nat>, bound: nat, commit: bool)
    ensures forall req | req in Tells(txId, voted, bound, commit) :: !req.Prepare?
  {
    if bound > 0 {
      TellsNoPrepare(txId, voted, bound - 1, commit);
    }
  }

  lemma SentAsksThenTells(sent: seq<Request>, txId: TxId, dests: seq<nat>, asked: nat, tells: seq<Request>,
                          kvs: seq<KV>, n: nat)
    requires 0 < n && asked <= |dests| && sent == Prepares(txId, dests[..asked], kvs, n) + tells
    requires Ascending(tells, n) && forall req | req in tells :: !req.Prepare?
    ensures AsksThenTells(sent, txId, dests, asked, kvs, n)
  {
    assert sent[asked..] == tells;
    forall j | asked <= j < |sent| ensures !sent[j].Prepare? {
      assert sent[j] == tells[j - asked] && tells[j - asked] in tells;
    }
  }

  lemma FirstElements(dests: seq<nat>, count: nat)
    requires count <= |dests|
    ensures forall d :: d in Elements(dests[..count]) <==> IsAmong(d, dests, count)
  {
    forall d ensures d in dests[..count] <==> IsAmong(d, dests, count) {
      if IsAmong(d, dests, count) {
        var j :| 0 <= j < count && j < |dests| && dests[j] == d;
        assert dests[..count][j] == d;
      }
      if d in dests[..count] {
        var j :| 0 <= j < count && dests[..count][j] == d;
        assert dests[j] == d;
      }
    }
  }

  /** Who is told what: those that voted, the decision on this transaction. */
  lemma SentTells(txId: TxId, dests: seq<nat>, asked: nat, votes: nat, commit: bool, kvs: seq<KV>, n: nat, d: nat,
                  id: TxId)
    requires 0 < n && asked <= |dests| && votes <= |dests| && forall x | x in dests :: x < n
    ensures var sent := Prepares(txId, dests[..asked], kvs, n) + Tells(txId, Elements(dests[..votes]), n, commit);
            && (Commit(d, id) in sent <==> commit && id == txId && IsAmong(d, dests, votes))
            && (Abort(d, id) in sent <==> !commit && id == txId && IsAmong(d, dests, votes))
  {
    TellsReachVoters(txId, Elements(dests[..votes]), n, commit, d, id);
    FirstElements(dests, votes);
    assert IsAmong(d, dests, votes) ==> d in dests;
  }

  /** The writes of a commit, in order. */
  method ApplyWrites(table: ParallelHashMap<Key, Value>, kvs: seq<KV>)
    requires table.Valid()
    modifies table, table.sets
    modifies set i | 0 <= i < |table.sets| :: table.sets[i].ctrl, set i | 0 <= i < |table.sets| :: table.sets[i].slots
    ensures table.Valid() && table.KeepsOrRenewsArrays()
    ensures table.Contents == Replay(kvs, old(table.Contents))
  {
    ghost var before := table.Contents;
    for i := 0 to |kvs|
      invariant table.Valid() && table.KeepsOrRenewsArrays()
      invariant table.Contents == Replay(kvs[..i], before)
    {
      var inserted := table.InsertOrAssign(kvs[i].key, kvs[i].val);
      ReplayOneMore(kvs, i, before);
    }
    assert kvs[..|kvs|] == kvs;
  }

  /** A 32-bit counter. */
  type Word = c: nat | c < WORD witness 0

  /** The state of a node. */
  datatype View = View(counter: nat, pending: map<TxId, seq<KV>>, table: Table)

  function AfterPrepare(v: View, tx: TxId, kvs: seq<KV>): View {
    v.(pending := v.pending[tx := kvs])
  }

  function AfterAbort(v: View, tx: TxId): View {
    v.(pending := v.pending - {tx})
  }

  /** What is staged is replayed on the table; a transaction that is not staged is ignored. */
  function AfterCommit(v: View, tx: TxId): View {
    v.(pending := v.pending - {tx}, table := if tx in v.pending then Replay(v.pending[tx], v.table) else v.table)
  }

  /** A put that was asked to write the share here: its id is used up, and the share is replayed if it commits. */
  function AfterPut(v: View, tx: TxId, share: seq<KV>, ok: bool): View {
    var begun := v.(counter := (v.counter + 1) % WORD);
    if share == [] then begun
    else if ok then begun.(pending := begun.pending - {tx}, table := Replay(share, begun.table))
    else begun.(pending := begun.pending - {tx})
  }

  /** The node once its share is staged, if it has one. */
  function AfterStage(v: View, tx: TxId, share: seq<KV>): View {
    if share == [] then v else AfterPrepare(v, tx, share)
  }

  function AfterBegin(v: View): View {
    v.(counter := (v.counter + 1) % WORD)
  }

  /** The node after the local part of the decision. */
  function AfterFinish(v: View, tx: TxId, localPrepared: bool, commit: bool): View {
    if !localPrepared then v else if commit then AfterCommit(v, tx) else AfterAbort(v, tx)
  }

  lemma PutIsSteps(v: View, tx: TxId, share: seq<KV>, ok: bool)
    ensures AfterPut(v, tx, share, ok) == AfterFinish(AfterStage(AfterBegin(v), tx, share), tx, share != [], ok)
  {
    assert v.pending[tx := share] - {tx} == v.pending - {tx};
  }

  class Node {
    const n: nat
    const myIdx: nat
    const table: ParallelHashMap<Key, Value>
    var txCounter: Word
    var pendingTxs: map<TxId, seq<KV>>

    ghost function State(): View
      reads `txCounter, `pendingTxs, table
    {
      View(txCounter, pendingTxs, table.Contents)
    }

    ghost predicate Valid()
      reads table, table.sets
      reads set i | 0 <= i < |table.sets| :: table.sets[i].ctrl, set i | 0 <= i < |table.sets| :: table.sets[i].slots
    {
      && table.Valid()
      && 0 < n <= MAX_NODES && myIdx < n
    }

    constructor (n: nat, myIdx: nat, hash: Key -> nat, width: nat, shards: nat)
      requires 0 < n <= MAX_NODES && myIdx < n && (width == 8 || width == 16) && shards > 0
      ensures Valid() && this.n == n && this.myIdx == myIdx
      ensures State() == View(0, map[], map[])
    {
      this.n, this.myIdx := n, myIdx;
      txCounter := 0;
      pendingTxs := map[];
      var t := new ParallelHashMap<Key, Value>(hash, width, shards);
      table := t;
    }

    /** The id of the next transaction; the counter is a 32-bit word. */
    method NextTxId() returns (txId: TxId)
      modifies `txCounter
      ensures txId == MakeTxId(myIdx, old(txCounter)) && State() == AfterBegin(old(State()))
    {
      txId := myIdx * WORD + txCounter;
      txCounter := if txCounter + 1 == WORD then 0 else txCounter + 1;
    }

    /** PREPARE: stages the writes, and votes yes. */
    method HandlePrepare(txId: TxId, inputs: seq<WireKV>, inputCount: nat) returns (vote: bool)
      requires Valid() && inputCount <= |inputs|
      modifies `pendingTxs
      ensures Valid() && vote && State() == AfterPrepare(old(State()), txId, Received(inputs[..inputCount]))
    {
      var kvs: seq<KV> := [];
      for i := 0 to inputCount
        invariant kvs == Received(inputs[..i])
      {
        kvs := kvs + [KV(inputs[i].key, WireFormat.Decode(inputs[i].value))];
      }
      pendingTxs := pendingTxs[txId := kvs];
      vote := true;
    }

    method HandleAbort(txId: TxId)
      requires Valid()
      modifies `pendingTxs
      ensures Valid() && State() == AfterAbort(old(State()), txId)
    {
      pendingTxs := pendingTxs - {txId};
    }

    /** The stripes of the writes, each once and in ascending order. */
    method CollectStripes(kvs: seq<KV>) returns (stripes: seq<nat>)
      ensures stripes == Stripes(kvs)
    {
      var used: set<nat> := {};
      for i := 0 to |kvs|
        invariant forall s: nat :: s in used <==> UsesStripe(kvs[..i], s)
      {
        used := used + {Stripe(kvs[i].key)};
        UsesOneMore(kvs, i);
      }
      assert kvs[..|kvs|] == kvs;
      stripes := [];
      for s := 0 to NUM_STRIPES
        invariant stripes == StripesBelow(kvs, s)
      {
        if s in used {
          stripes := stripes + [s];
        }
      }
    }

    /** COMMIT: takes what is staged and applies it; a transaction that is not staged is ignored. */
    method HandleCommit(txId: TxId)
      requires Valid()
      modifies `pendingTxs, table, table.sets
      modifies set i | 0 <= i < |table.sets| :: table.sets[i].ctrl, set i | 0 <= i < |table.sets| :: table.sets[i].slots
      ensures Valid() && table.KeepsOrRenewsArrays() && State() == AfterCommit(old(State()), txId)
    {
      if txId !in pendingTxs {
        return;
      }
      var kvs := pendingTxs[txId];
      pendingTxs := pendingTxs - {txId};
      // The stripes are taken in this order and held until all writes are done: see module NodeLocks.
      var held := CollectStripes(kvs);
      ApplyWrites(table, kvs);
    }

    /** The node's own copy of a key; an absent key reads as the empty string. */
    method ReadLocal(key: Key) returns (value: Value)
      requires Valid()
      ensures value == if key in table.Contents then table.Contents[key] else ""
    {
      var found := table.Find(key);
      value := if found.Some? then found.value else "";
    }

    /** GET: the value as it goes on the wire, and whether there is one. */
    method HandleGet(key: Key) returns (output: string, success: bool)
      requires Valid()
      ensures var value := if key in table.Contents then table.Contents[key] else "";
              output == WireFormat.Encode(value) && success == (value != "")
    {
      var value := ReadLocal(key);
      output, success := WireFormat.Encode(value), value != "";
    }

    /** Asks the remote participants one after the other, up to the first that does not answer. */
    method AskAll(txId: TxId, kvs: seq<KV>, groups: map<nat, seq<KV>>, dests: seq<nat>, answers: set<nat>)
      returns (allOk: bool, voted: set<nat>, sent: seq<Request>)
      requires 0 < n && IsGrouping(groups, kvs, n) && ListsRemotes(dests, kvs, myIdx, n)
      ensures allOk <==> Votes(dests, answers) == |dests|
      ensures voted == Elements(dests[..Votes(dests, answers)])
      ensures forall d :: d in voted <==> IsAmong(d, dests, Votes(dests, answers))
      ensures sent == Prepares(txId, if allOk then dests else dests[..Votes(dests, answers) + 1], kvs, n)
    {
      FirstElements(dests, Votes(dests, answers));
      allOk, voted, sent := true, {}, [];
      var i := 0;
      while i < |dests| && allOk
        invariant i <= |dests| && i <= Votes(dests, answers) + (if allOk then 0 else 1)
        invariant !allOk ==> i == Votes(dests, answers) + 1
        invariant voted == Elements(dests[..if allOk then i else i - 1])
        invariant sent == Prepares(txId, dests[..i], kvs, n)
      {
        assert dests[i] in dests;
        sent := sent + [Prepare(dests[i], txId, Inputs(groups[dests[i]]))];
        AskOneMore(txId, dests, i, kvs, n);
        if dests[i] in answers {
          voted := voted + {dests[i]};
        } else {
          allOk := false;
        }
        i := i + 1;
      }
      assert dests[..|dests|] == dests;
    }

    /** Tells those who have voted the decision. */
    method TellAll(txId: TxId, voted: set<nat>, commit: bool) returns (sent: seq<Request>)
      ensures sent == Tells(txId, voted, n, commit)
    {
      sent := [];
      for d := 0 to n
        invariant sent == Tells(txId, voted, d, commit)
      {
        if d in voted {
          sent := sent + [if commit then Commit(d, txId) else Abort(d, txId)];
        }
      }
    }

    /** The prepare phase: the node's own share is staged, then the others are asked. */
    method PrepareAll(txId: TxId, kvs: seq<KV>, dests: seq<nat>, answers: set<nat>)
      returns (localPrepared: bool, allOk: bool, voted: set<nat>, sent: seq<Request>)
      requires 0 < n && ListsRemotes(dests, kvs, myIdx, n)
      modifies `pendingTxs
      ensures localPrepared == (Share(kvs, myIdx, n) != [])
      ensures State() == AfterStage(old(State()), txId, Share(kvs, myIdx, n))
      ensures allOk <==> Votes(dests, answers) == |dests|
      ensures voted == Elements(dests[..Votes(dests, answers)])
      ensures sent == Prepares(txId, if allOk then dests else dests[..Votes(dests, answers) + 1], kvs, n)
    {
      var groups := Group(kvs, n);
      localPrepared := myIdx in groups;
      if localPrepared {
        pendingTxs := pendingTxs[txId := groups[myIdx]];
      }
      allOk, voted, sent := AskAll(txId, kvs, groups, dests, answers);
    }

    /** The local part of the decision, if the node is a participant. */
    method FinishLocal(txId: TxId, localPrepared: bool, commit: bool)
      requires Valid()
      modifies `pendingTxs, table, table.sets
      modifies set i | 0 <= i < |table.sets| :: table.sets[i].ctrl, set i | 0 <= i < |table.sets| :: table.sets[i].slots
      ensures Valid()
      ensures State() == AfterFinish(old(State()), txId, localPrepared, commit)
    {
      if localPrepared {
        if commit {
          HandleCommit(txId);
        } else {
          HandleAbort(txId);
        }
      }
    }

    /** put and put3 up to the local part of the decision: the id, the prepare phase, and what the others are told. */
    method DecideAll(kvs: seq<KV>, dests: seq<nat>, answers: set<nat>)
      returns (txId: TxId, localPrepared: bool, ok: bool, sent: seq<Request>)
      requires 0 < n && ListsRemotes(dests, kvs, myIdx, n)
      modifies `txCounter, `pendingTxs
      ensures txId == MakeTxId(myIdx, old(txCounter)) && localPrepared == (Share(kvs, myIdx, n) != [])
      ensures State() == AfterStage(AfterBegin(old(State())), txId, Share(kvs, myIdx, n))
      ensures ok <==> Votes(dests, answers) == |dests|
      ensures sent == Prepares(txId, if ok then dests else dests[..Votes(dests, answers) + 1], kvs, n)
                      + Tells(txId, Elements(dests[..Votes(dests, answers)]), n, ok)
    {
      txId := NextTxId();
      var voted, told;
      localPrepared, ok, voted, sent := PrepareAll(txId, kvs, dests, answers);
      told := TellAll(txId, voted, ok);
      sent := sent + told;
    }

    /** The effect of put on the node, and what it sends, in order. */
    method RunPut(kvs: seq<KV>, dests: seq<nat>, answers: set<nat>) returns (ok: bool, sent: seq<Request>)
      requires Valid() && 1 <= |kvs| <= WIRE_SLOTS && ListsRemotes(dests, kvs, myIdx, n)
      modifies `txCounter, `pendingTxs
      modifies table, table.sets
      modifies set i | 0 <= i < |table.sets| :: table.sets[i].ctrl, set i | 0 <= i < |table.sets| :: table.sets[i].slots
      ensures Valid() && State() == AfterPut(old(State()), MakeTxId(myIdx, old(txCounter)), Share(kvs, myIdx, n), ok)
      ensures ok <==> Votes(dests, answers) == |dests|
      ensures sent == Prepares(MakeTxId(myIdx, old(txCounter)),
                               if ok then dests else dests[..Votes(dests, answers) + 1], kvs, n)
                      + Tells(MakeTxId(myIdx, old(txCounter)), Elements(dests[..Votes(dests, answers)]), n, ok)
    {
      var txId, localPrepared;
      txId, localPrepared, ok, sent := DecideAll(kvs, dests, answers);
      PutIsSteps(old(State()), txId, Share(kvs, myIdx, n), ok);
      FinishLocal(txId, localPrepared, ok);
    }

    /**
     put, with a batch of one write, and put3, with three. `dests` is the order in which the remote
     participants are asked and `answers` the nodes whose reply to PREPARE arrives.
     */
    method Put(kvs: seq<KV>, dests: seq<nat>, answers: set<nat>) returns (ok: bool, sent: seq<Request>)
      requires Valid() && 1 <= |kvs| <= WIRE_SLOTS && ListsRemotes(dests, kvs, myIdx, n)
      modifies `txCounter, `pendingTxs
      modifies table, table.sets
      modifies set i | 0 <= i < |table.sets| :: table.sets[i].ctrl, set i | 0 <= i < |table.sets| :: table.sets[i].slots
      ensures Valid() && State() == AfterPut(old(State()), MakeTxId(myIdx, old(txCounter)), Share(kvs, myIdx, n), ok)
      ensures ok <==> forall d | d in dests :: d in answers
      ensures AsksThenTells(sent, MakeTxId(myIdx, old(txCounter)), dests,
                            if ok then |dests| else Votes(dests, answers) + 1, kvs, n)
      ensures forall d, id :: Commit(d, id) in sent <==> ok && id == MakeTxId(myIdx, old(txCounter)) && d in dests
      ensures forall d, id :: Abort(d, id) in sent <==>
                !ok && id == MakeTxId(myIdx, old(txCounter)) && IsAmong(d, dests, Votes(dests, answers))
    {
      ghost var txId := MakeTxId(myIdx, txCounter);
      ok, sent := RunPut(kvs, dests, answers);
      SentIsRight(txId, dests, answers, ok, kvs, myIdx, n);
    }
  }

  /** All vote exactly when all answer. */
  lemma AllVote(dests: seq<nat>, answers: set<nat>)
    ensures Votes(dests, answers) == |dests| <==> forall d | d in dests :: d in answers
  {
    var votes := Votes(dests, answers);
    assert votes < |dests| ==> dests[votes] in dests && dests[votes] !in answers;
  }

  lemma AmongAll(dests: seq<nat>)
    ensures forall d :: IsAmong(d, dests, |dests|) <==> d in dests
  {
    forall d | IsAmong(d, dests, |dests|) ensures d in dests {
      var j :| 0 <= j < |dests| && dests[j] == d;
    }
  }

  lemma AllTells(sent: seq<Request>, txId: TxId, dests: seq<nat>, asked: nat, votes: nat, ok: bool, kvs: seq<KV>,
                 n: nat)
    requires 0 < n && asked <= |dests| && votes <= |dests| && (ok ==> votes == |dests|)
    requires forall x | x in dests :: x < n
    requires sent == Prepares(txId, dests[..asked], kvs, n) + Tells(txId, Elements(dests[..votes]), n, ok)
    ensures forall d, id :: Commit(d, id) in sent <==> ok && id == txId && d in dests
    ensures forall d, id :: Abort(d, id) in sent <==> !ok && id == txId && IsAmong(d, dests, votes)
  {
    AmongAll(dests);
    forall d, id
      ensures Commit(d, id) in sent <==> ok && id == txId && IsAmong(d, dests, votes)
      ensures Abort(d, id) in sent <==> !ok && id == txId && IsAmong(d, dests, votes)
    {
      SentTells(txId, dests, asked, votes, ok, kvs, n, d, id);
    }
  }

  lemma SentIsRight(txId: TxId, dests: seq<nat>, answers: set<nat>, ok: bool, kvs: seq<KV>, myIdx: nat, n: nat)
    requires 0 < n && ListsRemotes(dests, kvs, myIdx, n) && (ok <==> Votes(dests, answers) == |dests|)
    ensures var votes := Votes(dests, answers);
            var sent := Prepares(txId, if ok then dests else dests[..votes + 1], kvs, n)
                        + Tells(txId, Elements(dests[..votes]), n, ok);
            IsConversation(sent, txId, ok, dests, answers, kvs, n)
  {
    var votes := Votes(dests, answers);
    var asked := if ok then |dests| else votes + 1;
    assert dests[..|dests|] == dests;
    var sent := Prepares(txId, dests[..asked], kvs, n) + Tells(txId, Elements(dests[..votes]), n, ok);
    RemotesAreNodes(dests, kvs, myIdx, n);
    SentToNodes(sent, txId, dests, asked, answers, ok, kvs, n);
  }

  lemma SentToNodes(sent: seq<Request>, txId: TxId, dests: seq<nat>, asked: nat, answers: set<nat>, ok: bool,
                    kvs: seq<KV>, n: nat)
    requires 0 < n && (forall d | d in dests :: d < n) && (ok <==> Votes(dests, answers) == |dests|)
    requires asked == if ok then |dests| else Votes(dests, answers) + 1
    requires asked <= |dests| && sent == Prepares(txId, dests[..asked], kvs, n)
                                         + Tells(txId, Elements(dests[..Votes(dests, answers)]), n, ok)
    ensures IsConversation(sent, txId, ok, dests, answers, kvs, n)
  {
    var votes := Votes(dests, answers);
    var tells := Tells(txId, Elements(dests[..votes]), n, ok);
    AllVote(dests, answers);
    TellsNoPrepare(txId, Elements(dests[..votes]), n, ok);
    TellsOnce(txId, Elements(dests[..votes]), n, ok);
    SentAsksThenTells(sent, txId, dests, asked, tells, kvs, n);
    AllTells(sent, txId, dests, asked, votes, ok, kvs, n);
  }

  lemma AskOneMore(txId: TxId, dests: seq<nat>, i: nat, kvs: seq<KV>, n: nat)
    requires 0 < n && i < |dests|
    ensures Elements(dests[..i + 1]) == Elements(dests[..i]) + {dests[i]}
    ensures Prepares(txId, dests[..i + 1], kvs, n) ==
            Prepares(txId, dests[..i], kvs, n) + [Prepare(dests[i], txId, Inputs(Share(kvs, dests[i], n)))]
  {
    assert dests[..i + 1] == dests[..i] + [dests[i]];
  }

  lemma ReplayOneMore(kvs: seq<KV>, i: nat, t: Table)
    requires i < |kvs|
    ensures Replay(kvs[..i + 1], t) == Replay(kvs[..i], t)[kvs[i].key := kvs[i].val]
  {
    assert kvs[..i + 1][..i] == kvs[..i];
  }

  lemma UsesOneMore(kvs: seq<KV>, i: nat)
    requires i < |kvs|
    ensures forall s: nat :: UsesStripe(kvs[..i + 1], s) <==> UsesStripe(kvs[..i], s) || Stripe(kvs[i].key) == s
  {
    forall s: nat ensures UsesStripe(kvs[..i + 1], s) <==> UsesStripe(kvs[..i], s) || Stripe(kvs[i].key) == s {
      if UsesStripe(kvs[..i], s) {
        var j :| 0 <= j < i && Stripe(kvs[..i][j].key) == s;
        assert Stripe(kvs[..i + 1][j].key) == s;
      }
      if Stripe(kvs[i].key) == s {
        assert Stripe(kvs[..i + 1][i].key) == s;
      }
      if UsesStripe(kvs[..i + 1], s) {
        var j :| 0 <= j < i + 1 && Stripe(kvs[..i + 1][j].key) == s;
        assert j < i ==> Stripe(kvs[..i][j].key) == s;
      }
    }
  }
}

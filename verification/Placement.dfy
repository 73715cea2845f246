/**
 Which nodes hold a key, how a batch is shared out among them, what applying a
 list of writes does to a table, and transaction ids.

 Keys are taken to be non-negative and the number of nodes n to be at most 127,
 so that `key % N` and `(owner + 1) % N` are what they look like in an int8_t.
 */
module Placement {
  import opened Options
  import ProbeSequence

  type Key = nat
  type Value = string
  type Table = map<Key, Value>
  type TxId = nat

  datatype KV = KV(key: Key, val: Value)

  const WORD: nat := 0x1_0000_0000
  const MAX_NODES: nat := 127
  const WIRE_SLOTS: nat := 3

  function Owner(key: Key, n: nat): (node: nat)
    requires 0 < n
    ensures node < n
  {
    key % n
  }

  function Replica(key: Key, n: nat): (node: nat)
    requires 0 < n
    ensures node < n
  {
    if Owner(key, n) + 1 == n then 0 else Owner(key, n) + 1
  }

  /** The node keeps a copy of the key. */
  predicate Holds(node: nat, key: Key, n: nat)
    requires 0 < n
  {
    node == Owner(key, n) || node == Replica(key, n)
  }

  /** The holders are the two nodes that the source computes, which are one node only if there is no other. */
  lemma HoldersAre(node: nat, key: Key, n: nat)
    requires 0 < n
    ensures Owner(key, n) == key % n && Replica(key, n) == (key % n + 1) % n
    ensures Holds(node, key, n) <==> node == key % n || node == (key + 1) % n
    ensures Owner(key, n) == Replica(key, n) <==> n == 1
  {
    ProbeSequence.ModAdd(1, key, n);
    ProbeSequence.ModNear(key % n + 1, n);
  }

  function Lookup(t: Table, k: Key): Option<Value> {
    if k in t then Some(t[k]) else None
  }

  /** The table after the writes, in order. */
  function Replay(kvs: seq<KV>, t: Table): Table {
    if kvs == [] then t
    else Replay(kvs[..|kvs| - 1], t)[kvs[|kvs| - 1].key := kvs[|kvs| - 1].val]
  }

  /** The writes of a batch that the node takes part in, in order. */
  function Share(kvs: seq<KV>, node: nat, n: nat): (share: seq<KV>)
    requires 0 < n
    ensures |share| <= |kvs|
    ensures forall kv | kv in share :: kv in kvs && Holds(node, kv.key, n)
  {
    if kvs == [] then []
    else
      var last := kvs[|kvs| - 1];
      Share(kvs[..|kvs| - 1], node, n) + (if Holds(node, last.key, n) then [last] else [])
  }

  predicate Touches(kvs: seq<KV>, k: Key) {
    exists i :: 0 <= i < |kvs| && kvs[i].key == k
  }

  /** The value of the last write to k. */
  function LastValue(kvs: seq<KV>, k: Key): Value
    requires Touches(kvs, k)
    decreases |kvs|
  {
    if kvs[|kvs| - 1].key == k then kvs[|kvs| - 1].val else LastValue(kvs[..|kvs| - 1], k)
  }

  /** After the writes, a key has the value last written to it, and what it had before if there was none. */
  lemma {:induction false} ReplayLookup(kvs: seq<KV>, t: Table, k: Key)
    ensures Lookup(Replay(kvs, t), k) == if Touches(kvs, k) then Some(LastValue(kvs, k)) else Lookup(t, k)
  {
    if kvs != [] {
      var front := kvs[..|kvs| - 1];
      ReplayLookup(front, t, k);
      if kvs[|kvs| - 1].key != k {
        assert Touches(kvs, k) <==> Touches(front, k) by {
          if Touches(kvs, k) {
            var i :| 0 <= i < |kvs| && kvs[i].key == k;
            assert front[i].key == k;
          }
          if Touches(front, k) {
            var i :| 0 <= i < |front| && front[i].key == k;
            assert kvs[i].key == k;
          }
        }
      }
    }
  }

  /** A node's share has the batch's writes to the keys the node holds: the same last value, and no others. */
  lemma {:induction false} ShareTouches(kvs: seq<KV>, node: nat, n: nat, k: Key)
    requires 0 < n
    ensures Touches(Share(kvs, node, n), k) <==> Touches(kvs, k) && Holds(node, k, n)
    ensures Touches(kvs, k) && Holds(node, k, n) ==> LastValue(Share(kvs, node, n), k) == LastValue(kvs, k)
  {
    if kvs != [] {
      var front, last := kvs[..|kvs| - 1], kvs[|kvs| - 1];
      ShareTouches(front, node, n, k);
      assert front + [last] == kvs;
      ShareAppend(front, last, node, n);
      TouchesOneMore(front, Share(front, node, n), last, k, Holds(node, last.key, n), Holds(node, k, n));
    }
  }

  lemma TouchesOneMore(front: seq<KV>, share: seq<KV>, last: KV, k: Key, held: bool, holds: bool)
    requires Touches(share, k) <==> Touches(front, k) && holds
    requires Touches(front, k) && holds ==> LastValue(share, k) == LastValue(front, k)
    requires last.key == k ==> held == holds
    ensures var share' := share + (if held then [last] else []);
            && (Touches(share', k) <==> Touches(front + [last], k) && holds)
            && (Touches(front + [last], k) && holds ==> LastValue(share', k) == LastValue(front + [last], k))
  {
    AppendTouches(front, last, k);
    AppendTouches(share, last, k);
    assert share + [] == share;
  }

  lemma AppendTouches(front: seq<KV>, last: KV, k: Key)
    ensures Touches(front + [last], k) <==> Touches(front, k) || last.key == k
    ensures Touches(front + [last], k) ==>
            LastValue(front + [last], k) == if last.key == k then last.val else LastValue(front, k)
  {
    var kvs := front + [last];
    assert kvs[..|front|] == front;
    if last.key == k {
      assert kvs[|front|].key == k;
    }
    if Touches(front, k) {
      var i :| 0 <= i < |front| && front[i].key == k;
      assert kvs[i].key == k;
    }
    if Touches(kvs, k) && last.key != k {
      var i :| 0 <= i < |kvs| && kvs[i].key == k;
      assert front[i].key == k;
    }
  }

  /**
   A share is the subsequence of the batch that the node holds: write i of the batch, if the node holds
   its key, stands right after the share of the writes before it.
   */
  lemma {:induction false} ShareAt(kvs: seq<KV>, node: nat, n: nat, i: nat)
    requires 0 < n && i < |kvs|
    ensures var before, share := Share(kvs[..i], node, n), Share(kvs, node, n);
            && before <= share
            && |Share(kvs[..i + 1], node, n)| == |before| + (if Holds(node, kvs[i].key, n) then 1 else 0)
            && (Holds(node, kvs[i].key, n) ==> |before| < |share| && share[|before|] == kvs[i])
  {
    assert kvs[..i + 1] == kvs[..i] + [kvs[i]];
    ShareAppend(kvs[..i], kvs[i], node, n);
    if i < |kvs| - 1 {
      var front := kvs[..|kvs| - 1];
      ShareAt(front, node, n, i);
      assert front[..i] == kvs[..i] && front[..i + 1] == kvs[..i + 1];
    } else {
      assert kvs[..i + 1] == kvs;
    }
  }

  /** Replaying a node's share is replaying the whole batch, restricted to the keys the node holds. */
  lemma ShareReplay(kvs: seq<KV>, node: nat, n: nat, t: Table, k: Key)
    requires 0 < n
    ensures Lookup(Replay(Share(kvs, node, n), t), k) ==
            if Holds(node, k, n) then Lookup(Replay(kvs, t), k) else Lookup(t, k)
  {
    ReplayLookup(Share(kvs, node, n), t, k);
    ReplayLookup(kvs, t, k);
    ShareTouches(kvs, node, n, k);
  }

  /** Duplicate keys in a batch resolve to the same value at the owner and at the replica, whatever the tables held. */
  lemma OwnerAndReplicaAgree(kvs: seq<KV>, n: nat, k: Key, t: Table, u: Table)
    requires 0 < n && Touches(kvs, k)
    ensures Lookup(Replay(Share(kvs, Owner(k, n), n), t), k) == Some(LastValue(kvs, k))
    ensures Lookup(Replay(Share(kvs, Replica(k, n), n), u), k) == Some(LastValue(kvs, k))
  {
    ShareReplay(kvs, Owner(k, n), n, t, k);
    ShareReplay(kvs, Replica(k, n), n, u, k);
    ReplayLookup(kvs, t, k);
    ReplayLookup(kvs, u, k);
  }

  /** The participants of a batch with their shares: an entry for every node that has one. */
  ghost predicate IsGrouping(groups: map<nat, seq<KV>>, kvs: seq<KV>, n: nat)
    requires 0 < n
  {
    && (forall p | p in groups :: groups[p] == Share(kvs, p, n) != [])
    && (forall p: nat :: Share(kvs, p, n) != [] ==> p in groups)
  }

  function Append(groups: map<nat, seq<KV>>, node: nat, kv: KV): map<nat, seq<KV>> {
    groups[node := (if node in groups then groups[node] else []) + [kv]]
  }

  /** The grouping loop of put3. */
  method Group(kvs: seq<KV>, n: nat) returns (groups: map<nat, seq<KV>>)
    requires 0 < n
    ensures IsGrouping(groups, kvs, n)
  {
    groups := map[];
    for i := 0 to |kvs|
      invariant IsGrouping(groups, kvs[..i], n)
    {
      var owner := Owner(kvs[i].key, n);
      var replica := Replica(kvs[i].key, n);
      ghost var before := groups;
      groups := Append(groups, owner, kvs[i]);
      if replica != owner {
        groups := Append(groups, replica, kvs[i]);
      }
      GroupOneMore(before, groups, kvs[..i], kvs[i], owner, replica, n);
      assert kvs[..i] + [kvs[i]] == kvs[..i + 1];
    }
    assert kvs[..|kvs|] == kvs;
  }

  lemma ShareAppend(kvs: seq<KV>, kv: KV, p: nat, n: nat)
    requires 0 < n
    ensures Share(kvs + [kv], p, n) == Share(kvs, p, n) + (if Holds(p, kv.key, n) then [kv] else [])
  {
    assert (kvs + [kv])[..|kvs|] == kvs;
  }

  lemma GroupOneMore(groups: map<nat, seq<KV>>, groups': map<nat, seq<KV>>, kvs: seq<KV>, kv: KV, o: nat, r: nat,
                     n: nat)
    requires 0 < n && IsGrouping(groups, kvs, n) && o == Owner(kv.key, n) && r == Replica(kv.key, n)
    requires groups' == if r == o then Append(groups, o, kv) else Append(Append(groups, o, kv), r, kv)
    ensures IsGrouping(groups', kvs + [kv], n)
  {
    forall p: nat ensures Share(kvs + [kv], p, n) == Share(kvs, p, n) + (if p == o || p == r then [kv] else []) {
      ShareAppend(kvs, kv, p, n);
    }
  }

  /** Each list fits in the request: put3 sends at most three. */
  lemma ShareFitsRequest(kvs: seq<KV>, node: nat, n: nat)
    requires 0 < n && |kvs| <= WIRE_SLOTS
    ensures |Share(kvs, node, n)| <= WIRE_SLOTS
  {
  }

  // ------------------------------------------------------------------- transaction ids

  /** (idx << 32) | counter, where the counter is a 32-bit word: the c-th transaction of node idx. */
  function MakeTxId(idx: nat, c: nat): TxId {
    idx * WORD + c % WORD
  }

  /** Two ids are the same exactly when they are from one node and the counter has gone round between them. */
  lemma TxIdsCollide(i: nat, c: nat, j: nat, d: nat)
    ensures MakeTxId(i, c) == MakeTxId(j, d) <==> i == j && c % WORD == d % WORD
  {
  }
}

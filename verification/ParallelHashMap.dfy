/**
 The sharded table: 2^N submaps, and every key lives in the one submap chosen by
 its hash. Each operation holds that submap's mutex from its search to its last
 write, so operations on one submap are modelled one after the other.
 */
module ParallelHashMaps {
  import opened Options
  import opened ProbeSequence
  import opened RawHashMaps

  function Xor(a: nat, b: nat): nat
    decreases a
  {
    if a == 0 then b else if b == 0 then a else 2 * Xor(a / 2, b / 2) + (a + b) % 2
  }

  /** The submap of a hash: bits from three places, so that it does not depend on the bits that H2 uses. */
  function Subidx(hashval: nat, n: nat): (i: nat)
    requires n > 0
    ensures i < n
  {
    Xor(Xor(hashval / 0x100, hashval / 0x1_0000), hashval / 0x100_0000) % n
  }

  /** The submap does not depend on the lowest eight bits of the hash. */
  lemma SubidxIgnoresLowBits(high: nat, low: nat, n: nat)
    requires n > 0 && low < 0x100
    ensures Subidx(0x100 * high + low, n) == Subidx(0x100 * high, n)
  {
    SameHighBits(high, low);
  }

  lemma SameHighBits(high: nat, low: nat)
    requires low < 0x100
    ensures (0x100 * high + low) / 0x100 == (0x100 * high) / 0x100
    ensures (0x100 * high + low) / 0x1_0000 == (0x100 * high) / 0x1_0000
    ensures (0x100 * high + low) / 0x100_0000 == (0x100 * high) / 0x100_0000
  {
  }

  /** Every submap is some hash's. */
  lemma SubidxReachesAll(n: nat, i: nat)
    requires i < n <= 0x100
    ensures Subidx(0x100 * i, n) == i
  {
    assert Xor(Xor(i, 0), 0) == i;
    ProbeSequence.DivModUnique(i, n, 0, i);
  }

  /** A submap per index whose keys all choose that index, and m is the union. */
  ghost predicate Shards<K, V>(parts: seq<map<K, V>>, hash: K -> nat, m: map<K, V>) {
    && |parts| > 0
    && (forall i, k | 0 <= i < |parts| && k in parts[i] :: Subidx(hash(k), |parts|) == i && k in m
         && m[k] == parts[i][k])
    && (forall k | k in m :: k in parts[Subidx(hash(k), |parts|)])
  }

  /** A lookup in the chosen submap is a lookup in the whole map. */
  lemma ShardLookup<K, V>(parts: seq<map<K, V>>, hash: K -> nat, m: map<K, V>, k: K)
    requires Shards(parts, hash, m)
    ensures var part := parts[Subidx(hash(k), |parts|)];
            (k in part <==> k in m) && (k in part ==> part[k] == m[k])
  {
  }

  /** Changing one key in its own submap changes that key in the whole map, and nothing else. */
  lemma ShardInsert<K, V>(parts: seq<map<K, V>>, hash: K -> nat, m: map<K, V>, k: K, v: V)
    requires Shards(parts, hash, m)
    ensures var i := Subidx(hash(k), |parts|); Shards(parts[i := parts[i][k := v]], hash, m[k := v])
  {
  }

  lemma ShardErase<K, V>(parts: seq<map<K, V>>, hash: K -> nat, m: map<K, V>, k: K)
    requires Shards(parts, hash, m)
    ensures var i := Subidx(hash(k), |parts|); Shards(parts[i := parts[i] - {k}], hash, m - {k})
  {
  }

  class ParallelHashMap<K(==), V> {
    const hash: K -> nat
    const sets: seq<RawHashMap<K, V>>
    ghost var Contents: map<K, V>
    ghost var Parts: seq<map<K, V>>  // the contents of each submap

    ghost predicate Separate()
      reads sets
    {
      forall i, j | 0 <= i < j < |sets| :: sets[i].Repr() !! sets[j].Repr()
    }

    ghost predicate ShardOk(i: nat)
      requires i < |sets| && |Parts| == |sets|
      reads `Parts, sets[i], sets[i].ctrl, sets[i].slots
    {
      sets[i].Valid() && sets[i].hash == hash && Parts[i] == sets[i].Contents
    }

    /** Every submap is a table of its own, and Parts says what they hold. */
    ghost predicate SetsOk()
      reads `Parts, sets, set i | 0 <= i < |sets| :: sets[i].ctrl, set i | 0 <= i < |sets| :: sets[i].slots
    {
      && Separate()
      && |Parts| == |sets|
      && forall i | 0 <= i < |sets| :: ShardOk(i)
    }

    ghost predicate Valid()
      reads this, sets, set i | 0 <= i < |sets| :: sets[i].ctrl, set i | 0 <= i < |sets| :: sets[i].slots
    {
      SetsOk() && Shards(Parts, hash, Contents)
    }

    /** A table with this hash that is empty. */
    static ghost predicate IsEmptySet(sub: RawHashMap<K, V>, hash: K -> nat)
      reads sub, sub.ctrl, sub.slots
    {
      sub.Valid() && sub.hash == hash && sub.Contents == map[]
    }

    /** Empty tables that share no object. */
    static ghost predicate AreEmptySets(subs: seq<RawHashMap<K, V>>, hash: K -> nat)
      reads subs, set i | 0 <= i < |subs| :: subs[i].ctrl, set i | 0 <= i < |subs| :: subs[i].slots
    {
      && (forall i | 0 <= i < |subs| :: IsEmptySet(subs[i], hash))
      && forall i, j | 0 <= i < j < |subs| :: subs[i].Repr() !! subs[j].Repr()
    }

    static lemma OneMoreSet(subs: seq<RawHashMap<K, V>>, sub: RawHashMap<K, V>, hash: K -> nat)
      requires AreEmptySets(subs, hash) && IsEmptySet(sub, hash)
      requires forall i | 0 <= i < |subs| :: subs[i].Repr() !! sub.Repr()
      ensures AreEmptySets(subs + [sub], hash)
    {
      var more := subs + [sub];
      forall i, j | 0 <= i < j < |more| ensures more[i].Repr() !! more[j].Repr() {
        assert more[i] == subs[i];
      }
    }

    static method AddSet(subs: seq<RawHashMap<K, V>>, hash: K -> nat, width: nat) returns (more: seq<RawHashMap<K, V>>)
      requires IsWidth(width) && AreEmptySets(subs, hash)
      ensures |more| == |subs| + 1 && more[..|subs|] == subs && AreEmptySets(more, hash)
    {
      var sub := new RawHashMap<K, V>(hash, width);
      forall i | 0 <= i < |subs| ensures subs[i].Repr() !! sub.Repr() {
        assert IsEmptySet(subs[i], hash);
      }
      OneMoreSet(subs, sub, hash);
      more := subs + [sub];
    }

    static method MakeSets(hash: K -> nat, width: nat, n: nat) returns (subs: seq<RawHashMap<K, V>>)
      requires IsWidth(width)
      ensures |subs| == n && AreEmptySets(subs, hash)
    {
      subs := [];
      while |subs| < n
        invariant |subs| <= n && AreEmptySets(subs, hash)
      {
        subs := AddSet(subs, hash, width);
      }
    }

    constructor (hash: K -> nat, width: nat, n: nat)
      requires IsWidth(width) && n > 0
      ensures Valid() && this.hash == hash && |sets| == n && Contents == map[]
    {
      this.hash := hash;
      var subs := MakeSets(hash, width, n);
      sets := subs;
      Contents := map[];
      Parts := seq(n, _ => map[]);
      new;
      assert AreEmptySets(sets, hash);
      forall i | 0 <= i < |sets| ensures ShardOk(i) {
        assert IsEmptySet(sets[i], hash);
      }
    }

    /** if_contains: the value of k, if there is one. */
    method Find(k: K) returns (value: Option<V>)
      requires Valid()
      ensures value == if k in Contents then Some(Contents[k]) else None
    {
      var i := Subidx(hash(k), |sets|);
      ShardLookup(Parts, hash, Contents, k);
      assert ShardOk(i);
      value := sets[i].Find(k);
    }

    /** Only the objects of submap i have changed, and its new arrays are new. */
    twostate predicate OnlyShard(i: nat)
      requires i < |sets|
      reads this, sets, set j | 0 <= j < |sets| :: sets[j].ctrl, set j | 0 <= j < |sets| :: sets[j].slots
    {
      && sets[i].KeepsOrRenewsArrays()
      && forall j | 0 <= j < |sets| && j != i :: OtherUnchanged(sets[j])
    }

    /** Every array is an old one or a new one. */
    twostate predicate KeepsOrRenewsArrays()
      reads this, sets
    {
      forall j | 0 <= j < |sets| :: sets[j].KeepsOrRenewsArrays()
    }

    static twostate predicate OtherUnchanged(sub: RawHashMap<K, V>)
      reads sub, sub.ctrl, sub.slots
    {
      && sub.ctrl == old(sub.ctrl) && sub.slots == old(sub.slots)
      && unchanged(sub) && unchanged(sub.ctrl) && unchanged(sub.slots)
    }

    twostate lemma StillSeparate(i: nat)
      requires i < |sets| && OnlyShard(i) && old(Separate())
      requires fresh(sets[i].ctrl) || sets[i].ctrl == old(sets[i].ctrl)
      ensures Separate()
    {
      forall j, k | 0 <= j < k < |sets| ensures sets[j].Repr() !! sets[k].Repr() {
        assert old(sets[j].Repr() !! sets[k].Repr());
        if j != i { assert OtherUnchanged(sets[j]); }
        if k != i { assert OtherUnchanged(sets[k]); }
      }
    }

    twostate lemma StillKeepsOrRenews(i: nat)
      requires i < |sets| && OnlyShard(i)
      ensures KeepsOrRenewsArrays()
    {
      forall j | 0 <= j < |sets| ensures sets[j].KeepsOrRenewsArrays() {
        assert j != i ==> OtherUnchanged(sets[j]);
      }
    }

    twostate lemma OthersStillOk(i: nat)
      requires |sets| == |Parts| == |old(Parts)| && i < |sets| && OnlyShard(i) && ShardOk(i)
      requires forall j | 0 <= j < |sets| && j != i :: old(ShardOk(j)) && Parts[j] == old(Parts)[j]
      ensures forall j | 0 <= j < |sets| :: ShardOk(j)
    {
      forall j | 0 <= j < |sets| && j != i ensures ShardOk(j) {
        assert old(ShardOk(j)) && OtherUnchanged(sets[j]);
      }
    }

    /** The insertion into submap i, before Parts follows. */
    method InsertInShard(i: nat, k: K, v: V) returns (inserted: bool)
      requires SetsOk() && i < |sets|
      modifies sets[i], sets[i].ctrl, sets[i].slots
      ensures OnlyShard(i) && sets[i].Valid() && sets[i].Contents == old(Parts)[i][k := v]
      ensures inserted == (k !in old(Parts)[i])
    {
      assert ShardOk(i);
      var offset;
      ghost var first;
      offset, inserted, first := sets[i].InsertOrAssign(k, v);
      forall j | 0 <= j < |sets| && j != i ensures OtherUnchanged(sets[j]) {
        assert old(sets[i].Repr() !! sets[j].Repr());
      }
    }

    method InsertIntoSet(i: nat, k: K, v: V) returns (inserted: bool)
      requires SetsOk() && i < |sets|
      modifies `Parts, sets[i], sets[i].ctrl, sets[i].slots
      ensures SetsOk() && KeepsOrRenewsArrays()
      ensures Parts == old(Parts)[i := old(Parts)[i][k := v]] && inserted == (k !in old(Parts)[i])
    {
      assert ShardOk(i);
      inserted := InsertInShard(i, k, v);
      Parts := Parts[i := Parts[i][k := v]];
      StillSeparate(i);
      StillKeepsOrRenews(i);
      OthersStillOk(i);
    }

    method EraseFromSet(i: nat, k: K) returns (erased: nat)
      requires SetsOk() && i < |sets|
      modifies `Parts, sets[i], sets[i].ctrl, sets[i].slots
      ensures SetsOk() && KeepsOrRenewsArrays()
      ensures Parts == old(Parts)[i := old(Parts)[i] - {k}] && erased == if k in old(Parts)[i] then 1 else 0
    {
      assert ShardOk(i);
      ghost var index;
      erased, index := sets[i].Erase(k);
      Parts := Parts[i := Parts[i] - {k}];
      StillSeparate(i);
      StillKeepsOrRenews(i);
      OthersStillOk(i);
    }

    method InsertOrAssign(k: K, v: V) returns (inserted: bool)
      requires Valid()
      modifies this, sets, set i | 0 <= i < |sets| :: sets[i].ctrl, set i | 0 <= i < |sets| :: sets[i].slots
      ensures Valid() && KeepsOrRenewsArrays()
      ensures Contents == old(Contents)[k := v] && inserted == (k !in old(Contents))
    {
      ShardLookup(Parts, hash, Contents, k);
      ShardInsert(Parts, hash, Contents, k, v);
      inserted := InsertIntoSet(Subidx(hash(k), |sets|), k, v);
      Contents := Contents[k := v];
    }

    method Erase(k: K) returns (erased: nat)
      requires Valid()
      modifies this, sets, set i | 0 <= i < |sets| :: sets[i].ctrl, set i | 0 <= i < |sets| :: sets[i].slots
      ensures Valid() && KeepsOrRenewsArrays()
      ensures Contents == old(Contents) - {k} && erased == if k in old(Contents) then 1 else 0
    {
      ShardLookup(Parts, hash, Contents, k);
      ShardErase(Parts, hash, Contents, k);
      erased := EraseFromSet(Subidx(hash(k), |sets|), k);
      Contents := Contents - {k};
    }
  }
}

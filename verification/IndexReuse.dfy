/**
 The block index is a ring that is used again and again. A new block takes the entry of the
 block a whole lap of the ring before it, unless that block's entry has not been cleared yet;
 then, and only then, enqueue asks for a larger index.
 */
module IndexReuse {
  import opened Options
  import opened BlockIndexes
  import opened ImplicitProducers
  import opened ProducerQueue
  import QueueProgress

  // ---------------------------------------------------------------------- invariant

  /** Entry e belongs to block k, which has not been cleared. */
  predicate OwnedBy(stage: seq<Stage>, ent: seq<Entry>, e: Entry, k: nat) {
    k < |stage| && k < |ent| && Uncleared(stage[k]) && ent[k] == e
  }

  ghost predicate Owned(stage: seq<Stage>, ent: seq<Entry>, e: Entry) {
    exists k: nat :: OwnedBy(stage, ent, e, k)
  }

  /** Entry e is the one of the block that the producer is creating. */
  predicate IsBeingSet<T>(p: Producer<T>, e: Entry) {
    (p.SetTail? || p.GetBlock? || p.Rewind? || p.ClearValue? || p.ResetCounter? || p.SetValue?) && p.e == e
  }

  /** The producer may not use this entry. */
  predicate Taken(entry: IndexEntry) {
    entry.key != INVALID_BLOCK_BASE && entry.value.Some?
  }

  ghost predicate HasOwner<T>(s: Store<T>, e: Entry)
    requires e < |s.entries|
  {
    Taken(s.entries[e]) ==> Owned(s.stage, s.ent, e) || IsBeingSet(s.producer, e)
  }

  /** Between its two probes of an entry the producer knows that the key is a valid one. */
  predicate KeyIsKnown<T>(s: Store<T>) {
    s.producer.ProbeValue? ==>
      && |s.headers| > 0 && Current(s).tail < |Current(s).index| && NextEntry(Current(s)) < |s.entries|
      && s.entries[NextEntry(Current(s))].key != INVALID_BLOCK_BASE
  }

  /** No entry is taken for good: it has a block that will give it back. */
  ghost predicate NoEntryIsLost<T>(s: Store<T>) {
    (forall e | 0 <= e < |s.entries| :: HasOwner(s, e)) && KeyIsKnown(s)
  }

  // -------------------------------------------------------------------------- steps

  lemma OwnedStays(stage: seq<Stage>, stage': seq<Stage>, ent: seq<Entry>, ent': seq<Entry>, e: Entry)
    requires Owned(stage, ent, e)
    requires forall k: nat | OwnedBy(stage, ent, e, k) :: OwnedBy(stage', ent', e, k)
    ensures Owned(stage', ent', e)
  {
    var k: nat :| OwnedBy(stage, ent, e, k);
    assert OwnedBy(stage', ent', e, k);
  }

  /** Steps that leave entries and blocks alone. */
  lemma SameEntriesKeep<T>(s: Store<T>, s': Store<T>)
    requires NoEntryIsLost(s) && s'.entries == s.entries && s'.stage == s.stage && s'.ent == s.ent && KeyIsKnown(s')
    requires forall e | IsBeingSet(s.producer, e) :: IsBeingSet(s'.producer, e)
    ensures NoEntryIsLost(s')
  {
    forall e | 0 <= e < |s'.entries| ensures HasOwner(s', e) {
      assert HasOwner(s, e);
    }
  }

  lemma GrownKeeps<T>(s: Store<T>, values: seq<Option<Block>>)
    requires NoEntryIsLost(s) && s.producer.Grow? && |s.headers| > 0 && Current(s).tail < |Current(s).index|
    ensures NoEntryIsLost(Grown(s, values))
  {
    var s' := Grown(s, values);
    forall e | 0 <= e < |s'.entries| ensures HasOwner(s', e) {
      if e < |s.entries| {
        assert HasOwner(s, e);
      }
    }
  }

  lemma SetKeyKeepsOwners<T>(s: Store<T>)
    requires NoEntryIsLost(s) && s.producer.SetKey? && s.producer.e < |s.entries|
    ensures NoEntryIsLost(AfterSetKey(s))
  {
    var s' := AfterSetKey(s);
    forall e | 0 <= e < |s'.entries| ensures HasOwner(s', e) {
      assert HasOwner(s, e);
      if e != s.producer.e && Taken(s.entries[e]) {
        OwnedStays(s.stage, s'.stage, s.ent, s'.ent, e);
      }
    }
  }

  lemma ClearValueKeepsOwners<T>(s: Store<T>)
    requires NoEntryIsLost(s) && s.producer.ClearValue? && s.producer.e < |s.entries|
    ensures NoEntryIsLost(AfterClearValue(s))
  {
    var s' := AfterClearValue(s);
    forall e | 0 <= e < |s'.entries| ensures HasOwner(s', e) {
      assert HasOwner(s, e);
    }
  }

  lemma SetValueKeepsOwners<T>(s: Store<T>)
    requires NoEntryIsLost(s) && s.producer.SetValue? && s.producer.e < |s.entries|
    requires |s.stage| == |s.blk| && IsReserved(s.ent, |s.blk|, s.producer.e)
    ensures NoEntryIsLost(AfterSetValue(s))
  {
    var s' := AfterSetValue(s);
    assert OwnedBy(s'.stage, s'.ent, s.producer.e, |s.blk|);
    forall e | 0 <= e < |s'.entries| ensures HasOwner(s', e) {
      assert HasOwner(s, e);
      if e != s.producer.e && Taken(s.entries[e]) {
        OwnedStays(s.stage, s'.stage, s.ent, s'.ent, e);
      }
    }
  }

  lemma OtherProduceKeepsOwners<T>(s: Store<T>)
    requires NoEntryIsLost(s) && ProducerDefined(s) && !s.producer.Resting?
    requires !s.producer.Grow? && !s.producer.GetBlock?
    requires !s.producer.SetKey? && !s.producer.ClearValue? && !s.producer.SetValue?
    ensures NoEntryIsLost(Produce(s))
  {
    SameEntriesKeep(s, Produce(s));
  }

  lemma ProduceKeepsOwners<T>(s: Store<T>)
    requires ImplicitProducers.Inv(s) && NoEntryIsLost(s) && ProducerDefined(s)
    requires !s.producer.Resting? && !s.producer.Grow? && !s.producer.GetBlock?
    ensures NoEntryIsLost(Produce(s))
  {
    if s.producer.SetKey? {
      SetKeyKeepsOwners(s);
    } else if s.producer.ClearValue? {
      ClearValueKeepsOwners(s);
    } else if s.producer.SetValue? {
      SetValueKeepsOwners(s);
    } else {
      OtherProduceKeepsOwners(s);
    }
  }

  lemma ChoiceKeepsOwners<T(!new)>(s: Store<T>, s': Store<T>)
    requires NoEntryIsLost(s)
    requires BeginStep(s, s') || GetBlockStep(s, s') || (s.producer.Grow? && s' == s.(producer := Resting))
    ensures NoEntryIsLost(s')
  {
    SameEntriesKeep(s, s');
  }

  lemma ProducerKeepsOwners<T(!new)>(s: Store<T>, s': Store<T>)
    requires ImplicitProducers.Inv(s) && NoEntryIsLost(s) && ProducerStep(s, s')
    ensures NoEntryIsLost(s')
  {
    if GrowStep(s, s') && s' != s.(producer := Resting) {
      var values :| |values| == |Current(s).index| && s' == Grown(s, values);
      GrownKeeps(s, values);
    } else if ProduceStep(s, s') {
      ProduceKeepsOwners(s);
    } else {
      ChoiceKeepsOwners(s, s');
    }
  }

  /** A consumer that counts leaves a block uncleared that was. */
  lemma CountKeepsOwners<T>(s: Store<T>, t: Tid)
    requires NoEntryIsLost(s) && t in s.consumers && s.consumers[t].Count? && Defined(s, t)
    ensures NoEntryIsLost(AfterCount(s, t))
  {
    var s' := AfterCount(s, t);
    forall e | 0 <= e < |s'.entries| ensures HasOwner(s', e) {
      assert HasOwner(s, e);
      if Taken(s.entries[e]) && Owned(s.stage, s.ent, e) {
        OwnedStays(s.stage, s'.stage, s.ent, s'.ent, e);
      }
    }
  }

  /** The consumer that clears a block's entry frees just this entry. */
  lemma ClearKeepsOwners<T>(s: Store<T>, t: Tid)
    requires NoEntryIsLost(s) && t in s.consumers && s.consumers[t].Clear? && Defined(s, t)
    requires ConsumerOk(s, t, s.consumers[t])
    ensures NoEntryIsLost(AfterClear(s, t))
  {
    var s' := AfterClear(s, t);
    forall e | 0 <= e < |s'.entries| ensures HasOwner(s', e) {
      assert HasOwner(s, e);
      if e != s.consumers[t].e && Taken(s.entries[e]) && Owned(s.stage, s.ent, e) {
        OwnedStays(s.stage, s'.stage, s.ent, s'.ent, e);
      }
    }
  }

  lemma ReleaseKeepsOwners<T>(s: Store<T>, t: Tid)
    requires NoEntryIsLost(s) && t in s.consumers && s.consumers[t].Release? && Defined(s, t)
    requires ConsumerOk(s, t, s.consumers[t])
    ensures NoEntryIsLost(AfterRelease(s, t))
  {
    var s' := AfterRelease(s, t);
    forall e | 0 <= e < |s'.entries| ensures HasOwner(s', e) {
      assert HasOwner(s, e);
      if Taken(s.entries[e]) && Owned(s.stage, s.ent, e) {
        OwnedStays(s.stage, s'.stage, s.ent, s'.ent, e);
      }
    }
  }

  lemma OtherConsumeKeepsOwners<T>(s: Store<T>, t: Tid)
    requires NoEntryIsLost(s) && t in s.consumers && Defined(s, t)
    requires !s.consumers[t].Count? && !s.consumers[t].Clear? && !s.consumers[t].Release?
    ensures NoEntryIsLost(Consume(s, t))
  {
    SameEntriesKeep(s, Consume(s, t));
  }

  lemma ConsumerKeepsOwners<T>(s: Store<T>, s': Store<T>, t: Tid)
    requires ImplicitProducers.Inv(s) && NoEntryIsLost(s) && ImplicitProducers.ConsumerStep(s, s', t)
    ensures NoEntryIsLost(s')
  {
    assert ConsumerOk(s, t, s.consumers[t]);
    if s.consumers[t].Count? {
      CountKeepsOwners(s, t);
    } else if s.consumers[t].Clear? {
      ClearKeepsOwners(s, t);
    } else if s.consumers[t].Release? {
      ReleaseKeepsOwners(s, t);
    } else {
      OtherConsumeKeepsOwners(s, t);
    }
  }

  lemma ClaimingKeepsOwners<T>(s: State<T>, s': State<T>, t: Tid)
    requires NoEntryIsLost(s.store) && (TicketStep(s, s', t) || ClaimStep(s, s', t))
    ensures NoEntryIsLost(s'.store)
  {
    SameEntriesKeep(s.store, s'.store);
  }

  lemma StepKeepsOwners<T(!new)>(s: State<T>, s': State<T>)
    requires ProducerQueue.Inv(s) && NoEntryIsLost(s.store) && Next(s, s')
    ensures NoEntryIsLost(s'.store)
  {
    if ProducingStep(s, s') {
      ProducerKeepsOwners(s.store, s'.store);
    } else {
      var t :| TicketStep(s, s', t) || ClaimStep(s, s', t) || FetchStep(s, s', t);
      if FetchStep(s, s', t) {
        ConsumerKeepsOwners(s.store, s'.store, t);
      } else {
        ClaimingKeepsOwners(s, s', t);
      }
    }
  }

  lemma InitOwners<T>(s: Store<T>)
    requires ImplicitProducers.Init(s)
    ensures NoEntryIsLost(s)
  {
  }

  lemma {:induction false} OwnersAt<T(!new)>(run: seq<State<T>>, k: nat)
    requires IsRun(run) && k < |run|
    ensures NoEntryIsLost(run[k].store)
  {
    if k > 0 {
      OwnersAt(run, k - 1);
      InvAt(run, k - 1);
      assert StepAt(run, k);
      StepKeepsOwners(run[k - 1], run[k]);
    } else {
      InitOwners(run[0].store);
    }
  }

  // ----------------------------------------------------------------------- theorems

  /** The block a whole lap of the ring before the next one still has its entry. */
  predicate LapIsFull<T>(s: Store<T>)
    requires |s.headers| > 0
  {
    var k := |s.blk| - |Current(s).index|;
    0 <= k < |s.stage| && Uncleared(s.stage[k])
  }

  lemma LapIsForward(at: nat, d: nat, cap: nat)
    requires at < cap && d < cap
    ensures Back(at, d, cap) == Forward(at, cap) <==> d == cap - 1
  {
  }

  /** The next entry of the ring is the one of that block, if it is anybody's. */
  lemma NextIsLapsBack<T>(s: Store<T>, k: nat)
    requires ImplicitProducers.Inv(s) && (s.producer.ProbeKey? || s.producer.ProbeValue?)
    requires k < |s.stage| && k < |s.ent| && Uncleared(s.stage[k])
    ensures Current(s).tail < |Current(s).index|
    ensures s.ent[k] == NextEntry(Current(s)) <==> k == |s.blk| - |Current(s).index|
  {
    var h := Current(s);
    assert HeaderOk(s.stage, s.ent, |s.entries|, h) && h.last == |s.blk| - 1;
    assert Protected(s.stage, k) && IsAt(h.index, s.ent, h.tail, h.last, k);
    LapIsForward(h.tail, h.last - k, |h.index|);
  }

  ghost predicate NextIsLap<T>(s: Store<T>)
    requires ProducerDefined(s) && (s.producer.ProbeKey? || s.producer.ProbeValue?)
  {
    forall k: nat | OwnedBy(s.stage, s.ent, NextEntry(Current(s)), k) :: k == |s.blk| - |Current(s).index|
  }

  lemma TakenIsLapsBack<T>(s: Store<T>)
    requires ProducerDefined(s) && (s.producer.ProbeKey? || s.producer.ProbeValue?) && NextIsLap(s)
    requires HasOwner(s, NextEntry(Current(s))) && Taken(s.entries[NextEntry(Current(s))])
    ensures LapIsFull(s)
  {
    var k: nat :| OwnedBy(s.stage, s.ent, NextEntry(Current(s)), k);
  }

  lemma LapsBackIsTaken<T>(s: Store<T>)
    requires ImplicitProducers.Inv(s) && (s.producer.ProbeKey? || s.producer.ProbeValue?)
    requires ProducerDefined(s) && LapIsFull(s)
    ensures Taken(s.entries[NextEntry(Current(s))])
  {
    var k := |s.blk| - |Current(s).index|;
    NextIsLapsBack(s, k);
    assert Protected(s.stage, k) && s.entries[s.ent[k]].key == BLOCK_SIZE * k;
  }

  lemma TakenExactly<T>(s: Store<T>)
    requires ImplicitProducers.Inv(s) && NoEntryIsLost(s) && (s.producer.ProbeKey? || s.producer.ProbeValue?)
    ensures ProducerDefined(s) && (Taken(s.entries[NextEntry(Current(s))]) <==> LapIsFull(s))
  {
    assert HeaderOk(s.stage, s.ent, |s.entries|, Current(s));
    var e := NextEntry(Current(s));
    assert HasOwner(s, e);
    forall k: nat | OwnedBy(s.stage, s.ent, e, k) ensures k == |s.blk| - |Current(s).index| {
      NextIsLapsBack(s, k);
    }
    if Taken(s.entries[e]) {
      TakenIsLapsBack(s);
    }
    if LapIsFull(s) {
      LapsBackIsTaken(s);
    }
  }

  lemma ProbeGoesOn<T>(s: Store<T>)
    requires ProducerDefined(s) && KeyIsKnown(s) && (s.producer.ProbeKey? || s.producer.ProbeValue?)
    ensures var e := NextEntry(Current(s));
            if !Taken(s.entries[e]) && (s.producer.ProbeValue? || s.entries[e].key == INVALID_BLOCK_BASE)
            then Produce(s).producer == SetKey(s.producer.x, e)
            else Produce(s).producer ==
                 if s.producer.ProbeKey? then ProbeValue(s.producer.x) else Grow(s.producer.x)
  {
  }

  lemma ProbesAre<T(!new)>(s: Store<T>, s': Store<T>)
    requires ProducerStep(s, s') && (s.producer.ProbeKey? || s.producer.ProbeValue?)
    ensures ProducerDefined(s) && s' == Produce(s)
  {
  }

  /**
   In every reachable state, a producer that looks for an entry asks for a larger index if and only if the
   block a whole lap before has not been cleared, and else takes the next entry of the ring.
   */
  lemma GrowsExactly<T(!new)>(run: seq<State<T>>, s': State<T>)
    requires IsRun(run) && ProducingStep(run[|run| - 1], s')
    requires run[|run| - 1].store.producer.ProbeKey? || run[|run| - 1].store.producer.ProbeValue?
    ensures var s := run[|run| - 1].store;
            && |s.headers| > 0 && Current(s).tail < |Current(s).index|
            && (s.producer.ProbeValue? ==> (s'.store.producer == Grow(s.producer.x) <==> LapIsFull(s)))
            && (LapIsFull(s) && s.producer.ProbeKey? ==> s'.store.producer == ProbeValue(s.producer.x))
            && (!LapIsFull(s) && s.producer.ProbeValue? ==>
                  s'.store.producer == SetKey(s.producer.x, NextEntry(Current(s))))
            && !(s.producer.ProbeKey? && s'.store.producer.Grow?)
  {
    InvAt(run, |run| - 1);
    OwnersAt(run, |run| - 1);
    TakenExactly(run[|run| - 1].store);
    ProbeGoesOn(run[|run| - 1].store);
    ProbesAre(run[|run| - 1].store, s'.store);
  }

  lemma GrowFollowsProbe<T(!new)>(s: Store<T>, s': Store<T>)
    requires ProducerStep(s, s') && !s.producer.Grow? && s'.producer.Grow?
    ensures s.producer.ProbeKey? || s.producer.ProbeValue?
  {
  }

  /** And nothing else makes it ask. */
  lemma GrowsOnlyThen<T(!new)>(run: seq<State<T>>, s': State<T>)
    requires IsRun(run) && Next(run[|run| - 1], s')
    requires !run[|run| - 1].store.producer.Grow? && s'.store.producer.Grow?
    ensures var s := run[|run| - 1].store; s.producer.ProbeValue? && |s.headers| > 0 && LapIsFull(s)
  {
    var s := run[|run| - 1];
    if ProducingStep(s, s') {
      GrowFollowsProbe(s.store, s'.store);
      GrowsExactly(run, s');
    } else {
      var t :| TicketStep(s, s', t) || ClaimStep(s, s', t) || FetchStep(s, s', t);
      QueueProgress.ConsumersLeaveProducer(s, s', t);
    }
  }
}

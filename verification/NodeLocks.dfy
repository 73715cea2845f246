/**
 Threads at one node: handlers of PREPARE, COMMIT and ABORT, and readers. A commit
 takes its writes out of `pending_txs` under `pending_mtx`, releases that mutex,
 takes the stripes of its keys exclusively in ascending order, applies its writes
 one by one, and releases the stripes. A reader holds its key's stripe shared.

 A lock is taken when no thread holds it in a way that excludes that.
 */
module NodeLocks {
  import opened Options
  import opened Placement

  type Tid = nat

  const NUM_STRIPES: nat := 256

  /** static_cast<uint32_t>(key) % NUM_STRIPES. */
  function Stripe(key: Key): (s: nat)
    ensures s < NUM_STRIPES
  {
    key % WORD % NUM_STRIPES
  }

  predicate UsesStripe(kvs: seq<KV>, s: nat) {
    exists i :: 0 <= i < |kvs| && Stripe(kvs[i].key) == s
  }

  /** The stripes of the keys, as a std::set lists them. */
  ghost predicate IsStripeList(need: seq<nat>, kvs: seq<KV>) {
    && (forall i, j | 0 <= i < j < |need| :: need[i] < need[j])
    && (forall s: nat :: s in need <==> UsesStripe(kvs, s))
  }

  /** The stripes below `bound` among those of the keys, in order. */
  function StripesBelow(kvs: seq<KV>, bound: nat): seq<nat> {
    if bound == 0 then []
    else StripesBelow(kvs, bound - 1) + (if UsesStripe(kvs, bound - 1) then [bound - 1] else [])
  }

  function Stripes(kvs: seq<KV>): seq<nat> {
    StripesBelow(kvs, NUM_STRIPES)
  }

  lemma {:induction false} StripesBelowOk(kvs: seq<KV>, bound: nat)
    ensures forall i, j | 0 <= i < j < |StripesBelow(kvs, bound)| ::
            StripesBelow(kvs, bound)[i] < StripesBelow(kvs, bound)[j]
    ensures forall s: nat :: s in StripesBelow(kvs, bound) <==> s < bound && UsesStripe(kvs, s)
  {
    if bound > 0 {
      StripesBelowOk(kvs, bound - 1);
      var lower := StripesBelow(kvs, bound - 1);
      forall i | 0 <= i < |lower| ensures lower[i] < bound - 1 {
        assert lower[i] in lower;
      }
    }
  }

  lemma StripesOk(kvs: seq<KV>)
    ensures IsStripeList(Stripes(kvs), kvs)
  {
    StripesBelowOk(kvs, NUM_STRIPES);
  }

  // ------------------------------------------------------------------------- machine

  datatype Thread =
    | WantPending(job: Option<seq<KV>>)                // about to lock pending_mtx; a commit has a job
    | InPending(job: Option<seq<KV>>)                  // holds pending_mtx
    | Acquiring(kvs: seq<KV>, need: seq<nat>, got: nat)  // holds the first `got` stripes
    | Writing(kvs: seq<KV>, need: seq<nat>, done: nat)   // holds all, has applied the first `done` writes
    | Releasing(need: seq<nat>, released: nat)           // holds all but the first `released`
    | WantShared(key: Key)
    | Reading(key: Key)                                // holds the stripe of the key shared
    | Leaving(key: Key, result: Option<Value>)         // has read
    | Finished

  /** `serial` is history: the commits in the order in which they began to write. */
  datatype State = State(table: Table, threads: map<Tid, Thread>, serial: seq<seq<KV>>)

  function Goto(s: State, t: Tid, th: Thread): State {
    s.(threads := s.threads[t := th])
  }

  predicate HoldsExclusive(th: Thread, stripe: nat) {
    match th
    case Acquiring(_, need, got) => got <= |need| && stripe in need[..got]
    case Writing(_, need, _) => stripe in need
    case Releasing(need, released) => released <= |need| && stripe in need[released..]
    case _ => false
  }

  predicate HoldsShared(th: Thread, stripe: nat) {
    (th.Reading? || th.Leaving?) && Stripe(th.key) == stripe
  }

  /** No other thread holds the stripe, or none holds it exclusively. */
  predicate Free(s: State, t: Tid, stripe: nat, exclusive: bool) {
    forall u | u in s.threads && u != t ::
      !HoldsExclusive(s.threads[u], stripe) && (exclusive ==> !HoldsShared(s.threads[u], stripe))
  }

  predicate MutexFree(s: State) {
    forall u | u in s.threads :: !s.threads[u].InPending?
  }

  /** Thread t can make a step. */
  predicate Enabled(s: State, t: Tid)
    requires t in s.threads
  {
    match s.threads[t]
    case WantPending(_) => MutexFree(s)
    case Acquiring(_, need, got) => got < |need| && Free(s, t, need[got], true)
    case WantShared(key) => Free(s, t, Stripe(key), false)
    case Finished => false
    case _ => true
  }

  /** All stripes are held: the writes begin. */
  function StartWriting(s: State, t: Tid, kvs: seq<KV>, need: seq<nat>): State {
    Goto(s, t, Writing(kvs, need, 0)).(serial := s.serial + [kvs])
  }

  function Access(s: State, t: Tid): State
    requires t in s.threads && Enabled(s, t)
  {
    match s.threads[t]
    case WantPending(job) => Goto(s, t, InPending(job))
    case InPending(job) =>
      if job.None? then Goto(s, t, Finished)
      else if Stripes(job.value) == [] then StartWriting(s, t, job.value, [])
      else Goto(s, t, Acquiring(job.value, Stripes(job.value), 0))
    case Acquiring(kvs, need, got) =>
      if got + 1 == |need| then StartWriting(s, t, kvs, need) else Goto(s, t, Acquiring(kvs, need, got + 1))
    case Writing(kvs, need, done) =>
      if done < |kvs| then Goto(s, t, Writing(kvs, need, done + 1)).(table := s.table[kvs[done].key := kvs[done].val])
      else Goto(s, t, Releasing(need, 0))
    case Releasing(need, released) =>
      Goto(s, t, if released < |need| then Releasing(need, released + 1) else Finished)
    case WantShared(key) => Goto(s, t, Reading(key))
    case Reading(key) => Goto(s, t, Leaving(key, Lookup(s.table, key)))
    case Leaving(_, _) => Goto(s, t, Finished)
    case Finished => s
  }

  ghost predicate Step(s: State, s': State, t: Tid) {
    t in s.threads && Enabled(s, t) && s' == Access(s, t)
  }

  ghost predicate Init(s: State) {
    && s.table == map[] && s.serial == []
    && forall t | t in s.threads :: s.threads[t].WantPending? || s.threads[t].WantShared?
  }

  ghost predicate Next(s: State, s': State) {
    exists t :: Step(s, s', t)
  }

  ghost predicate StepAt(run: seq<State>, i: nat)
    requires 0 < i < |run|
  {
    Next(run[i - 1], run[i])
  }

  ghost predicate IsRun(run: seq<State>) {
    && |run| > 0
    && Init(run[0])
    && forall i | 0 < i < |run| :: StepAt(run, i)
  }

  // ---------------------------------------------------------- serial application, versions

  /** The table after the commits, one after the other. */
  function ApplyAll(serial: seq<seq<KV>>): Table {
    if serial == [] then map[] else Replay(serial[|serial| - 1], ApplyAll(serial[..|serial| - 1]))
  }

  /** The number of commits up to and including the last one that writes k; 0 if there is none. */
  function Version(serial: seq<seq<KV>>, k: Key): (v: nat)
    ensures v <= |serial|
    ensures v > 0 ==> Touches(serial[v - 1], k)
  {
    if serial == [] then 0
    else if Touches(serial[|serial| - 1], k) then |serial|
    else Version(serial[..|serial| - 1], k)
  }

  lemma {:induction false} VersionIsLast(serial: seq<seq<KV>>, k: Key, c: nat)
    requires c < |serial| && Touches(serial[c], k)
    ensures Version(serial, k) > c
  {
    if c < |serial| - 1 && !Touches(serial[|serial| - 1], k) {
      VersionIsLast(serial[..|serial| - 1], k, c);
    }
  }

  lemma {:induction false} ValueOfVersion(serial: seq<seq<KV>>, k: Key)
    ensures var v := Version(serial, k);
            Lookup(ApplyAll(serial), k) == if v == 0 then None else Some(LastValue(serial[v - 1], k))
  {
    if serial != [] {
      ValueOfVersion(serial[..|serial| - 1], k);
      ReplayLookup(serial[|serial| - 1], ApplyAll(serial[..|serial| - 1]), k);
    }
  }

  lemma ApplyOneMore(serial: seq<seq<KV>>, kvs: seq<KV>, k: Key)
    ensures Lookup(ApplyAll(serial + [kvs]), k) == if Touches(kvs, k) then Some(LastValue(kvs, k))
            else Lookup(ApplyAll(serial), k)
  {
    assert (serial + [kvs])[..|serial|] == serial;
    ReplayLookup(kvs, ApplyAll(serial), k);
  }

  // ----------------------------------------------------------------------- invariant

  ghost predicate ThreadOk(th: Thread) {
    match th
    case Acquiring(kvs, need, got) => got < |need| && need == Stripes(kvs)
    case Writing(kvs, need, done) => done <= |kvs| && need == Stripes(kvs)
    case Releasing(need, released) => released <= |need|
    case _ => true
  }

  /** The two threads do not hold a stripe together that one of them holds exclusively. */
  ghost predicate Apart(a: Thread, b: Thread) {
    forall stripe: nat | HoldsExclusive(a, stripe) :: !HoldsExclusive(b, stripe) && !HoldsShared(b, stripe)
  }

  ghost predicate Exclusion(s: State) {
    && (forall t, u | t in s.threads && u in s.threads && t != u :: Apart(s.threads[t], s.threads[u]))
    && (forall t, u | t in s.threads && u in s.threads && s.threads[t].InPending? && s.threads[u].InPending? :: t == u)
  }

  /** What k will be when the rest of the writes are done. */
  function Eventually(table: Table, rest: seq<KV>, k: Key): Option<Value> {
    if Touches(rest, k) then Some(LastValue(rest, k)) else Lookup(table, k)
  }

  ghost predicate Unwritten(s: State, k: Key) {
    forall t | t in s.threads && s.threads[t].Writing? :: !HoldsExclusive(s.threads[t], Stripe(k))
  }

  /** Keys that no commit is writing have their serial values; the others will have when the commit is done. */
  ghost predicate TableOk(s: State) {
    && (forall k | Unwritten(s, k) :: Lookup(s.table, k) == Lookup(ApplyAll(s.serial), k))
    && (forall t, k | t in s.threads && s.threads[t].Writing? && s.threads[t].done <= |s.threads[t].kvs|
         && HoldsExclusive(s.threads[t], Stripe(k)) ::
          Eventually(s.table, s.threads[t].kvs[s.threads[t].done..], k) == Lookup(ApplyAll(s.serial), k))
  }

  ghost predicate ThreadsOk(s: State) {
    forall t | t in s.threads :: ThreadOk(s.threads[t])
  }

  ghost predicate Inv(s: State) {
    ThreadsOk(s) && Exclusion(s) && TableOk(s)
  }

  // --------------------------------------------------------------------------- steps

  lemma SetThreadKeeps(s: State, s': State, t: Tid, th: Thread)
    requires ThreadsOk(s) && Exclusion(s) && t in s.threads && s'.threads == s.threads[t := th] && ThreadOk(th)
    requires forall u | u in s.threads && u != t :: Apart(th, s.threads[u]) && Apart(s.threads[u], th)
    requires th.InPending? ==> MutexFree(s)
    ensures ThreadsOk(s') && Exclusion(s')
  {
  }

  /** The thread holds no more than before, or no more than what it was free to take. */
  lemma HoldsLess(s: State, t: Tid, th: Thread)
    requires Exclusion(s) && t in s.threads
    requires forall stripe: nat | HoldsExclusive(th, stripe) ::
               HoldsExclusive(s.threads[t], stripe) || Free(s, t, stripe, true)
    requires forall stripe: nat | HoldsShared(th, stripe) ::
               HoldsShared(s.threads[t], stripe) || Free(s, t, stripe, false)
    ensures forall u | u in s.threads && u != t :: Apart(th, s.threads[u]) && Apart(s.threads[u], th)
  {
    forall u | u in s.threads && u != t ensures Apart(th, s.threads[u]) && Apart(s.threads[u], th) {
      assert Apart(s.threads[t], s.threads[u]) && Apart(s.threads[u], s.threads[t]);
    }
  }

  lemma AcquireTakesOne(need: seq<nat>, got: nat, stripe: nat)
    requires got < |need|
    ensures stripe in need[..got + 1] <==> stripe in need[..got] || stripe == need[got]
  {
    assert need[..got + 1] == need[..got] + [need[got]];
  }

  lemma AcquireKeepsLocks(s: State, t: Tid)
    requires ThreadsOk(s) && Exclusion(s) && t in s.threads && Enabled(s, t) && s.threads[t].Acquiring?
    ensures ThreadsOk(Access(s, t)) && Exclusion(Access(s, t))
  {
    var Acquiring(kvs, need, got) := s.threads[t];
    var th := Access(s, t).threads[t];
    assert ThreadOk(s.threads[t]);
    assert need[..|need|] == need;
    forall stripe: nat | HoldsExclusive(th, stripe) ensures HoldsExclusive(s.threads[t], stripe)
      || Free(s, t, stripe, true) {
      AcquireTakesOne(need, got, stripe);
    }
    HoldsLess(s, t, th);
    SetThreadKeeps(s, Access(s, t), t, th);
  }

  lemma AccessKeepsLocks(s: State, t: Tid)
    requires ThreadsOk(s) && Exclusion(s) && t in s.threads && Enabled(s, t)
    ensures ThreadsOk(Access(s, t)) && Exclusion(Access(s, t))
  {
    var th := Access(s, t).threads[t];
    assert ThreadOk(s.threads[t]);
    if s.threads[t].Acquiring? {
      AcquireKeepsLocks(s, t);
    } else {
      StripesOk(if s.threads[t].InPending? && s.threads[t].job.Some? then s.threads[t].job.value else []);
      forall stripe: nat | HoldsExclusive(th, stripe) ensures HoldsExclusive(s.threads[t], stripe) {
        if s.threads[t].Releasing? && th.Releasing? {
          assert stripe in s.threads[t].need[th.released..];
        }
      }
      HoldsLess(s, t, th);
      SetThreadKeeps(s, Access(s, t), t, th);
    }
  }

  /** A commit writes only keys whose stripes it needs. */
  lemma NeedsItsStripes(kvs: seq<KV>, k: Key)
    requires Touches(kvs, k)
    ensures Stripe(k) in Stripes(kvs)
  {
    StripesOk(kvs);
    var i :| 0 <= i < |kvs| && kvs[i].key == k;
    assert UsesStripe(kvs, Stripe(k));
  }

  /** Steps that write nothing, and neither begin nor end the writes of a commit. */
  lemma QuietKeepsTable(s: State, s': State, t: Tid, th: Thread)
    requires TableOk(s) && t in s.threads && !s.threads[t].Writing? && !th.Writing?
    requires s'.table == s.table && s'.serial == s.serial && s'.threads == s.threads[t := th]
    ensures TableOk(s')
  {
    forall k ensures Unwritten(s', k) <==> Unwritten(s, k) {
      if Unwritten(s', k) {
        forall u | u in s.threads && s.threads[u].Writing? ensures !HoldsExclusive(s.threads[u], Stripe(k)) {
          assert s'.threads[u] == s.threads[u];
        }
      }
    }
  }

  /** A commit begins to write: nobody else is writing its keys. */
  lemma StartKeepsTable(s: State, t: Tid, kvs: seq<KV>)
    requires ThreadsOk(s) && TableOk(s) && t in s.threads && !s.threads[t].Writing?
    requires var s' := StartWriting(s, t, kvs, Stripes(kvs)); Exclusion(s')
    ensures TableOk(StartWriting(s, t, kvs, Stripes(kvs)))
  {
    var need := Stripes(kvs);
    var s' := StartWriting(s, t, kvs, need);
    forall k ensures Lookup(ApplyAll(s'.serial), k) ==
      (if Touches(kvs, k) then Some(LastValue(kvs, k)) else Lookup(ApplyAll(s.serial), k))
      && (Touches(kvs, k) ==> Stripe(k) in need)
    {
      ApplyOneMore(s.serial, kvs, k);
      if Touches(kvs, k) {
        NeedsItsStripes(kvs, k);
      }
    }
    forall k | Unwritten(s', k) || Stripe(k) in need ensures Unwritten(s, k) {
      forall u | u in s.threads && s.threads[u].Writing? ensures !HoldsExclusive(s.threads[u], Stripe(k)) {
        assert u != t && s'.threads[u] == s.threads[u];
        assert Apart(s'.threads[t], s'.threads[u]);
      }
    }
    forall k | Unwritten(s', k) ensures Stripe(k) !in need {
      assert s'.threads[t].Writing?;
    }
    assert kvs[0..] == kvs;
    forall u, k | u in s'.threads && s'.threads[u].Writing? && s'.threads[u].done <= |s'.threads[u].kvs|
      && HoldsExclusive(s'.threads[u], Stripe(k))
      ensures Eventually(s'.table, s'.threads[u].kvs[s'.threads[u].done..], k) == Lookup(ApplyAll(s'.serial), k)
    {
      if u != t {
        assert Apart(s'.threads[u], s'.threads[t]);
        assert Stripe(k) !in need;
      }
    }
  }

  lemma EventuallyAfterWrite(table: Table, kvs: seq<KV>, done: nat, k: Key)
    requires done < |kvs|
    ensures Eventually(table[kvs[done].key := kvs[done].val], kvs[done + 1..], k) == Eventually(table, kvs[done..], k)
  {
    FirstWrite(kvs[done..], k);
    assert kvs[done..][1..] == kvs[done + 1..];
  }

  lemma {:induction false} FirstWrite(kvs: seq<KV>, k: Key)
    requires |kvs| > 0
    ensures Touches(kvs, k) <==> Touches(kvs[1..], k) || kvs[0].key == k
    ensures Touches(kvs[1..], k) ==> LastValue(kvs, k) == LastValue(kvs[1..], k)
    ensures kvs[0].key == k && !Touches(kvs[1..], k) ==> LastValue(kvs, k) == kvs[0].val
    decreases |kvs|
  {
    if |kvs| == 1 {
      assert Touches(kvs, k) <==> kvs[0].key == k;
    } else {
      var front, last := kvs[..|kvs| - 1], kvs[|kvs| - 1];
      FirstWrite(front, k);
      assert front + [last] == kvs && front[1..] + [last] == kvs[1..];
      AppendTouches(front, last, k);
      AppendTouches(front[1..], last, k);
    }
  }

  /** One write. */
  lemma WriteKeepsTable(s: State, t: Tid)
    requires ThreadsOk(s) && Exclusion(s) && TableOk(s) && t in s.threads && s.threads[t].Writing?
    requires s.threads[t].done < |s.threads[t].kvs|
    ensures TableOk(Access(s, t))
  {
    var Writing(kvs, need, done) := s.threads[t];
    assert ThreadOk(s.threads[t]);
    var s' := Access(s, t);
    var written := kvs[done].key;
    assert Touches(kvs, written);
    NeedsItsStripes(kvs, written);
    forall k ensures Unwritten(s', k) ==> Unwritten(s, k) && Stripe(k) !in need {
      if Unwritten(s', k) {
        assert s'.threads[t].Writing?;
        forall u | u in s.threads && s.threads[u].Writing? ensures !HoldsExclusive(s.threads[u], Stripe(k)) {
          assert s'.threads[u].Writing?;
        }
      }
    }
    forall u, k | u in s'.threads && s'.threads[u].Writing? && s'.threads[u].done <= |s'.threads[u].kvs|
      && HoldsExclusive(s'.threads[u], Stripe(k))
      ensures Eventually(s'.table, s'.threads[u].kvs[s'.threads[u].done..], k) == Lookup(ApplyAll(s'.serial), k)
    {
      if u != t {
        assert Apart(s.threads[t], s.threads[u]);
        assert k != written;
      } else {
        EventuallyAfterWrite(s.table, kvs, done, k);
      }
    }
  }

  /** All writes are done. */
  lemma EndKeepsTable(s: State, t: Tid)
    requires ThreadsOk(s) && Exclusion(s) && TableOk(s) && t in s.threads && s.threads[t].Writing?
    requires s.threads[t].done == |s.threads[t].kvs|
    ensures TableOk(Access(s, t))
  {
    var Writing(kvs, need, done) := s.threads[t];
    var s' := Access(s, t);
    assert kvs[done..] == [];
    forall k | Unwritten(s', k) ensures Lookup(s'.table, k) == Lookup(ApplyAll(s'.serial), k) {
      if Stripe(k) in need {
        assert Eventually(s.table, kvs[done..], k) == Lookup(ApplyAll(s.serial), k);
      } else {
        forall u | u in s.threads && s.threads[u].Writing? ensures !HoldsExclusive(s.threads[u], Stripe(k)) {
          assert u != t ==> s'.threads[u] == s.threads[u];
        }
        assert Unwritten(s, k);
      }
    }
  }

  lemma WritingAccessKeepsTable(s: State, t: Tid)
    requires Inv(s) && t in s.threads && s.threads[t].Writing?
    ensures TableOk(Access(s, t))
  {
    assert ThreadOk(s.threads[t]);
    if s.threads[t].done < |s.threads[t].kvs| {
      WriteKeepsTable(s, t);
    } else {
      EndKeepsTable(s, t);
    }
  }

  lemma QuietAccessKeepsTable(s: State, t: Tid)
    requires Inv(s) && t in s.threads && Enabled(s, t) && !s.threads[t].Writing? && !Access(s, t).threads[t].Writing?
    ensures TableOk(Access(s, t))
  {
    QuietKeepsTable(s, Access(s, t), t, Access(s, t).threads[t]);
  }

  lemma AccessKeepsTable(s: State, t: Tid)
    requires Inv(s) && t in s.threads && Enabled(s, t) && Exclusion(Access(s, t))
    ensures TableOk(Access(s, t))
  {
    if s.threads[t].Writing? {
      WritingAccessKeepsTable(s, t);
    } else if Access(s, t).threads[t].Writing? {
      assert ThreadOk(s.threads[t]);
      StartKeepsTable(s, t, Access(s, t).threads[t].kvs);
    } else {
      QuietAccessKeepsTable(s, t);
    }
  }

  lemma StepKeeps(s: State, s': State)
    requires Inv(s) && Next(s, s')
    ensures Inv(s')
  {
    var t :| Step(s, s', t);
    AccessKeepsLocks(s, t);
    AccessKeepsTable(s, t);
  }

  lemma InitHolds(s: State)
    requires Init(s)
    ensures Inv(s)
  {
  }

  lemma {:induction false} InvAt(run: seq<State>, k: nat)
    requires IsRun(run) && k < |run|
    ensures Inv(run[k])
  {
    if k == 0 {
      InitHolds(run[0]);
    } else {
      InvAt(run, k - 1);
      assert StepAt(run, k);
      StepKeeps(run[k - 1], run[k]);
    }
  }

  // --------------------------------------------------------------- theorems: visibility

  /** What a reader reads is the value of the commits that have begun to write, applied one after the other. */
  lemma ReadIsSerial(run: seq<State>, s': State, t: Tid)
    requires IsRun(run) && Step(run[|run| - 1], s', t) && run[|run| - 1].threads[t].Reading?
    ensures var s := run[|run| - 1]; var k := s.threads[t].key; var v := Version(s.serial, k);
            && s'.threads[t] == Leaving(k, Lookup(ApplyAll(s.serial), k))
            && s'.threads[t].result == if v == 0 then None else Some(LastValue(s.serial[v - 1], k))
  {
    InvAt(run, |run| - 1);
    ReadingSeesSerial(run[|run| - 1], t);
    ValueOfVersion(run[|run| - 1].serial, run[|run| - 1].threads[t].key);
  }

  lemma ReadingSeesSerial(s: State, t: Tid)
    requires Inv(s) && t in s.threads && s.threads[t].Reading?
    ensures Lookup(s.table, s.threads[t].key) == Lookup(ApplyAll(s.serial), s.threads[t].key)
  {
    var k := s.threads[t].key;
    forall u | u in s.threads && s.threads[u].Writing? ensures !HoldsExclusive(s.threads[u], Stripe(k)) {
      assert Apart(s.threads[u], s.threads[t]);
    }
    assert Unwritten(s, k);
  }

  lemma {:induction false} SerialGrows(run: seq<State>, i: nat, j: nat)
    requires IsRun(run) && i <= j < |run|
    ensures run[i].serial <= run[j].serial
    decreases j - i
  {
    if i < j {
      SerialGrows(run, i, j - 1);
      assert StepAt(run, j);
    }
  }

  /**
   Once a reader sees a commit's write, or a newer one, every later read of any key of that commit
   sees that commit's write or a newer one.
   */
  lemma AtomicVisibility(run: seq<State>, i: nat, j: nat, t: Tid, u: Tid)
    requires IsRun(run) && i <= j < |run|
    requires t in run[i].threads && run[i].threads[t].Reading? && u in run[j].threads && run[j].threads[u].Reading?
    requires var v := Version(run[i].serial, run[i].threads[t].key);
             v > 0 && Touches(run[i].serial[v - 1], run[j].threads[u].key)
    ensures var v, w := Version(run[i].serial, run[i].threads[t].key), Version(run[j].serial, run[j].threads[u].key);
            && v <= w
            && Lookup(run[i].table, run[i].threads[t].key) ==
                 Some(LastValue(run[i].serial[v - 1], run[i].threads[t].key))
            && Lookup(run[j].table, run[j].threads[u].key) ==
                 Some(LastValue(run[j].serial[w - 1], run[j].threads[u].key))
  {
    InvAt(run, i);
    InvAt(run, j);
    SerialGrows(run, i, j);
    ReadingSeesSerial(run[i], t);
    ReadingSeesSerial(run[j], u);
    ValueOfVersion(run[i].serial, run[i].threads[t].key);
    ValueOfVersion(run[j].serial, run[j].threads[u].key);
    VersionIsLast(run[j].serial, run[j].threads[u].key, Version(run[i].serial, run[i].threads[t].key) - 1);
  }

  // ----------------------------------------------------------------- theorems: progress

  /** The stripe a waiting thread wants. */
  predicate Waits(th: Thread) {
    (th.Acquiring? && th.got < |th.need|) || th.WantShared?
  }

  function Wanted(th: Thread): (stripe: nat)
    requires Waits(th)
  {
    if th.Acquiring? then th.need[th.got] else Stripe(th.key)
  }

  /** Following the holders of wanted stripes upwards ends at a thread that can make a step. */
  lemma {:induction false} FollowHolders(s: State, t: Tid) returns (u: Tid)
    requires Inv(s) && t in s.threads && Waits(s.threads[t])
    ensures u in s.threads && Enabled(s, u)
    decreases NUM_STRIPES - Wanted(s.threads[t])
  {
    assert ThreadOk(s.threads[t]);
    WantedIsStripe(s.threads[t]);
    if Enabled(s, t) {
      u := t;
    } else {
      var w := Wanted(s.threads[t]);
      u :| u in s.threads && u != t && (HoldsExclusive(s.threads[u], w) || HoldsShared(s.threads[u], w));
      assert ThreadOk(s.threads[u]);
      if s.threads[u].Acquiring? {
        HoldsBelowWanted(s.threads[u], w);
        WantedIsStripe(s.threads[u]);
        u := FollowHolders(s, u);
      }
    }
  }

  lemma WantedIsStripe(th: Thread)
    requires ThreadOk(th) && Waits(th)
    ensures Wanted(th) < NUM_STRIPES
  {
    if th.Acquiring? {
      StripesBelowOk(th.kvs, NUM_STRIPES);
      assert th.need[th.got] in th.need;
    }
  }

  /** Stripes are taken in ascending order. */
  lemma HoldsBelowWanted(th: Thread, w: nat)
    requires ThreadOk(th) && th.Acquiring? && HoldsExclusive(th, w)
    ensures w < th.need[th.got]
  {
    StripesOk(th.kvs);
    var i :| 0 <= i < th.got && th.need[i] == w;
    assert th.need[i] < th.need[th.got];
  }

  /** No deadlock: while some thread has not finished, some thread can make a step. */
  lemma NoDeadlock(run: seq<State>, t: Tid) returns (u: Tid)
    requires IsRun(run) && t in run[|run| - 1].threads && !run[|run| - 1].threads[t].Finished?
    ensures u in run[|run| - 1].threads && Enabled(run[|run| - 1], u)
  {
    InvAt(run, |run| - 1);
    var s := run[|run| - 1];
    assert ThreadOk(s.threads[t]);
    if Waits(s.threads[t]) {
      u := FollowHolders(s, t);
    } else if s.threads[t].WantPending? && !MutexFree(s) {
      u :| u in s.threads && s.threads[u].InPending?;
    } else {
      u := t;
    }
  }

  /** The steps a thread has left. */
  function Left(th: Thread): nat {
    match th
    case Finished => 0
    case Leaving(_, _) => 1
    case Reading(_) => 2
    case WantShared(_) => 3
    case Releasing(need, released) => 1 + (if released < |need| then |need| - released else 0)
    case Writing(kvs, need, done) => 2 + |need| + (if done < |kvs| then |kvs| - done else 0)
    case Acquiring(kvs, need, got) => 2 + |need| + |kvs| + (if got < |need| then |need| - got else 0)
    case InPending(job) => if job.None? then 1 else 3 + |job.value| + 2 * |Stripes(job.value)|
    case WantPending(job) => if job.None? then 2 else 4 + |job.value| + 2 * |Stripes(job.value)|
  }

  ghost function Total(threads: map<Tid, Thread>): nat
    decreases |threads|
  {
    if threads == map[] then 0
    else
      var t :| t in threads;
      Left(threads[t]) + Total(threads - {t})
  }

  lemma {:induction false} TotalAt(threads: map<Tid, Thread>, t: Tid)
    requires t in threads
    ensures Total(threads) == Left(threads[t]) + Total(threads - {t})
    decreases |threads|
  {
    var u :| u in threads && Total(threads) == Left(threads[u]) + Total(threads - {u});
    if u != t {
      TotalAt(threads - {u}, t);
      TotalAt(threads - {t}, u);
      assert threads - {u} - {t} == threads - {t} - {u};
    }
  }

  /** A step moves one thread, which then has one step less left. */
  lemma ThreadCountsDown(s: State, t: Tid)
    requires t in s.threads && ThreadOk(s.threads[t]) && Enabled(s, t)
    ensures t in Access(s, t).threads && Access(s, t).threads == s.threads[t := Access(s, t).threads[t]]
    ensures Left(Access(s, t).threads[t]) + 1 == Left(s.threads[t])
  {
  }

  /** Every step is one of those left. */
  lemma StepCountsDown(s: State, t: Tid)
    requires t in s.threads && ThreadOk(s.threads[t]) && Enabled(s, t)
    ensures Total(Access(s, t).threads) + 1 == Total(s.threads)
  {
    ThreadCountsDown(s, t);
    var th := Access(s, t).threads[t];
    assert s.threads[t := th] - {t} == s.threads - {t};
    TotalAt(s.threads, t);
    TotalAt(s.threads[t := th], t);
  }

  /** A run has as many steps as its threads have in all, and no more. */
  lemma {:induction false} RunsEnd(run: seq<State>, k: nat)
    requires IsRun(run) && k < |run|
    ensures k + Total(run[k].threads) == Total(run[0].threads)
  {
    if k > 0 {
      RunsEnd(run, k - 1);
      InvAt(run, k - 1);
      assert StepAt(run, k);
      var t :| Step(run[k - 1], run[k], t);
      assert ThreadOk(run[k - 1].threads[t]);
      StepCountsDown(run[k - 1], t);
    }
  }

  // -------------------------------------------------------------- theorems: completion

  /** Every stripe is some key's. */
  lemma StripeReachesAll(stripe: nat)
    requires stripe < NUM_STRIPES
    ensures Stripe(stripe) == stripe
  {
  }

  /** What a thread that was first at its beginning is at later. */
  ghost predicate Follows(first: Thread, th: Thread) {
    match first
    case WantPending(job) =>
      || th == WantPending(job) || th == InPending(job) || th.Finished? || (job.Some? && th.Releasing?)
      || (th.Acquiring? && Some(th.kvs) == job) || (th.Writing? && Some(th.kvs) == job)
    case WantShared(key) => th == WantShared(key) || th == Reading(key) || (th.Leaving? && th.key == key)
      || th.Finished?
    case _ => false
  }

  lemma AccessFollows(s: State, t: Tid, first: Thread)
    requires t in s.threads && Enabled(s, t) && Follows(first, s.threads[t])
    ensures t in Access(s, t).threads && Follows(first, Access(s, t).threads[t])
    ensures Access(s, t).threads == s.threads[t := Access(s, t).threads[t]]
  {
  }

  ghost predicate AllFollow(first: State, s: State) {
    s.threads.Keys == first.threads.Keys && forall t | t in s.threads :: Follows(first.threads[t], s.threads[t])
  }

  lemma {:induction false} FollowAt(run: seq<State>, k: nat)
    requires IsRun(run) && k < |run|
    ensures AllFollow(run[0], run[k])
  {
    if k > 0 {
      FollowAt(run, k - 1);
      var t := StepsAt(run, k);
      AccessFollows(run[k - 1], t, run[0].threads[t]);
    }
  }

  lemma StepsAt(run: seq<State>, k: nat) returns (t: Tid)
    requires IsRun(run) && 0 < k < |run|
    ensures Step(run[k - 1], run[k], t)
  {
    assert StepAt(run, k);
    t :| Step(run[k - 1], run[k], t);
  }

  /** The thread is a commit, and has begun to write or is past it. */
  ghost predicate HasBegun(first: State, s: State, t: Tid) {
    && t in first.threads && first.threads[t].WantPending? && first.threads[t].job.Some?
    && t in s.threads && (s.threads[t].Writing? || s.threads[t].Releasing? || s.threads[t].Finished?)
  }

  ghost predicate NoTwice(order: seq<Tid>) {
    forall i, j | 0 <= i < j < |order| :: order[i] != order[j]
  }

  /** The commits of the serial history are those of the threads in order, which are the threads that have begun. */
  ghost predicate IsHistory(first: State, s: State, order: seq<Tid>) {
    && |order| == |s.serial| && NoTwice(order)
    && (forall i | 0 <= i < |order| ::
          order[i] in first.threads && first.threads[order[i]] == WantPending(Some(s.serial[i])))
    && (forall t :: t in order <==> HasBegun(first, s, t))
  }

  /** A step begins one commit, that of its thread, or none. */
  lemma StepBegins(first: State, s: State, t: Tid)
    requires t in s.threads && Enabled(s, t) && AllFollow(first, s) && t in first.threads
    ensures var s' := Access(s, t);
            if !HasBegun(first, s, t) && HasBegun(first, s', t)
            then s'.serial == s.serial + [first.threads[t].job.value]
            else s'.serial == s.serial && (HasBegun(first, s', t) <==> HasBegun(first, s, t))
    ensures forall u | u != t :: HasBegun(first, Access(s, t), u) <==> HasBegun(first, s, u)
  {
    assert Follows(first.threads[t], s.threads[t]);
  }

  lemma HistoryStep(first: State, s: State, t: Tid, order: seq<Tid>) returns (order': seq<Tid>)
    requires IsHistory(first, s, order) && t in s.threads && Enabled(s, t) && AllFollow(first, s)
    ensures IsHistory(first, Access(s, t), order')
  {
    StepBegins(first, s, t);
    if !HasBegun(first, s, t) && HasBegun(first, Access(s, t), t) {
      order' := order + [t];
    } else {
      order' := order;
    }
  }

  /** At every moment the serial history consists of the commits that have begun to write, each once. */
  lemma {:induction false} SerialIsHistory(run: seq<State>, k: nat) returns (order: seq<Tid>)
    requires IsRun(run) && k < |run|
    ensures IsHistory(run[0], run[k], order)
  {
    if k == 0 {
      order := [];
    } else {
      order := SerialIsHistory(run, k - 1);
      FollowAt(run, k - 1);
      var t := StepsAt(run, k);
      order := HistoryStep(run[0], run[k - 1], t, order);
    }
  }

  predicate AllFinished(s: State) {
    forall t | t in s.threads :: s.threads[t].Finished?
  }

  /**
   When all threads have finished, every commit has been applied, whole and once: the table is the
   application of all the commits, one after the other in some order.
   */
  lemma AllCommitsAreApplied(run: seq<State>) returns (order: seq<Tid>)
    requires IsRun(run) && AllFinished(run[|run| - 1])
    ensures var first, s := run[0], run[|run| - 1];
            && s.table == ApplyAll(s.serial) && |order| == |s.serial| && NoTwice(order)
            && (forall i | 0 <= i < |order| ::
                  order[i] in first.threads && first.threads[order[i]] == WantPending(Some(s.serial[i])))
            && forall t | t in first.threads && first.threads[t].WantPending?
            && first.threads[t].job.Some? :: t in order
  {
    var s := run[|run| - 1];
    InvAt(run, |run| - 1);
    FollowAt(run, |run| - 1);
    order := SerialIsHistory(run, |run| - 1);
    QuietTableIsSerial(s);
  }

  lemma SameTable(a: Table, b: Table)
    requires forall k :: Lookup(a, k) == Lookup(b, k)
    ensures a == b
  {
    forall k ensures k in a <==> k in b {
      assert Lookup(a, k) == Lookup(b, k);
    }
    forall k | k in a ensures a[k] == b[k] {
      assert Lookup(a, k) == Lookup(b, k);
    }
  }

  lemma QuietTableIsSerial(s: State)
    requires TableOk(s) && forall t | t in s.threads :: !s.threads[t].Writing?
    ensures s.table == ApplyAll(s.serial)
  {
    forall k ensures Lookup(s.table, k) == Lookup(ApplyAll(s.serial), k) {
      assert Unwritten(s, k);
    }
    SameTable(s.table, ApplyAll(s.serial));
  }

  /** At state j the thread has read its key. */
  ghost predicate HasReadAt(run: seq<State>, j: nat, t: Tid, key: Key) {
    && j + 1 < |run| && t in run[j].threads && run[j].threads[t] == Reading(key)
    && t in run[j + 1].threads && run[j + 1].threads[t] == Leaving(key, Lookup(run[j].table, key))
  }

  lemma ReadsWhenLeaving(s: State, u: Tid, t: Tid, key: Key)
    requires u in s.threads && Enabled(s, u) && t in s.threads && Follows(WantShared(key), s.threads[t])
    requires var th := Access(s, u).threads[t]; th.Leaving? || th.Finished?
    ensures s.threads[t].Leaving? || s.threads[t].Finished?
            || (s.threads[t] == Reading(key) && Access(s, u).threads[t] == Leaving(key, Lookup(s.table, key)))
  {
  }

  /** A reader that has finished has read. */
  lemma {:induction false} FinishedReaderHasRead(run: seq<State>, k: nat, t: Tid, key: Key) returns (j: nat)
    requires IsRun(run) && k < |run| && t in run[0].threads && run[0].threads[t] == WantShared(key)
    requires t in run[k].threads && (run[k].threads[t].Leaving? || run[k].threads[t].Finished?)
    ensures j < k && HasReadAt(run, j, t, key)
  {
    if k > 0 {
      FollowAt(run, k - 1);
      var u := StepsAt(run, k);
      ReadsWhenLeaving(run[k - 1], u, t, key);
      if run[k - 1].threads[t].Leaving? || run[k - 1].threads[t].Finished? {
        j := FinishedReaderHasRead(run, k - 1, t, key);
      } else {
        j := k - 1;
      }
    }
  }
}

/**
 The ticket protocol of ImplicitProducer::dequeue. Any number of consumers take
 tickets from `dequeueOptimisticCount` on the strength of a value of
 `dequeueOvercommit` that may be stale, and hand a ticket that turns out to be
 too high back through `dequeueOvercommit`.

 Counters are mathematical integers; the 64-bit comparisons of the source are
 made on their values modulo 2^64, under the hypothesis (in the steps that
 compare) that the two sides are less than 2^63 apart.
 */
module Tickets {
  import opened Counting

  type Tid = nat

  const WRAP: nat := 0x1_0000_0000_0000_0000
  const HALF: nat := 0x8000_0000_0000_0000

  function Wrap(x: int): nat {
    x % WRAP
  }

  /** circular_less_than on 64-bit words. */
  predicate CircularLess(a: nat, b: nat) {
    Wrap(a - b) > HALF
  }

  predicate Close(a: int, b: int) {
    0 - HALF < a - b < HALF
  }

  /** For counters less than 2^63 apart the wrapped comparison is the comparison of the counters. */
  lemma CircularLessIsLess(a: int, b: int)
    requires Close(a, b)
    ensures CircularLess(Wrap(a), Wrap(b)) <==> a < b
  {
    var d := Wrap(a) - Wrap(b);
    assert exists k: int :: a - b == d + WRAP * k by {
      assert a - b == d + WRAP * (a / WRAP - b / WRAP);
    }
  }

  // ------------------------------------------------------------------------ machine

  /** The fate of a ticket: history, which no step reads. */
  datatype Fate =
    | Pending   // taken, not yet checked against the tail
    | Passed    // checked: its consumer is about to claim an index
    | Claimed   // an index has been claimed
    | Failing   // refused: its consumer is about to give it back
    | Failed    // given back

  datatype Pc =
    | Out                                                  // not in dequeue, or past its claim
    | LoadTail                                             // load tailIndex
    | LoadOvercommit(tail: nat)                            // load dequeueOvercommit
    | LoadCount(tail: nat, overcommit: nat)                // load dequeueOptimisticCount, first test
    | Take(overcommit: nat)                                // take a ticket
    | Recheck(overcommit: nat, ticket: nat)                // load tailIndex again, second test
    | Claim(ticket: nat)                                   // take an index from headIndex
    | GiveBack(ticket: nat)                                // add one to dequeueOvercommit

  datatype State = State(tail: nat, head: nat, count: nat, overcommit: nat, threads: map<Tid, Pc>, fates: seq<Fate>)

  function Goto(s: State, t: Tid, pc: Pc): State {
    s.(threads := s.threads[t := pc])
  }

  /** dequeueOptimisticCount - overcommit < tail, as the source computes it. */
  predicate Below(count: int, overcommit: int, tail: int) {
    CircularLess(Wrap(count - overcommit), Wrap(tail))
  }

  /** The counters a step compares are close enough for the wrapped comparison. */
  predicate Comparable(s: State, t: Tid)
    requires t in s.threads
  {
    match s.threads[t]
    case LoadCount(tail, overcommit) => Close(s.count - overcommit, tail)
    case Recheck(overcommit, ticket) => Close(ticket - overcommit, s.tail)
    case _ => true
  }

  predicate TicketKnown(s: State, pc: Pc) {
    pc.Recheck? || pc.Claim? || pc.GiveBack? ==> pc.ticket < |s.fates|
  }

  /** One atomic access of consumer t. */
  function Access(s: State, t: Tid): State
    requires t in s.threads && TicketKnown(s, s.threads[t])
  {
    match s.threads[t]
    case Out => Goto(s, t, LoadTail)
    case LoadTail => Goto(s, t, LoadOvercommit(s.tail))
    case LoadOvercommit(tail) => Goto(s, t, LoadCount(tail, s.overcommit))
    case LoadCount(tail, overcommit) =>
      Goto(s, t, if Below(s.count, overcommit, tail) then Take(overcommit) else Out)
    case Take(overcommit) =>
      Goto(s, t, Recheck(overcommit, s.count)).(count := s.count + 1, fates := s.fates + [Pending])
    case Recheck(overcommit, ticket) =>
      if Below(ticket, overcommit, s.tail)
      then Goto(s, t, Claim(ticket)).(fates := s.fates[ticket := Passed])
      else Goto(s, t, GiveBack(ticket)).(fates := s.fates[ticket := Failing])
    case Claim(ticket) =>
      Goto(s, t, Out).(head := s.head + 1, fates := s.fates[ticket := Claimed])
    case GiveBack(ticket) =>
      Goto(s, t, Out).(overcommit := s.overcommit + 1, fates := s.fates[ticket := Failed])
  }

  /** The producer publishes one more element. */
  function Publish(s: State): State {
    s.(tail := s.tail + 1)
  }

  ghost predicate ConsumerStep(s: State, s': State, t: Tid) {
    t in s.threads && TicketKnown(s, s.threads[t]) && Comparable(s, t) && s' == Access(s, t)
  }

  ghost predicate Next(s: State, s': State) {
    s' == Publish(s) || exists t :: ConsumerStep(s, s', t)
  }

  ghost predicate Init(s: State) {
    && s.tail == s.head == s.count == s.overcommit == 0 && s.fates == []
    && forall t | t in s.threads :: s.threads[t] == Out
  }

  ghost predicate StepAt(run: seq<State>, i: nat)
    requires 0 < i < |run|
  {
    Next(run[i - 1], run[i])
  }

  ghost predicate IsRun(run: seq<State>) {
    && |run| > 0
    && Init(run[0])
    && forall i | 0 < i < |run| :: StepAt(run, i)
  }

  /** The number of tickets below p that have been given back. */
  function FailedBelow(f: seq<Fate>, p: nat): nat
    requires p <= |f|
  {
    Count(f[..p], Failed)
  }

  /** Changing the fate of ticket i to something else than given back leaves the lower counts alone or raises them. */
  lemma FailedBelowUpdate(f: seq<Fate>, i: nat, c: Fate, p: nat)
    requires i < |f| && p <= |f| && f[i] != Failed
    ensures FailedBelow(f[i := c], p) >= FailedBelow(f, p)
  {
    if i < p {
      assert f[i := c][..p] == f[..p][i := c];
      CountUpdate(f[..p], i, c, Failed);
    } else {
      assert f[i := c][..p] == f[..p];
    }
  }

  lemma FailedBelowAppend(f: seq<Fate>, c: Fate, p: nat)
    requires p <= |f|
    ensures FailedBelow(f + [c], p) == FailedBelow(f, p)
  {
    assert (f + [c])[..p] == f[..p];
  }

  // ---------------------------------------------------------------------- invariant

  predicate Won(c: Fate) {
    c == Passed || c == Claimed
  }

  /** A ticket that passed was, not counting the lower tickets that were given back, below the tail. */
  ghost predicate WinnersBelowTail(f: seq<Fate>, tail: nat) {
    forall p | 0 <= p < |f| && Won(f[p]) :: p + 1 <= tail + FailedBelow(f, p)
  }

  predicate HasTicket(pc: Pc) {
    pc.Recheck? || pc.Claim? || pc.GiveBack?
  }

  ghost predicate ThreadOk(s: State, pc: Pc) {
    && (pc.LoadCount? || pc.Take? ==> pc.overcommit <= s.overcommit)
    && (HasTicket(pc) ==> pc.ticket < |s.fates|)
    && (pc.Recheck? ==> s.fates[pc.ticket] == Pending && pc.overcommit <= FailedBelow(s.fates, pc.ticket))
    && (pc.Claim? ==> s.fates[pc.ticket] == Passed)
    && (pc.GiveBack? ==> s.fates[pc.ticket] == Failing)
  }

  ghost predicate Inv(s: State) {
    && |s.fates| == s.count
    && s.overcommit == Count(s.fates, Failed)
    && s.head == Count(s.fates, Claimed)
    && WinnersBelowTail(s.fates, s.tail)
    && (forall t | t in s.threads :: ThreadOk(s, s.threads[t]))
    && (forall t, u | t in s.threads && u in s.threads && t != u && HasTicket(s.threads[t])
         && HasTicket(s.threads[u]) ::
          s.threads[t].ticket != s.threads[u].ticket)
  }

  /** No more tickets have won than elements were enqueued. */
  lemma {:induction false} WinnersFit(f: seq<Fate>, tail: nat)
    requires WinnersBelowTail(f, tail)
    ensures Count(f, Passed) + Count(f, Claimed) <= tail
  {
    if |f| > 0 {
      var n := |f| - 1;
      if Won(f[n]) {
        CountsFit(f);
        CountAppend(f[..n], f[n], Failed);
        assert f[..n] + [f[n]] == f;
      } else {
        forall p | 0 <= p < n && Won(f[..n][p]) ensures p + 1 <= tail + FailedBelow(f[..n], p) {
          assert f[..n][..p] == f[..p];
        }
        WinnersFit(f[..n], tail);
      }
    }
  }

  lemma {:induction false} CountsFit(f: seq<Fate>)
    ensures Count(f, Passed) + Count(f, Claimed) + Count(f, Failed) <= |f|
  {
    if |f| > 0 {
      CountsFit(f[..|f| - 1]);
    }
  }

  // -------------------------------------------------------------------------- steps

  /** Steps that change the fate of no ticket. */
  lemma PcStepKeeps(s: State, t: Tid, pc: Pc)
    requires Inv(s) && t in s.threads && ThreadOk(s, pc)
    requires HasTicket(pc) ==> HasTicket(s.threads[t]) && s.threads[t].ticket == pc.ticket
    ensures Inv(Goto(s, t, pc))
  {
  }

  lemma PublishKeeps(s: State)
    requires Inv(s)
    ensures Inv(Publish(s))
  {
    forall t | t in s.threads ensures ThreadOk(Publish(s), s.threads[t]) {
      assert ThreadOk(s, s.threads[t]);
    }
  }

  /** A new ticket: everything given back so far, which is at least what its taker has read, is below it. */
  lemma TakeKeeps(s: State, t: Tid, overcommit: nat)
    requires Inv(s) && t in s.threads && s.threads[t] == Take(overcommit)
    ensures Inv(Goto(s, t, Recheck(overcommit, s.count)).(count := s.count + 1, fates := s.fates + [Pending]))
  {
    var s' := Goto(s, t, Recheck(overcommit, s.count)).(count := s.count + 1, fates := s.fates + [Pending]);
    CountAppend(s.fates, Pending, Failed);
    CountAppend(s.fates, Pending, Claimed);
    assert s'.fates[..s.count] == s.fates;
    forall p | 0 <= p < |s'.fates| && Won(s'.fates[p]) ensures p + 1 <= s.tail + FailedBelow(s'.fates, p) {
      FailedBelowAppend(s.fates, Pending, p);
    }
    forall u | u in s'.threads ensures ThreadOk(s', s'.threads[u]) {
      if u != t {
        assert ThreadOk(s, s.threads[u]);
        if s.threads[u].Recheck? {
          FailedBelowAppend(s.fates, Pending, s.threads[u].ticket);
        }
      }
    }
  }

  /** The holder of a ticket decides its fate. */
  lemma DecideKeeps(s: State, s': State, t: Tid, i: nat, c: Fate, pc: Pc)
    requires Inv(s) && t in s.threads && HasTicket(s.threads[t]) && s.threads[t].ticket == i && s.fates[i] != Failed
    requires s.fates[i] != Claimed
    requires s'.threads == s.threads[t := pc] && s'.fates == s.fates[i := c] && s'.tail == s.tail && s'.count == s.count
    requires s'.overcommit == s.overcommit + (if c == Failed then 1 else 0)
    requires s'.head == s.head + (if c == Claimed then 1 else 0)
    requires ThreadOk(s', pc) && (HasTicket(pc) ==> pc.ticket == i)
    requires Won(c) ==> i + 1 <= s.tail + FailedBelow(s.fates, i)
    ensures Inv(s')
  {
    CountUpdate(s.fates, i, c, Failed);
    CountUpdate(s.fates, i, c, Claimed);
    forall p | 0 <= p < |s'.fates| && Won(s'.fates[p]) ensures p + 1 <= s.tail + FailedBelow(s'.fates, p) {
      FailedBelowUpdate(s.fates, i, c, p);
    }
    forall u | u in s'.threads ensures ThreadOk(s', s'.threads[u]) {
      if u != t {
        assert ThreadOk(s, s.threads[u]);
        if HasTicket(s.threads[u]) {
          FailedBelowUpdate(s.fates, i, c, s.threads[u].ticket);
        }
      }
    }
  }

  /** A ticket that passes the second test is below the tail, once the lower tickets given back are discounted. */
  lemma RecheckKeeps(s: State, t: Tid, overcommit: nat, ticket: nat)
    requires Inv(s) && t in s.threads && s.threads[t] == Recheck(overcommit, ticket) && Comparable(s, t)
    ensures ticket < |s.fates|
    ensures Inv(if Below(ticket, overcommit, s.tail) then Goto(s, t, Claim(ticket)).(fates := s.fates[ticket := Passed])
                else Goto(s, t, GiveBack(ticket)).(fates := s.fates[ticket := Failing]))
  {
    assert ThreadOk(s, s.threads[t]);
    CircularLessIsLess(ticket - overcommit, s.tail);
    if Below(ticket, overcommit, s.tail) {
      DecideKeeps(s, Goto(s, t, Claim(ticket)).(fates := s.fates[ticket := Passed]), t, ticket, Passed, Claim(ticket));
    } else {
      DecideKeeps(s, Goto(s, t, GiveBack(ticket)).(fates := s.fates[ticket := Failing]), t, ticket, Failing,
        GiveBack(ticket));
    }
  }

  lemma ClaimKeeps(s: State, t: Tid, ticket: nat)
    requires Inv(s) && t in s.threads && s.threads[t] == Claim(ticket)
    ensures ticket < |s.fates| && Inv(Goto(s, t, Out).(head := s.head + 1, fates := s.fates[ticket := Claimed]))
  {
    assert ThreadOk(s, s.threads[t]);
    DecideKeeps(s, Goto(s, t, Out).(head := s.head + 1, fates := s.fates[ticket := Claimed]), t, ticket, Claimed, Out);
  }

  lemma GiveBackKeeps(s: State, t: Tid, ticket: nat)
    requires Inv(s) && t in s.threads && s.threads[t] == GiveBack(ticket)
    ensures ticket < |s.fates|
    ensures Inv(Goto(s, t, Out).(overcommit := s.overcommit + 1, fates := s.fates[ticket := Failed]))
  {
    assert ThreadOk(s, s.threads[t]);
    DecideKeeps(s, Goto(s, t, Out).(overcommit := s.overcommit + 1, fates := s.fates[ticket := Failed]), t, ticket,
      Failed, Out);
  }

  lemma ConsumerStepKeeps(s: State, t: Tid)
    requires Inv(s) && t in s.threads && TicketKnown(s, s.threads[t]) && Comparable(s, t)
    ensures Inv(Access(s, t))
  {
    assert ThreadOk(s, s.threads[t]);
    match s.threads[t] {
      case Out => PcStepKeeps(s, t, LoadTail);
      case LoadTail => PcStepKeeps(s, t, LoadOvercommit(s.tail));
      case LoadOvercommit(tail) => PcStepKeeps(s, t, LoadCount(tail, s.overcommit));
      case LoadCount(tail, overcommit) =>
        PcStepKeeps(s, t, if Below(s.count, overcommit, tail) then Take(overcommit) else Out);
      case Take(overcommit) => TakeKeeps(s, t, overcommit);
      case Recheck(overcommit, ticket) => RecheckKeeps(s, t, overcommit, ticket);
      case Claim(ticket) => ClaimKeeps(s, t, ticket);
      case GiveBack(ticket) => GiveBackKeeps(s, t, ticket);
    }
  }

  lemma StepKeeps(s: State, s': State)
    requires Inv(s) && Next(s, s')
    ensures Inv(s')
  {
    if s' == Publish(s) {
      PublishKeeps(s);
    } else {
      var t :| ConsumerStep(s, s', t);
      ConsumerStepKeeps(s, t);
    }
  }

  lemma {:induction false} InvAt(run: seq<State>, k: nat)
    requires IsRun(run) && k < |run|
    ensures Inv(run[k])
  {
    if k > 0 {
      InvAt(run, k - 1);
      assert StepAt(run, k);
      StepKeeps(run[k - 1], run[k]);
    }
  }

  lemma RunHolds(run: seq<State>)
    requires IsRun(run)
    ensures Inv(run[|run| - 1])
  {
    InvAt(run, |run| - 1);
  }

  // ------------------------------------------------------------------------ theorems

  ghost function Claimants(s: State): set<Tid> {
    set t | t in s.threads && s.threads[t].Claim?
  }

  /** The number of consumers that have passed the second test is the number of passed tickets. */
  lemma PassedAreClaimants(s: State)
    requires Inv(s)
    ensures |Claimants(s)| <= Count(s.fates, Passed)
  {
    PassedTickets(s.fates, |s.fates|);
    assert s.fates[..|s.fates|] == s.fates;
    ImageSize(s, Claimants(s));
    forall p | p in TicketsOf(s, Claimants(s)) ensures p in PassedSet(s.fates, |s.fates|) {
      var t :| t in Claimants(s) && s.threads[t].ticket == p;
      assert ThreadOk(s, s.threads[t]);
    }
    SubsetSize(TicketsOf(s, Claimants(s)), PassedSet(s.fates, |s.fates|));
  }

  ghost function PassedSet(f: seq<Fate>, n: nat): set<nat>
    requires n <= |f|
  {
    set p: nat | p < n && f[p] == Passed
  }

  lemma {:induction false} PassedTickets(f: seq<Fate>, n: nat)
    requires n <= |f|
    ensures |PassedSet(f, n)| == Count(f[..n], Passed)
  {
    if n > 0 {
      PassedTickets(f, n - 1);
      assert f[..n][..n - 1] == f[..n - 1];
      assert PassedSet(f, n) == PassedSet(f, n - 1) + (if f[n - 1] == Passed then {n - 1} else {});
    } else {
      assert PassedSet(f, 0) == {};
    }
  }

  ghost function TicketsOf(s: State, ts: set<Tid>): set<nat> {
    set t | t in ts && t in s.threads && HasTicket(s.threads[t]) :: s.threads[t].ticket
  }

  lemma {:induction false} ImageSize(s: State, ts: set<Tid>)
    requires Inv(s) && ts <= Claimants(s)
    ensures |TicketsOf(s, ts)| == |ts|
  {
    if ts != {} {
      var t :| t in ts;
      ImageSize(s, ts - {t});
      assert TicketsOf(s, ts) == TicketsOf(s, ts - {t}) + {s.threads[t].ticket};
      assert s.threads[t].ticket !in TicketsOf(s, ts - {t});
    }
  }

  lemma HeadFits(s: State)
    requires Inv(s)
    ensures s.head + |Claimants(s)| <= s.tail
  {
    WinnersFit(s.fates, s.tail);
    PassedAreClaimants(s);
  }

  /**
   Successful dequeues never outnumber enqueues: in every reachable state the elements claimed,
   together with those that consumers past the second test are about to claim, have been enqueued.
   */
  lemma HeadNeverPassesTail(run: seq<State>)
    requires IsRun(run)
    ensures var s := run[|run| - 1]; s.head + |Claimants(s)| <= s.tail
  {
    RunHolds(run);
    HeadFits(run[|run| - 1]);
  }

  /** A consumer that takes an index takes one below the tail, which nobody has taken before or will again. */
  lemma ClaimedIndexIsFresh(run: seq<State>, s': State, t: Tid)
    requires IsRun(run) && var s := run[|run| - 1]; ConsumerStep(s, s', t) && s.threads[t].Claim?
    ensures var s := run[|run| - 1]; s.head < s.tail && s'.head == s.head + 1 && s'.tail == s.tail
  {
    HeadNeverPassesTail(run);
    assert t in Claimants(run[|run| - 1]);
  }

  /** Tickets are conserved: each is in flight, has become a dequeue, or has been given back. */
  lemma TicketsAreConserved(run: seq<State>)
    requires IsRun(run)
    ensures var s := run[|run| - 1];
            s.count == s.head + s.overcommit
                       + Count(s.fates, Pending) + Count(s.fates, Passed) + Count(s.fates, Failing)
  {
    RunHolds(run);
    AllFates(run[|run| - 1].fates);
  }

  lemma {:induction false} AllFates(f: seq<Fate>)
    ensures |f| == Count(f, Pending) + Count(f, Passed) + Count(f, Claimed) + Count(f, Failing) + Count(f, Failed)
  {
    if |f| > 0 {
      var front, last := f[..|f| - 1], f[|f| - 1];
      AllFates(front);
      assert f == front + [last];
      forall d ensures Count(f, d) == Count(front, d) + (if last == d then 1 else 0) {
        CountAppend(front, last, d);
      }
    }
  }

  // --------------------------------------------------------- what a consumer achieves

  predicate InFlight(c: Fate) {
    c == Pending || c == Passed || c == Failing
  }

  ghost predicate HeldBy(s: State, t: Tid, p: nat) {
    t in s.threads && HasTicket(s.threads[t]) && s.threads[t].ticket == p
  }

  /** Every ticket in flight is in the hands of a consumer. */
  ghost predicate TicketsHeld(s: State) {
    forall p | 0 <= p < |s.fates| && InFlight(s.fates[p]) :: exists t :: HeldBy(s, t, p)
  }

  lemma HeldByOther(s: State, s': State, t: Tid, p: nat)
    requires t in s'.threads && t in s.threads && s'.threads == s.threads[t := s'.threads[t]]
    requires (exists u :: HeldBy(s, u, p)) && !HeldBy(s, t, p)
    ensures exists u :: HeldBy(s', u, p)
  {
    var u :| HeldBy(s, u, p);
    assert HeldBy(s', u, p);
  }

  lemma ConsumerStepKeepsHeld(s: State, t: Tid)
    requires Inv(s) && TicketsHeld(s) && t in s.threads && TicketKnown(s, s.threads[t])
    ensures TicketsHeld(Access(s, t))
  {
    var s' := Access(s, t);
    assert ThreadOk(s, s.threads[t]);
    assert s'.threads == s.threads[t := s'.threads[t]];
    forall p | 0 <= p < |s'.fates| && InFlight(s'.fates[p]) ensures exists u :: HeldBy(s', u, p) {
      if HasTicket(s'.threads[t]) && s'.threads[t].ticket == p {
        assert HeldBy(s', t, p);
      } else {
        assert p < |s.fates| && InFlight(s.fates[p]);
        HeldByOther(s, s', t, p);
      }
    }
  }

  lemma PublishKeepsHeld(s: State)
    requires TicketsHeld(s)
    ensures TicketsHeld(Publish(s))
  {
    forall p | 0 <= p < |s.fates| && InFlight(s.fates[p]) ensures exists t :: HeldBy(Publish(s), t, p) {
      var t :| HeldBy(s, t, p);
      assert HeldBy(Publish(s), t, p);
    }
  }

  lemma {:induction false} HeldAt(run: seq<State>, k: nat)
    requires IsRun(run) && k < |run|
    ensures Inv(run[k]) && TicketsHeld(run[k])
  {
    if k > 0 {
      HeldAt(run, k - 1);
      InvAt(run, k);
      HeldNext(run, k);
    } else {
      InvAt(run, 0);
    }
  }

  lemma HeldNext(run: seq<State>, k: nat)
    requires IsRun(run) && 0 < k < |run| && Inv(run[k - 1]) && TicketsHeld(run[k - 1])
    ensures TicketsHeld(run[k])
  {
    assert StepAt(run, k);
    if run[k] == Publish(run[k - 1]) {
      PublishKeepsHeld(run[k - 1]);
    } else {
      var t :| ConsumerStep(run[k - 1], run[k], t);
      ConsumerStepKeepsHeld(run[k - 1], t);
    }
  }

  /** No consumer has a ticket in its hands. */
  predicate NoTicketHeld(s: State) {
    forall t | t in s.threads :: !HasTicket(s.threads[t])
  }

  lemma CountNone(f: seq<Fate>, d: Fate)
    requires forall p | 0 <= p < |f| :: f[p] != d
    ensures Count(f, d) == 0
  {
    if Count(f, d) > 0 {
      var p := CountWitness(f, d);
    }
  }

  /** While no consumer has a ticket in its hands, the tickets taken and not given back are the elements dequeued. */
  lemma RestingCount(s: State)
    requires Inv(s) && TicketsHeld(s) && NoTicketHeld(s)
    ensures s.count == s.head + s.overcommit
  {
    forall p | 0 <= p < |s.fates| ensures !InFlight(s.fates[p]) {
      assert forall t :: !HeldBy(s, t, p);
    }
    CountNone(s.fates, Pending);
    CountNone(s.fates, Passed);
    CountNone(s.fates, Failing);
    AllFates(s.fates);
  }

  /**
   The first test is exact: a consumer goes on if and only if the tickets it takes to be out are
   fewer than the tail it has read.
   */
  lemma FirstTestExactly(s: State, s': State, t: Tid)
    requires ConsumerStep(s, s', t) && s.threads[t].LoadCount?
    ensures var LoadCount(tail, overcommit) := s.threads[t];
            && (s'.threads[t] == Take(overcommit) <==> s.count < tail + overcommit)
            && (s'.threads[t] == Out <==> s.count >= tail + overcommit)
  {
    var LoadCount(tail, overcommit) := s.threads[t];
    CircularLessIsLess(s.count - overcommit, tail);
  }

  /** And so is the second, on the ticket it has taken and the tail it has read since. */
  lemma SecondTestExactly(s: State, s': State, t: Tid)
    requires ConsumerStep(s, s', t) && s.threads[t].Recheck?
    ensures var Recheck(overcommit, ticket) := s.threads[t];
            && (s'.threads[t] == Claim(ticket) <==> ticket < s.tail + overcommit)
            && (s'.threads[t] == GiveBack(ticket) <==> ticket >= s.tail + overcommit)
  {
    var Recheck(overcommit, ticket) := s.threads[t];
    CircularLessIsLess(ticket - overcommit, s.tail);
  }

  /**
   A consumer that gives up at the first test has found the elements it saw spoken for: dequeued, or claimed
   by tickets still in flight, or lost to tickets given back since it read dequeueOvercommit.
   */
  lemma GivesUpWhenSpokenFor(run: seq<State>, s': State, t: Tid)
    requires IsRun(run) && ConsumerStep(run[|run| - 1], s', t)
    requires run[|run| - 1].threads[t].LoadCount? && s'.threads[t].Out?
    ensures var s := run[|run| - 1];
            var LoadCount(tail, overcommit) := s.threads[t];
            tail <= s.head + Count(s.fates, Pending) + Count(s.fates, Passed) + Count(s.fates, Failing)
                    + (s.overcommit - overcommit)
  {
    FirstTestExactly(run[|run| - 1], s', t);
    TicketsAreConserved(run);
  }

  /** What the next access of a consumer that is alone leads to, up to its claim. */
  function Advanced(s: State, pc: Pc): Pc {
    match pc
    case Out => LoadTail
    case LoadTail => LoadOvercommit(s.tail)
    case LoadOvercommit(tail) => LoadCount(tail, s.overcommit)
    case LoadCount(_, overcommit) => Take(overcommit)
    case Take(overcommit) => Recheck(overcommit, s.count)
    case Recheck(_, ticket) => Claim(ticket)
    case _ => pc
  }

  /** How far a consumer that steps alone has got, in a queue that had an element for it. */
  ghost predicate OnItsWay(s: State, t: Tid) {
    && t in s.threads && s.head < s.tail && Close(s.head, s.tail)
    && match s.threads[t]
       case Out | LoadTail => s.count == s.head + s.overcommit
       case LoadOvercommit(tail) => tail == s.tail && s.count == s.head + s.overcommit
       case LoadCount(tail, overcommit) => tail == s.tail && overcommit == s.overcommit
         && s.count == s.head + s.overcommit
       case Take(overcommit) => overcommit == s.overcommit && s.count == s.head + s.overcommit
       case Recheck(overcommit, ticket) =>
         overcommit == s.overcommit && ticket == s.head + s.overcommit && ticket < |s.fates|
       case Claim(ticket) => ticket < |s.fates|
       case GiveBack(_) => false
  }

  /** Each of its accesses takes it further, and leaves head and tail alone. */
  lemma OnItsWayStep(s: State, t: Tid)
    requires Inv(s) && OnItsWay(s, t) && !s.threads[t].Claim?
    ensures ConsumerStep(s, Access(s, t), t) && OnItsWay(Access(s, t), t)
    ensures Access(s, t).threads[t] == Advanced(s, s.threads[t])
    ensures Access(s, t).head == s.head && Access(s, t).tail == s.tail
  {
    CircularLessIsLess(s.head, s.tail);
    assert s.threads[t].LoadCount? ==> s.count - s.threads[t].overcommit == s.head;
    assert s.threads[t].Recheck? ==> s.threads[t].ticket - s.threads[t].overcommit == s.head;
  }
}

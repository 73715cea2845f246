/**
 The lock-free free list of blocks, as a machine whose steps are its single
 atomic accesses, taken by any number of threads in any order (sequentially
 consistent). A step is a function of the state and the program counter; only
 which thread moves, and which operation an idle thread starts, is open.

 `freeListRefs` is the 32-bit word of the source: the top bit says that the block
 should be on the list, the rest counts references.
 */
module FreeList {
  import opened Options
  import opened Counting

  type Block = nat
  type Tid = nat

  const FLAG: nat := 0x8000_0000        // SHOULD_BE_ON_FREELIST
  const WORD: nat := 0x1_0000_0000

  datatype Node = Node(refs: int, next: Option<Block>)

  /** Where add_knowing_refcount_is_zero returns to: out of add, or back into the loop of try_get. */
  datatype After = Finish | Resume(head: Option<Block>)

  /** The next atomic access of a thread, with the local variables it needs. */
  datatype Pc =
    | Idle
    | AddFlag(node: Block)                                            // add: set the flag
    | LinkHead(node: Block, after: After)                             // add_knowing_refcount_is_zero: load the head
    | LinkNext(node: Block, head: Option<Block>, after: After)        //   store the next pointer
    | LinkRefs(node: Block, head: Option<Block>, after: After)        //   store one reference
    | LinkCas(node: Block, head: Option<Block>, after: After)         //   swing the head
    | LinkUndo(node: Block, head: Option<Block>, after: After)        //   give the reference back, set the flag again
    | GetHead                                                         // try_get: load the head
    | GetRefs(node: Block)                                            //   load its references
    | GetPin(node: Block, refs: int)                                  //   take a reference
    | GetNext(node: Block)                                            //   load the next pointer
    | GetCas(node: Block, next: Option<Block>)                        //   swing the head
    | GetTaken(node: Block)                                           //   drop two references and return the block
    | GetUnpin(node: Block, newHead: Option<Block>)                   //   drop the reference

  /** `out` is the set of blocks in the hands of users: a user may only add a block it has. */
  datatype State = State(head: Option<Block>, nodes: map<Block, Node>, threads: map<Tid, Pc>, out: set<Block>)

  // ------------------------------------------------------------------------- steps

  /** Addition of 32-bit words, for -WORD <= word + d < 2 * WORD. */
  function Add(word: int, d: int): int {
    if word + d >= WORD then word + d - WORD else if word + d < 0 then word + d + WORD else word + d
  }

  /** refs & REFS_MASK, for a 32-bit word. */
  function Masked(word: int): int {
    if word >= FLAG then word - FLAG else word
  }

  /** After a CAS has failed or an element has been linked: what the loop of try_get does with its head. */
  function Continue(after: After): Pc {
    match after
    case Finish => Idle
    case Resume(None) => Idle
    case Resume(Some(h)) => GetRefs(h)
  }

  /** The thread works on a block. */
  predicate HasNode(pc: Pc) {
    !pc.Idle? && !pc.GetHead?
  }

  predicate Known(pc: Pc, nodes: map<Block, Node>) {
    HasNode(pc) ==> pc.node in nodes
  }

  /** The node that a pc works on, read and written as one word each. */
  function SetRefs(s: State, b: Block, refs: int): State
    requires b in s.nodes
  {
    s.(nodes := s.nodes[b := s.nodes[b].(refs := refs)])
  }

  function Goto(s: State, t: Tid, pc: Pc): State {
    s.(threads := s.threads[t := pc])
  }

  /** One atomic access of thread t, which is inside an operation. */
  function Access(s: State, t: Tid): State
    requires t in s.threads && Known(s.threads[t], s.nodes)
  {
    match s.threads[t]
    case Idle => s
    case AddFlag(b) =>
      var prev := s.nodes[b].refs;
      Goto(SetRefs(s, b, Add(prev, FLAG)), t, if prev == 0 then LinkHead(b, Finish) else Idle)
    case LinkHead(b, a) =>
      Goto(s, t, LinkNext(b, s.head, a))
    case LinkNext(b, h, a) =>
      Goto(s.(nodes := s.nodes[b := s.nodes[b].(next := h)]), t, LinkRefs(b, h, a))
    case LinkRefs(b, h, a) =>
      Goto(SetRefs(s, b, 1), t, LinkCas(b, h, a))
    case LinkCas(b, h, a) =>
      if s.head == h then Goto(s.(head := Some(b)), t, Continue(a))
      else Goto(s, t, LinkUndo(b, s.head, a))
    case LinkUndo(b, h, a) =>
      var prev := s.nodes[b].refs;
      Goto(SetRefs(s, b, Add(prev, FLAG - 1)), t, if prev == 1 then LinkNext(b, h, a) else Continue(a))
    case GetHead =>
      Goto(s, t, Continue(Resume(s.head)))
    case GetRefs(b) =>
      var refs := s.nodes[b].refs;
      Goto(s, t, if Masked(refs) == 0 then GetHead else GetPin(b, refs))
    case GetPin(b, refs) =>
      if s.nodes[b].refs == refs then Goto(SetRefs(s, b, Add(refs, 1)), t, GetNext(b))
      else Goto(s, t, GetHead)
    case GetNext(b) =>
      Goto(s, t, GetCas(b, s.nodes[b].next))
    case GetCas(b, n) =>
      if s.head == Some(b) then Goto(s.(head := n), t, GetTaken(b))
      else Goto(s, t, GetUnpin(b, s.head))
    case GetTaken(b) =>
      Goto(SetRefs(s, b, Add(s.nodes[b].refs, -2)), t, Idle).(out := s.out + {b})
    case GetUnpin(b, h) =>
      var prev := s.nodes[b].refs;
      Goto(SetRefs(s, b, Add(prev, -1)), t, if prev == FLAG + 1 then LinkHead(b, Resume(h)) else Continue(Resume(h)))
  }

  /** Thread t starts add(b) with a block of its own, starts try_get, or makes its next access. */
  ghost predicate Step(s: State, s': State, t: Tid) {
    && t in s.threads
    && Known(s.threads[t], s.nodes)
    && if s.threads[t].Idle? then
         || s' == Goto(s, t, GetHead)
         || exists b :: b in s.out && b in s.nodes && s' == Goto(s, t, AddFlag(b)).(out := s.out - {b})
       else s' == Access(s, t)
  }

  /** All blocks are with their users, no operation has started, and there are too few threads to overflow a count. */
  ghost predicate Init(s: State) {
    && s.head == None
    && s.out == s.nodes.Keys
    && (forall b | b in s.nodes :: s.nodes[b] == Node(0, None))
    && (forall t | t in s.threads :: s.threads[t] == Idle)
    && |s.threads| + 2 < FLAG
  }

  ghost predicate Next(s: State, s': State) {
    exists t :: Step(s, s', t)
  }

  ghost predicate StepAt(run: seq<State>, i: nat)
    requires 0 < i < |run|
  {
    Next(run[i - 1], run[i])
  }

  ghost predicate IsRun(run: seq<State>) {
    && |run| > 0
    && Init(run[0])
    && forall i | 0 < i < |run| :: StepAt(run, i)
  }

  // --------------------------------------------------------------------- invariant

  /** Where a block is in its life. */
  datatype Role =
    | Out               // with a user
    | Adding(t: Tid)    // thread t is about to set its flag
    | Pending           // flagged, but still referenced: whoever drops the last reference links it
    | Linking(t: Tid)   // thread t alone is linking it
    | Listed            // on the list
    | Taken(t: Tid)     // thread t has just unlinked it

  /** The thread holds a reference to block b, taken by try_get. */
  predicate Pins(pc: Pc, b: Block) {
    (pc.GetNext? || pc.GetCas? || pc.GetUnpin?) && pc.node == b
  }

  ghost function Holders(threads: map<Tid, Pc>, b: Block): set<Tid> {
    set t | t in threads && Pins(threads[t], b)
  }

  predicate IsLinking(pc: Pc) {
    pc.LinkHead? || pc.LinkNext? || pc.LinkRefs? || pc.LinkCas? || pc.LinkUndo?
  }

  /** The word of block b, given its role: the list's or the linker's reference, plus one for each holder. */
  ghost predicate BlockOk(s: State, role: Role, b: Block)
    requires b in s.nodes
  {
    var refs, h := s.nodes[b].refs, |Holders(s.threads, b)|;
    match role
    case Out => refs == h
    case Adding(t) => t in s.threads && s.threads[t] == AddFlag(b) && refs == h
    case Pending => refs == FLAG + h && h > 0
    case Linking(t) =>
      && t in s.threads && IsLinking(s.threads[t]) && s.threads[t].node == b
      && if s.threads[t].LinkCas? || s.threads[t].LinkUndo? then refs == 1 + h else refs == FLAG && h == 0
    case Listed => refs == 1 + h
    case Taken(t) => t in s.threads && s.threads[t] == GetTaken(b) && refs == 2 + h
  }

  predicate HeadKnown(head: Option<Block>, nodes: map<Block, Node>) {
    head.Some? ==> head.value in nodes
  }

  ghost predicate ThreadOk(s: State, roles: map<Block, Role>, t: Tid)
    requires t in s.threads && roles.Keys == s.nodes.Keys
  {
    var pc := s.threads[t];
    && Known(pc, s.nodes)
    && (IsLinking(pc) && pc.after.Resume? ==> HeadKnown(pc.after.head, s.nodes))
    && (pc.GetPin? ==> Masked(pc.refs) != 0)
    && (pc.GetUnpin? ==> HeadKnown(pc.newHead, s.nodes))
    && (pc.AddFlag? ==> roles[pc.node] == Adding(t))
    && (IsLinking(pc) ==> roles[pc.node] == Linking(t))
    && (pc.GetTaken? ==> roles[pc.node] == Taken(t))
    && (pc.LinkRefs? || pc.LinkCas? ==> s.nodes[pc.node].next == pc.head)
    && (pc.GetCas? ==> s.nodes[pc.node].next == pc.next)
  }

  /** What the next pointer of the i-th block of a list should be. */
  ghost function Following(list: seq<Block>, i: nat): Option<Block> {
    if i + 1 < |list| then Some(list[i + 1]) else None
  }

  ghost predicate IsLink(nodes: map<Block, Node>, list: seq<Block>, i: nat)
    requires i < |list|
  {
    list[i] in nodes && nodes[list[i]].next == Following(list, i)
  }

  /** Following the next pointers from head yields list, and then ends; no block occurs twice. */
  ghost predicate IsChain(head: Option<Block>, nodes: map<Block, Node>, list: seq<Block>) {
    && head == (if |list| == 0 then None else Some(list[0]))
    && (forall i | 0 <= i < |list| :: IsLink(nodes, list, i))
    && (forall i, j | 0 <= i < j < |list| :: list[i] != list[j])
  }

  ghost predicate BlocksOk(s: State, roles: map<Block, Role>)
    requires roles.Keys == s.nodes.Keys
  {
    forall b | b in s.nodes :: BlockOk(s, roles[b], b)
  }

  ghost predicate ThreadsOk(s: State, roles: map<Block, Role>)
    requires roles.Keys == s.nodes.Keys
  {
    forall t | t in s.threads :: ThreadOk(s, roles, t)
  }

  /** Who is out and who is on the list. */
  ghost predicate PlacesOk(s: State, roles: map<Block, Role>, list: seq<Block>)
    requires roles.Keys == s.nodes.Keys
  {
    forall b | b in s.nodes :: (b in s.out <==> roles[b] == Out) && (b in list <==> roles[b] == Listed)
  }

  ghost predicate Inv(s: State, roles: map<Block, Role>, list: seq<Block>) {
    && roles.Keys == s.nodes.Keys
    && |s.threads| + 2 < FLAG
    && BlocksOk(s, roles) && ThreadsOk(s, roles) && PlacesOk(s, roles, list)
    && IsChain(s.head, s.nodes, list)
  }

  // ------------------------------------------------------------- counting references

  lemma HoldersBound(threads: map<Tid, Pc>, b: Block)
    ensures |Holders(threads, b)| <= |threads|
  {
    assert Holders(threads, b) <= threads.Keys;
    SubsetSize(Holders(threads, b), threads.Keys);
  }

  lemma OtherHolders(threads: map<Tid, Pc>, t: Tid, pc: Pc, b: Block)
    requires t in threads
    ensures Holders(threads[t := pc], b) - {t} == Holders(threads, b) - {t}
  {
  }

  lemma SizeWithout<T>(a: set<T>, x: T)
    ensures |a - {x}| == |a| - (if x in a then 1 else 0)
  {
  }

  /** How the references of block b change when thread t moves to pc. */
  lemma HoldersUpdate(threads: map<Tid, Pc>, t: Tid, pc: Pc, b: Block)
    requires t in threads
    ensures |Holders(threads[t := pc], b)|
         == |Holders(threads, b)| - (if Pins(threads[t], b) then 1 else 0) + (if Pins(pc, b) then 1 else 0)
  {
    OtherHolders(threads, t, pc, b);
    SizeWithout(Holders(threads[t := pc], b), t);
    SizeWithout(Holders(threads, b), t);
  }

  /** A step of thread t to pc leaves every block as it is that neither pc nor the new pc works on. */
  lemma OtherBlockOk(s: State, s': State, role: Role, t: Tid, b: Block)
    requires b in s.nodes && b in s'.nodes && s'.nodes[b] == s.nodes[b] && BlockOk(s, role, b)
    requires t in s.threads && t in s'.threads && s'.threads == s.threads[t := s'.threads[t]]
    requires !Pins(s.threads[t], b) && !Pins(s'.threads[t], b)
    requires role !in {Adding(t), Linking(t), Taken(t)}
    ensures BlockOk(s', role, b)
  {
    HoldersUpdate(s.threads, t, s'.threads[t], b);
  }

  /**
   The only node a step may change is b; other threads see it change only while nobody but the linker
   refers to it.
   */
  lemma OtherThreadOk(s: State, s': State, roles: map<Block, Role>, roles': map<Block, Role>, t: Tid, t': Tid, b: Block)
    requires roles.Keys == s.nodes.Keys == s'.nodes.Keys == roles'.Keys && b in s.nodes
    requires t' in s.threads && t' != t && t' in s'.threads && s'.threads[t'] == s.threads[t'] && ThreadOk(s, roles, t')
    requires forall x | x in s.nodes && x != b :: s'.nodes[x] == s.nodes[x] && roles'[x] == roles[x]
    requires roles'[b] == roles[b] || roles[b] in {Out, Pending, Listed, Adding(t), Linking(t), Taken(t)}
    requires s'.nodes[b].next == s.nodes[b].next || (roles[b] == Linking(t) && Holders(s.threads, b) == {})
    ensures ThreadOk(s', roles', t')
  {
    assert Pins(s.threads[t'], b) ==> t' in Holders(s.threads, b);
  }

  /** The part of s' that a step of t may touch, apart from the list: its own pc, block b and b's role. */
  ghost predicate Local(s: State, s': State, roles: map<Block, Role>, roles': map<Block, Role>, t: Tid, b: Block) {
    && t in s.threads && t in s'.threads && s'.threads == s.threads[t := s'.threads[t]]
    && b in s.nodes && b in s'.nodes && s'.nodes == s.nodes[b := s'.nodes[b]]
    && b in roles && b in roles' && roles' == roles[b := roles'[b]]
    && (HasNode(s.threads[t]) ==> s.threads[t].node == b)
    && (HasNode(s'.threads[t]) ==> s'.threads[t].node == b || s'.threads[t].GetRefs?)
    && (roles'[b] == roles[b] || roles[b] in {Out, Pending, Listed, Adding(t), Linking(t), Taken(t)})
    && (s'.nodes[b].next == s.nodes[b].next || (roles[b] == Linking(t) && Holders(s.threads, b) == {}))
  }

  /** What an access of thread t to block b must establish for both, before the list and the others come in. */
  ghost predicate OwnOk(s: State, s': State, roles: map<Block, Role>, roles': map<Block, Role>, t: Tid, b: Block) {
    && roles.Keys == s.nodes.Keys && roles'.Keys == s'.nodes.Keys
    && Local(s, s', roles, roles', t, b) && BlockOk(s', roles'[b], b) && ThreadOk(s', roles', t)
  }

  /** A local step keeps the invariant if it does so for its own thread and block and for the list. */
  lemma LocalStep(s: State, s': State, roles: map<Block, Role>, roles': map<Block, Role>,
                  list: seq<Block>, list': seq<Block>, t: Tid, b: Block)
    requires Inv(s, roles, list) && OwnOk(s, s', roles, roles', t, b)
    requires PlacesOk(s', roles', list') && IsChain(s'.head, s'.nodes, list')
    ensures Inv(s', roles', list')
  {
    LocalBlocks(s, s', roles, roles', t, b);
    LocalThreads(s, s', roles, roles', t, b);
    assert s'.threads.Keys == s.threads.Keys;
  }

  lemma LocalBlocks(s: State, s': State, roles: map<Block, Role>, roles': map<Block, Role>, t: Tid, b: Block)
    requires OwnOk(s, s', roles, roles', t, b) && BlocksOk(s, roles)
    ensures BlocksOk(s', roles')
  {
    forall x | x in s'.nodes ensures BlockOk(s', roles'[x], x) {
      assert BlockOk(s, roles[x], x);
      if x != b {
        OtherBlockOk(s, s', roles[x], t, x);
      }
    }
  }

  lemma LocalThreads(s: State, s': State, roles: map<Block, Role>, roles': map<Block, Role>, t: Tid, b: Block)
    requires OwnOk(s, s', roles, roles', t, b) && ThreadsOk(s, roles)
    ensures ThreadsOk(s', roles')
  {
    forall x | x in s'.threads ensures ThreadOk(s', roles', x) {
      if x != t {
        assert ThreadOk(s, roles, x);
        OtherThreadOk(s, s', roles, roles', t, x, b);
      }
    }
  }

  /** The list is unaffected by a change of a block that is not on it, and by a change of references. */
  lemma SameChain(head: Option<Block>, nodes: map<Block, Node>, nodes': map<Block, Node>, list: seq<Block>, b: Block)
    requires IsChain(head, nodes, list) && b in nodes && b in nodes' && nodes' == nodes[b := nodes'[b]]
    requires b !in list || nodes'[b].next == nodes[b].next
    ensures IsChain(head, nodes', list)
  {
    forall i | 0 <= i < |list| ensures IsLink(nodes', list, i) {
      assert IsLink(nodes, list, i);
    }
  }

  lemma ChainPush(head: Option<Block>, nodes: map<Block, Node>, list: seq<Block>, b: Block)
    requires IsChain(head, nodes, list) && b in nodes && nodes[b].next == head && b !in list
    ensures IsChain(Some(b), nodes, [b] + list)
  {
    var list' := [b] + list;
    forall i | 0 <= i < |list'| ensures IsLink(nodes, list', i) {
      if i > 0 {
        assert IsLink(nodes, list, i - 1) && Following(list', i) == Following(list, i - 1);
      }
    }
  }

  lemma ChainPop(head: Option<Block>, nodes: map<Block, Node>, list: seq<Block>)
    requires IsChain(head, nodes, list) && head.Some?
    ensures |list| > 0 && list[0] == head.value && head.value in nodes
    ensures IsChain(nodes[head.value].next, nodes, list[1..])
    ensures forall x :: x in list <==> x == head.value || x in list[1..]
    ensures head.value !in list[1..]
  {
    var list' := list[1..];
    assert IsLink(nodes, list, 0);
    forall i | 0 <= i < |list'| ensures IsLink(nodes, list', i) {
      assert IsLink(nodes, list, i + 1) && Following(list', i) == Following(list, i + 1);
    }
  }

  // ------------------------------------------------------ steps that only read

  /** What a step that changes nothing but the pc of thread t has to bring along. */
  ghost predicate PcFits(s: State, roles: map<Block, Role>, t: Tid, pc: Pc)
    requires t in s.threads && roles.Keys == s.nodes.Keys
  {
    && (forall x | x in s.nodes :: Pins(s.threads[t], x) == Pins(pc, x))
    && (HasNode(s.threads[t]) ==> s.threads[t].node in s.nodes &&
                                  BlockOk(Goto(s, t, pc), roles[s.threads[t].node], s.threads[t].node))
    && ThreadOk(Goto(s, t, pc), roles, t)
  }

  /** A step that changes nothing but the pc of its thread. */
  lemma PcStep(s: State, roles: map<Block, Role>, list: seq<Block>, t: Tid, pc: Pc)
    requires Inv(s, roles, list) && t in s.threads && PcFits(s, roles, t, pc)
    ensures Inv(Goto(s, t, pc), roles, list)
  {
    PcStepThreads(s, roles, t, pc);
    PcStepBlocks(s, roles, t, pc);
    assert Goto(s, t, pc).threads.Keys == s.threads.Keys;
  }

  lemma PcStepBlocks(s: State, roles: map<Block, Role>, t: Tid, pc: Pc)
    requires roles.Keys == s.nodes.Keys && t in s.threads && forall b | b in s.nodes :: BlockOk(s, roles[b], b)
    requires PcFits(s, roles, t, pc)
    ensures forall b | b in s.nodes :: BlockOk(Goto(s, t, pc), roles[b], b)
  {
    forall x | x in s.nodes ensures BlockOk(Goto(s, t, pc), roles[x], x) {
      assert BlockOk(s, roles[x], x);
      HoldersUpdate(s.threads, t, pc, x);
    }
  }

  lemma PcStepThreads(s: State, roles: map<Block, Role>, t: Tid, pc: Pc)
    requires roles.Keys == s.nodes.Keys && t in s.threads
    requires (forall x | x in s.threads :: ThreadOk(s, roles, x)) && ThreadOk(Goto(s, t, pc), roles, t)
    ensures forall x | x in Goto(s, t, pc).threads :: ThreadOk(Goto(s, t, pc), roles, x)
  {
    forall x | x in s.threads && x != t ensures ThreadOk(Goto(s, t, pc), roles, x) {
      assert ThreadOk(s, roles, x);
    }
  }

  lemma HeadIsKnown(s: State, roles: map<Block, Role>, list: seq<Block>)
    requires Inv(s, roles, list)
    ensures HeadKnown(s.head, s.nodes)
  {
    if s.head.Some? {
      assert IsLink(s.nodes, list, 0);
    }
  }

  /** A thread that works on no block, before and after. */
  lemma NoNodeKeeps(s: State, roles: map<Block, Role>, list: seq<Block>, t: Tid, pc: Pc)
    requires Inv(s, roles, list) && t in s.threads && !HasNode(s.threads[t])
    requires pc == Idle || pc == GetHead || (pc.GetRefs? && pc.node in s.nodes)
    ensures Inv(Goto(s, t, pc), roles, list)
  {
    PcStep(s, roles, list, t, pc);
  }

  /** The accesses that only read: the pc before and after. */
  predicate Reads(s: State, before: Pc, after: Pc) {
    match before
    case LinkHead(b, a) => after == LinkNext(b, s.head, a)
    case LinkCas(b, h, a) => after == LinkUndo(b, s.head, a)
    case GetRefs(b) => after == GetHead || (after.GetPin? && after.node == b && Masked(after.refs) != 0)
    case GetPin(b, _) => after == GetHead
    case GetNext(b) => b in s.nodes && after == GetCas(b, s.nodes[b].next)
    case GetCas(b, _) => after == GetUnpin(b, s.head)
    case _ => false
  }

  lemma ReadFits(s: State, roles: map<Block, Role>, t: Tid, b: Block, pc: Pc)
    requires roles.Keys == s.nodes.Keys && t in s.threads && ThreadOk(s, roles, t) && Reads(s, s.threads[t], pc)
    requires s.threads[t].node == b
    requires b in s.nodes && BlockOk(s, roles[b], b) && HeadKnown(s.head, s.nodes)
    ensures PcFits(s, roles, t, pc)
  {
    HoldersUpdate(s.threads, t, pc, b);
  }

  lemma ReadKeeps(s: State, roles: map<Block, Role>, list: seq<Block>, t: Tid, pc: Pc)
    requires Inv(s, roles, list) && t in s.threads && Reads(s, s.threads[t], pc)
    ensures s.threads[t].node in s.nodes && Inv(Goto(s, t, pc), roles, list)
  {
    var b := s.threads[t].node;
    assert ThreadOk(s, roles, t) && BlockOk(s, roles[b], b);
    HeadIsKnown(s, roles, list);
    ReadFits(s, roles, t, b, pc);
    PcStep(s, roles, list, t, pc);
  }

  // ---------------------------------------------------------------- steps of add

  /** No other thread refers to the block: setting the flag makes this thread its linker. */
  lemma AddUnreferencedKeeps(s: State, roles: map<Block, Role>, list: seq<Block>, t: Tid, b: Block)
    requires Inv(s, roles, list) && t in s.threads && s.threads[t] == AddFlag(b)
    requires b in s.nodes && s.nodes[b].refs == 0
    ensures b in s.nodes
    ensures Inv(Goto(SetRefs(s, b, Add(s.nodes[b].refs, FLAG)), t, LinkHead(b, Finish)), roles[b := Linking(t)], list)
  {
    assert ThreadOk(s, roles, t) && BlockOk(s, roles[b], b);
    var s' := Goto(SetRefs(s, b, Add(s.nodes[b].refs, FLAG)), t, LinkHead(b, Finish));
    AddUnreferencedOwn(s, s', roles, t, b);
    SameChain(s.head, s.nodes, s'.nodes, list, b);
    LocalStep(s, s', roles, roles[b := Linking(t)], list, list, t, b);
  }

  lemma AddUnreferencedOwn(s: State, s': State, roles: map<Block, Role>, t: Tid, b: Block)
    requires roles.Keys == s.nodes.Keys && b in s.nodes && BlockOk(s, roles[b], b) && |s.threads| + 2 < FLAG
    requires t in s.threads && s.threads[t] == AddFlag(b) && ThreadOk(s, roles, t) && s.nodes[b].refs == 0
    requires s' == Goto(SetRefs(s, b, Add(s.nodes[b].refs, FLAG)), t, LinkHead(b, Finish))
    ensures OwnOk(s, s', roles, roles[b := Linking(t)], t, b)
  {
    HoldersUpdate(s.threads, t, LinkHead(b, Finish), b);
  }

  /** The block is still referenced: whoever drops the last reference will link it. */
  lemma AddReferencedKeeps(s: State, roles: map<Block, Role>, list: seq<Block>, t: Tid, b: Block)
    requires Inv(s, roles, list) && t in s.threads && s.threads[t] == AddFlag(b)
    requires b in s.nodes && s.nodes[b].refs != 0
    ensures b in s.nodes
    ensures Inv(Goto(SetRefs(s, b, Add(s.nodes[b].refs, FLAG)), t, Idle), roles[b := Pending], list)
  {
    assert ThreadOk(s, roles, t) && BlockOk(s, roles[b], b);
    var s' := Goto(SetRefs(s, b, Add(s.nodes[b].refs, FLAG)), t, Idle);
    AddReferencedOwn(s, s', roles, t, b);
    SameChain(s.head, s.nodes, s'.nodes, list, b);
    LocalStep(s, s', roles, roles[b := Pending], list, list, t, b);
  }

  lemma AddReferencedOwn(s: State, s': State, roles: map<Block, Role>, t: Tid, b: Block)
    requires roles.Keys == s.nodes.Keys && b in s.nodes && BlockOk(s, roles[b], b) && |s.threads| + 2 < FLAG
    requires t in s.threads && s.threads[t] == AddFlag(b) && ThreadOk(s, roles, t) && s.nodes[b].refs != 0
    requires s' == Goto(SetRefs(s, b, Add(s.nodes[b].refs, FLAG)), t, Idle)
    ensures OwnOk(s, s', roles, roles[b := Pending], t, b)
  {
    HoldersBound(s.threads, b);
    HoldersUpdate(s.threads, t, Idle, b);
  }

  /** Only the linker changes the next pointer, while the block counts no reference. */
  lemma LinkNextKeeps(s: State, roles: map<Block, Role>, list: seq<Block>, t: Tid, b: Block, h: Option<Block>, a: After)
    requires Inv(s, roles, list) && t in s.threads && s.threads[t] == LinkNext(b, h, a)
    requires b in s.nodes
    ensures b in s.nodes
    ensures Inv(Goto(s.(nodes := s.nodes[b := s.nodes[b].(next := h)]), t, LinkRefs(b, h, a)), roles, list)
  {
    assert ThreadOk(s, roles, t) && BlockOk(s, roles[b], b);
    var s' := Goto(s.(nodes := s.nodes[b := s.nodes[b].(next := h)]), t, LinkRefs(b, h, a));
    LinkNextOwn(s, s', roles, t, b, h, a);
    SameChain(s.head, s.nodes, s'.nodes, list, b);
    LocalStep(s, s', roles, roles, list, list, t, b);
  }

  lemma LinkNextOwn(s: State, s': State, roles: map<Block, Role>, t: Tid, b: Block, h: Option<Block>, a: After)
    requires roles.Keys == s.nodes.Keys && b in s.nodes && BlockOk(s, roles[b], b)
    requires t in s.threads && s.threads[t] == LinkNext(b, h, a) && ThreadOk(s, roles, t)
    requires s' == Goto(s.(nodes := s.nodes[b := s.nodes[b].(next := h)]), t, LinkRefs(b, h, a))
    ensures OwnOk(s, s', roles, roles, t, b)
  {
    HoldersUpdate(s.threads, t, LinkRefs(b, h, a), b);
  }

  lemma LinkRefsKeeps(s: State, roles: map<Block, Role>, list: seq<Block>, t: Tid, b: Block, h: Option<Block>, a: After)
    requires Inv(s, roles, list) && t in s.threads && s.threads[t] == LinkRefs(b, h, a)
    requires b in s.nodes
    ensures b in s.nodes
    ensures Inv(Goto(SetRefs(s, b, 1), t, LinkCas(b, h, a)), roles, list)
  {
    assert ThreadOk(s, roles, t) && BlockOk(s, roles[b], b);
    var s' := Goto(SetRefs(s, b, 1), t, LinkCas(b, h, a));
    LinkRefsOwn(s, s', roles, t, b, h, a);
    SameChain(s.head, s.nodes, s'.nodes, list, b);
    LocalStep(s, s', roles, roles, list, list, t, b);
  }

  lemma LinkRefsOwn(s: State, s': State, roles: map<Block, Role>, t: Tid, b: Block, h: Option<Block>, a: After)
    requires roles.Keys == s.nodes.Keys && b in s.nodes && BlockOk(s, roles[b], b) && |s.threads| + 2 < FLAG
    requires t in s.threads && s.threads[t] == LinkRefs(b, h, a) && ThreadOk(s, roles, t)
    requires s' == Goto(SetRefs(s, b, 1), t, LinkCas(b, h, a))
    ensures OwnOk(s, s', roles, roles, t, b)
  {
    HoldersUpdate(s.threads, t, LinkCas(b, h, a), b);
  }

  /** The block joins the front of the list. */
  lemma LinkCasOkKeeps(s: State, roles: map<Block, Role>, list: seq<Block>, t: Tid, b: Block, h: Option<Block>,
                       a: After)
    requires Inv(s, roles, list) && t in s.threads && s.threads[t] == LinkCas(b, h, a)
    requires s.head == h
    ensures b in s.nodes
    ensures Inv(Goto(s.(head := Some(b)), t, Continue(a)), roles[b := Listed], [b] + list)
  {
    assert ThreadOk(s, roles, t) && BlockOk(s, roles[b], b);
    LinkCasOkOwn(s, roles, t, b, h, a);
    ChainPush(s.head, s.nodes, list, b);
    LocalStep(s, Goto(s.(head := Some(b)), t, Continue(a)), roles, roles[b := Listed], list, [b] + list, t, b);
  }

  lemma LinkCasOkOwn(s: State, roles: map<Block, Role>, t: Tid, b: Block, h: Option<Block>, a: After)
    requires roles.Keys == s.nodes.Keys && b in s.nodes && BlockOk(s, roles[b], b)
    requires t in s.threads && s.threads[t] == LinkCas(b, h, a) && ThreadOk(s, roles, t)
    ensures OwnOk(s, Goto(s.(head := Some(b)), t, Continue(a)), roles, roles[b := Listed], t, b)
  {
    HoldersUpdate(s.threads, t, Continue(a), b);
  }

  /** Nobody has taken a reference in the meantime: try again. */
  lemma LinkUndoAgainKeeps(s: State, roles: map<Block, Role>, list: seq<Block>, t: Tid, b: Block, h: Option<Block>,
                           a: After)
    requires Inv(s, roles, list) && t in s.threads && s.threads[t] == LinkUndo(b, h, a)
    requires b in s.nodes && s.nodes[b].refs == 1
    ensures b in s.nodes
    ensures Inv(Goto(SetRefs(s, b, Add(s.nodes[b].refs, FLAG - 1)), t, LinkNext(b, h, a)), roles, list)
  {
    assert ThreadOk(s, roles, t) && BlockOk(s, roles[b], b);
    var s' := Goto(SetRefs(s, b, Add(s.nodes[b].refs, FLAG - 1)), t, LinkNext(b, h, a));
    LinkUndoAgainOwn(s, s', roles, t, b, h, a);
    SameChain(s.head, s.nodes, s'.nodes, list, b);
    LocalStep(s, s', roles, roles, list, list, t, b);
  }

  lemma LinkUndoAgainOwn(s: State, s': State, roles: map<Block, Role>, t: Tid, b: Block, h: Option<Block>, a: After)
    requires roles.Keys == s.nodes.Keys && b in s.nodes && BlockOk(s, roles[b], b) && |s.threads| + 2 < FLAG
    requires t in s.threads && s.threads[t] == LinkUndo(b, h, a) && ThreadOk(s, roles, t) && s.nodes[b].refs == 1
    requires s' == Goto(SetRefs(s, b, Add(s.nodes[b].refs, FLAG - 1)), t, LinkNext(b, h, a))
    ensures OwnOk(s, s', roles, roles, t, b)
  {
    HoldersUpdate(s.threads, t, LinkNext(b, h, a), b);
  }

  /** Somebody has: leave the linking to the last of them. */
  lemma LinkUndoLeaveKeeps(s: State, roles: map<Block, Role>, list: seq<Block>, t: Tid, b: Block, h: Option<Block>,
                           a: After)
    requires Inv(s, roles, list) && t in s.threads && s.threads[t] == LinkUndo(b, h, a)
    requires b in s.nodes && s.nodes[b].refs != 1
    ensures b in s.nodes
    ensures Inv(Goto(SetRefs(s, b, Add(s.nodes[b].refs, FLAG - 1)), t, Continue(a)), roles[b := Pending], list)
  {
    assert ThreadOk(s, roles, t) && BlockOk(s, roles[b], b);
    var s' := Goto(SetRefs(s, b, Add(s.nodes[b].refs, FLAG - 1)), t, Continue(a));
    LinkUndoLeaveOwn(s, s', roles, t, b, h, a);
    SameChain(s.head, s.nodes, s'.nodes, list, b);
    LocalStep(s, s', roles, roles[b := Pending], list, list, t, b);
  }

  lemma LinkUndoLeaveOwn(s: State, s': State, roles: map<Block, Role>, t: Tid, b: Block, h: Option<Block>, a: After)
    requires roles.Keys == s.nodes.Keys && b in s.nodes && BlockOk(s, roles[b], b) && |s.threads| + 2 < FLAG
    requires t in s.threads && s.threads[t] == LinkUndo(b, h, a) && ThreadOk(s, roles, t) && s.nodes[b].refs != 1
    requires s' == Goto(SetRefs(s, b, Add(s.nodes[b].refs, FLAG - 1)), t, Continue(a))
    ensures OwnOk(s, s', roles, roles[b := Pending], t, b)
  {
    HoldersBound(s.threads, b);
    HoldersUpdate(s.threads, t, Continue(a), b);
  }

  // ------------------------------------------------------------- steps of try_get

  /** A reference can only be added to a word that counts one already, so never to a block that is being linked. */
  lemma GetPinOkKeeps(s: State, roles: map<Block, Role>, list: seq<Block>, t: Tid, b: Block, refs: int)
    requires Inv(s, roles, list) && t in s.threads && s.threads[t] == GetPin(b, refs)
    requires b in s.nodes && s.nodes[b].refs == refs && Masked(refs) != 0
    ensures b in s.nodes
    ensures Inv(Goto(SetRefs(s, b, Add(refs, 1)), t, GetNext(b)), roles, list)
  {
    assert ThreadOk(s, roles, t) && BlockOk(s, roles[b], b);
    var s' := Goto(SetRefs(s, b, Add(refs, 1)), t, GetNext(b));
    GetPinOkOwn(s, s', roles, t, b, refs);
    SameChain(s.head, s.nodes, s'.nodes, list, b);
    LocalStep(s, s', roles, roles, list, list, t, b);
  }

  lemma GetPinOkOwn(s: State, s': State, roles: map<Block, Role>, t: Tid, b: Block, refs: int)
    requires roles.Keys == s.nodes.Keys && b in s.nodes && BlockOk(s, roles[b], b) && |s.threads| + 2 < FLAG
    requires t in s.threads && s.threads[t] == GetPin(b, refs) && ThreadOk(s, roles, t)
    requires s.nodes[b].refs == refs && Masked(refs) != 0 && s' == Goto(SetRefs(s, b, Add(refs, 1)), t, GetNext(b))
    ensures OwnOk(s, s', roles, roles, t, b)
  {
    HoldersBound(s.threads, b);
    HoldersUpdate(s.threads, t, GetNext(b), b);
  }

  /** The pinned next pointer is still the rest of the list. */
  lemma GetCasOkKeeps(s: State, roles: map<Block, Role>, list: seq<Block>, t: Tid, b: Block, n: Option<Block>)
    requires Inv(s, roles, list) && t in s.threads && s.threads[t] == GetCas(b, n)
    requires s.head == Some(b)
    ensures b in s.nodes && |list| > 0 && list[0] == b
    ensures Inv(Goto(s.(head := n), t, GetTaken(b)), roles[b := Taken(t)], list[1..])
  {
    assert ThreadOk(s, roles, t) && BlockOk(s, roles[b], b);
    ChainPop(s.head, s.nodes, list);
    GetCasOkOwn(s, roles, t, b, n);
    LocalStep(s, Goto(s.(head := n), t, GetTaken(b)), roles, roles[b := Taken(t)], list, list[1..], t, b);
  }

  lemma GetCasOkOwn(s: State, roles: map<Block, Role>, t: Tid, b: Block, n: Option<Block>)
    requires roles.Keys == s.nodes.Keys && b in s.nodes && BlockOk(s, roles[b], b) && roles[b] == Listed
    requires t in s.threads && s.threads[t] == GetCas(b, n) && ThreadOk(s, roles, t)
    ensures OwnOk(s, Goto(s.(head := n), t, GetTaken(b)), roles, roles[b := Taken(t)], t, b)
  {
    HoldersUpdate(s.threads, t, GetTaken(b), b);
  }

  lemma GetTakenKeeps(s: State, roles: map<Block, Role>, list: seq<Block>, t: Tid, b: Block)
    requires Inv(s, roles, list) && t in s.threads && s.threads[t] == GetTaken(b)
    requires b in s.nodes
    ensures b in s.nodes
    ensures Inv(Goto(SetRefs(s, b, Add(s.nodes[b].refs, -2)), t, Idle).(out := s.out + {b}), roles[b := Out], list)
  {
    assert ThreadOk(s, roles, t) && BlockOk(s, roles[b], b);
    var s' := Goto(SetRefs(s, b, Add(s.nodes[b].refs, -2)), t, Idle).(out := s.out + {b});
    GetTakenOwn(s, s', roles, t, b);
    SameChain(s.head, s.nodes, s'.nodes, list, b);
    LocalStep(s, s', roles, roles[b := Out], list, list, t, b);
  }

  lemma GetTakenOwn(s: State, s': State, roles: map<Block, Role>, t: Tid, b: Block)
    requires roles.Keys == s.nodes.Keys && b in s.nodes && BlockOk(s, roles[b], b) && |s.threads| + 2 < FLAG
    requires t in s.threads && s.threads[t] == GetTaken(b) && ThreadOk(s, roles, t)
    requires s' == Goto(SetRefs(s, b, Add(s.nodes[b].refs, -2)), t, Idle).(out := s.out + {b})
    ensures OwnOk(s, s', roles, roles[b := Out], t, b)
  {
    HoldersBound(s.threads, b);
    HoldersUpdate(s.threads, t, Idle, b);
  }

  /** The last reference to a flagged block: this thread links it. */
  lemma UnpinLastKeeps(s: State, roles: map<Block, Role>, list: seq<Block>, t: Tid, b: Block, h: Option<Block>)
    requires Inv(s, roles, list) && t in s.threads && s.threads[t] == GetUnpin(b, h)
    requires b in s.nodes && s.nodes[b].refs == FLAG + 1
    ensures b in s.nodes
    ensures Inv(Goto(SetRefs(s, b, Add(s.nodes[b].refs, -1)), t, LinkHead(b, Resume(h))), roles[b := Linking(t)], list)
  {
    assert ThreadOk(s, roles, t) && BlockOk(s, roles[b], b);
    var s' := Goto(SetRefs(s, b, Add(s.nodes[b].refs, -1)), t, LinkHead(b, Resume(h)));
    UnpinLastOwn(s, s', roles, t, b, h);
    SameChain(s.head, s.nodes, s'.nodes, list, b);
    LocalStep(s, s', roles, roles[b := Linking(t)], list, list, t, b);
  }

  lemma UnpinLastOwn(s: State, s': State, roles: map<Block, Role>, t: Tid, b: Block, h: Option<Block>)
    requires roles.Keys == s.nodes.Keys && b in s.nodes && BlockOk(s, roles[b], b) && |s.threads| + 2 < FLAG
    requires t in s.threads && s.threads[t] == GetUnpin(b, h) && ThreadOk(s, roles, t) && s.nodes[b].refs == FLAG + 1
    requires s' == Goto(SetRefs(s, b, Add(s.nodes[b].refs, -1)), t, LinkHead(b, Resume(h)))
    ensures roles[b] == Pending
    ensures OwnOk(s, s', roles, roles[b := Linking(t)], t, b)
  {
    assert t in Holders(s.threads, b);
    HoldersBound(s.threads, b);
    HoldersUpdate(s.threads, t, LinkHead(b, Resume(h)), b);
  }

  lemma UnpinKeeps(s: State, roles: map<Block, Role>, list: seq<Block>, t: Tid, b: Block, h: Option<Block>)
    requires Inv(s, roles, list) && t in s.threads && s.threads[t] == GetUnpin(b, h)
    requires b in s.nodes && s.nodes[b].refs != FLAG + 1
    ensures b in s.nodes
    ensures Inv(Goto(SetRefs(s, b, Add(s.nodes[b].refs, -1)), t, Continue(Resume(h))), roles, list)
  {
    assert ThreadOk(s, roles, t) && BlockOk(s, roles[b], b);
    var s' := Goto(SetRefs(s, b, Add(s.nodes[b].refs, -1)), t, Continue(Resume(h)));
    UnpinOwn(s, s', roles, t, b, h);
    SameChain(s.head, s.nodes, s'.nodes, list, b);
    LocalStep(s, s', roles, roles, list, list, t, b);
  }

  lemma UnpinOwn(s: State, s': State, roles: map<Block, Role>, t: Tid, b: Block, h: Option<Block>)
    requires roles.Keys == s.nodes.Keys && b in s.nodes && BlockOk(s, roles[b], b) && |s.threads| + 2 < FLAG
    requires t in s.threads && s.threads[t] == GetUnpin(b, h) && ThreadOk(s, roles, t) && s.nodes[b].refs != FLAG + 1
    requires s' == Goto(SetRefs(s, b, Add(s.nodes[b].refs, -1)), t, Continue(Resume(h)))
    ensures OwnOk(s, s', roles, roles, t, b)
  {
    assert t in Holders(s.threads, b);
    HoldersBound(s.threads, b);
    HoldersUpdate(s.threads, t, Continue(Resume(h)), b);
  }

  lemma StartAddKeeps(s: State, roles: map<Block, Role>, list: seq<Block>, t: Tid, b: Block)
    requires Inv(s, roles, list) && t in s.threads && s.threads[t] == Idle && b in s.nodes && b in s.out
    ensures Inv(Goto(s, t, AddFlag(b)).(out := s.out - {b}), roles[b := Adding(t)], list)
  {
    assert BlockOk(s, roles[b], b);
    HoldersUpdate(s.threads, t, AddFlag(b), b);
    LocalStep(s, Goto(s, t, AddFlag(b)).(out := s.out - {b}), roles, roles[b := Adding(t)], list, list, t, b);
  }

  lemma AddFlagAccessKeeps(s: State, roles: map<Block, Role>, list: seq<Block>, t: Tid)
    returns (roles': map<Block, Role>, list': seq<Block>)
    requires Inv(s, roles, list) && t in s.threads && Known(s.threads[t], s.nodes) && s.threads[t].AddFlag?
    ensures Inv(Access(s, t), roles', list')
  {
    var b := s.threads[t].node;
    list' := list;
    if s.nodes[b].refs == 0 {
      AddUnreferencedKeeps(s, roles, list, t, b);
      roles' := roles[b := Linking(t)];
    } else {
      AddReferencedKeeps(s, roles, list, t, b);
      roles' := roles[b := Pending];
    }
  }

  /** Every access inside add_knowing_refcount_is_zero keeps the invariant. */
  lemma LinkAccessKeeps(s: State, roles: map<Block, Role>, list: seq<Block>, t: Tid)
    returns (roles': map<Block, Role>, list': seq<Block>)
    requires Inv(s, roles, list) && t in s.threads && Known(s.threads[t], s.nodes)
    requires IsLinking(s.threads[t])
    ensures Inv(Access(s, t), roles', list')
  {
    roles', list' := roles, list;
    match s.threads[t] {
      case LinkHead(b, a) => ReadKeeps(s, roles, list, t, LinkNext(b, s.head, a));
      case LinkNext(b, h, a) => LinkNextKeeps(s, roles, list, t, b, h, a);
      case LinkRefs(b, h, a) => LinkRefsKeeps(s, roles, list, t, b, h, a);
      case LinkCas(b, h, a) =>
        if s.head == h {
          LinkCasOkKeeps(s, roles, list, t, b, h, a);
          roles', list' := roles[b := Listed], [b] + list;
        } else {
          ReadKeeps(s, roles, list, t, LinkUndo(b, s.head, a));
        }
      case LinkUndo(b, h, a) =>
        if s.nodes[b].refs == 1 {
          LinkUndoAgainKeeps(s, roles, list, t, b, h, a);
        } else {
          LinkUndoLeaveKeeps(s, roles, list, t, b, h, a);
          roles' := roles[b := Pending];
        }
    }
  }

  /** Every other access inside try_get keeps the invariant. */
  lemma GetAccessKeeps(s: State, roles: map<Block, Role>, list: seq<Block>, t: Tid)
    returns (roles': map<Block, Role>, list': seq<Block>)
    requires Inv(s, roles, list) && t in s.threads && Known(s.threads[t], s.nodes)
    requires !s.threads[t].AddFlag? && !IsLinking(s.threads[t]) && !s.threads[t].Idle?
    ensures Inv(Access(s, t), roles', list')
  {
    roles', list' := roles, list;
    match s.threads[t] {
      case GetHead =>
        HeadIsKnown(s, roles, list);
        NoNodeKeeps(s, roles, list, t, Continue(Resume(s.head)));
      case GetRefs(b) => ReadKeeps(s, roles, list, t, Access(s, t).threads[t]);
      case GetPin(b, refs) =>
        if s.nodes[b].refs == refs {
          assert ThreadOk(s, roles, t);
          GetPinOkKeeps(s, roles, list, t, b, refs);
        } else {
          ReadKeeps(s, roles, list, t, GetHead);
        }
      case GetNext(b) => ReadKeeps(s, roles, list, t, GetCas(b, s.nodes[b].next));
      case GetCas(b, n) =>
        if s.head == Some(b) {
          GetCasOkKeeps(s, roles, list, t, b, n);
          roles', list' := roles[b := Taken(t)], list[1..];
        } else {
          ReadKeeps(s, roles, list, t, GetUnpin(b, s.head));
        }
      case GetTaken(b) =>
        GetTakenKeeps(s, roles, list, t, b);
        roles' := roles[b := Out];
      case GetUnpin(b, h) =>
        if s.nodes[b].refs == FLAG + 1 {
          UnpinLastKeeps(s, roles, list, t, b, h);
          roles' := roles[b := Linking(t)];
        } else {
          UnpinKeeps(s, roles, list, t, b, h);
        }
    }
  }

  lemma StepKeeps(s: State, s': State, roles: map<Block, Role>, list: seq<Block>, t: Tid)
    returns (roles': map<Block, Role>, list': seq<Block>)
    requires Inv(s, roles, list) && Step(s, s', t)
    ensures Inv(s', roles', list')
  {
    if s.threads[t].Idle? {
      if s' == Goto(s, t, GetHead) {
        NoNodeKeeps(s, roles, list, t, GetHead);
        roles', list' := roles, list;
      } else {
        var b :| b in s.out && b in s.nodes && s' == Goto(s, t, AddFlag(b)).(out := s.out - {b});
        StartAddKeeps(s, roles, list, t, b);
        roles', list' := roles[b := Adding(t)], list;
      }
    } else if s.threads[t].AddFlag? {
      roles', list' := AddFlagAccessKeeps(s, roles, list, t);
    } else if IsLinking(s.threads[t]) {
      roles', list' := LinkAccessKeeps(s, roles, list, t);
    } else {
      roles', list' := GetAccessKeeps(s, roles, list, t);
    }
  }

  lemma InitHolds(s: State) returns (roles: map<Block, Role>)
    requires Init(s)
    ensures Inv(s, roles, [])
  {
    roles := map b | b in s.nodes :: Out;
    forall b | b in s.nodes ensures BlockOk(s, roles[b], b) {
      assert Holders(s.threads, b) == {};
    }
  }

  lemma StepAtKeeps(run: seq<State>, k: nat, roles: map<Block, Role>, list: seq<Block>)
    returns (roles': map<Block, Role>, list': seq<Block>)
    requires IsRun(run) && 0 < k < |run| && Inv(run[k - 1], roles, list)
    ensures Inv(run[k], roles', list')
  {
    assert StepAt(run, k);
    var t :| Step(run[k - 1], run[k], t);
    roles', list' := StepKeeps(run[k - 1], run[k], roles, list, t);
  }

  lemma {:induction false} InvAt(run: seq<State>, k: nat) returns (roles: map<Block, Role>, list: seq<Block>)
    requires IsRun(run) && k < |run|
    ensures Inv(run[k], roles, list)
  {
    if k == 0 {
      roles := InitHolds(run[0]);
      list := [];
    } else {
      roles, list := InvAt(run, k - 1);
      roles, list := StepAtKeeps(run, k, roles, list);
    }
  }

  /** The invariant holds after every run. */
  lemma RunHolds(run: seq<State>) returns (roles: map<Block, Role>, list: seq<Block>)
    requires IsRun(run)
    ensures Inv(run[|run| - 1], roles, list)
  {
    roles, list := InvAt(run, |run| - 1);
  }

  // ---------------------------------------------------------------------- theorems

  /** The list always ends and never holds a block twice, and no block on it is with a user. */
  lemma ListHoldsNoBlockTwice(run: seq<State>)
    requires IsRun(run)
    ensures var s := run[|run| - 1];
            exists list :: IsChain(s.head, s.nodes, list) && forall b | b in list :: b !in s.out
  {
    var roles, list := RunHolds(run);
    var s := run[|run| - 1];
    assert IsChain(s.head, s.nodes, list);
    forall b | b in list ensures b !in s.out {
      var i :| 0 <= i < |list| && list[i] == b;
      assert IsLink(s.nodes, list, i);
      assert roles[b] == Listed;
    }
  }

  /** A block that try_get is about to return is with nobody else: no user, no other thread, and not flagged. */
  lemma TryGetGivesToOne(run: seq<State>, t: Tid)
    requires IsRun(run) && var s := run[|run| - 1]; t in s.threads && s.threads[t].GetTaken?
    ensures var s := run[|run| - 1]; var b := s.threads[t].node;
            && b in s.nodes && b !in s.out && 2 <= s.nodes[b].refs < FLAG
            && (exists list :: IsChain(s.head, s.nodes, list) && b !in list)
            && forall t' | t' in s.threads && t' != t && HasNode(s.threads[t']) && s.threads[t'].node == b ::
                 !s.threads[t'].GetTaken? && !s.threads[t'].AddFlag? && !IsLinking(s.threads[t'])
  {
    var roles, list := RunHolds(run);
    var s := run[|run| - 1];
    var b := s.threads[t].node;
    assert ThreadOk(s, roles, t) && BlockOk(s, roles[b], b);
    HoldersBound(s.threads, b);
    assert IsChain(s.head, s.nodes, list) && b !in list;
    forall t' | t' in s.threads && t' != t && HasNode(s.threads[t']) && s.threads[t'].node == b
      ensures !s.threads[t'].GetTaken? && !s.threads[t'].AddFlag? && !IsLinking(s.threads[t'])
    {
      assert ThreadOk(s, roles, t');
    }
  }

  lemma OnlyLinkerChangesNext(s: State, s': State, u: Tid, b: Block)
    requires Step(s, s', u) && b in s.nodes
    ensures b in s'.nodes && (s'.nodes[b].next == s.nodes[b].next || (s.threads[u].LinkNext? && s.threads[u].node == b))
  {
  }

  /** While a thread holds a reference, no step of any thread changes the block's next pointer. */
  lemma ReferencePinsNext(run: seq<State>, s': State, t: Tid, u: Tid, b: Block)
    requires IsRun(run) && var s := run[|run| - 1]; Step(s, s', u) && t in s.threads && Pins(s.threads[t], b)
    ensures var s := run[|run| - 1]; b in s.nodes && b in s'.nodes && s'.nodes[b].next == s.nodes[b].next
  {
    var roles, list := RunHolds(run);
    var s := run[|run| - 1];
    assert ThreadOk(s, roles, t) && ThreadOk(s, roles, u) && BlockOk(s, roles[b], b);
    assert t in Holders(s.threads, b);
    OnlyLinkerChangesNext(s, s', u, b);
  }

  /** When no operation is in flight, the list holds exactly the blocks that are with no user. */
  lemma NoBlockIsLost(run: seq<State>)
    requires IsRun(run) && var s := run[|run| - 1]; forall t | t in s.threads :: s.threads[t] == Idle
    ensures var s := run[|run| - 1];
            exists list :: IsChain(s.head, s.nodes, list) && forall b | b in s.nodes :: b in list <==> b !in s.out
  {
    var roles, list := RunHolds(run);
    var s := run[|run| - 1];
    assert IsChain(s.head, s.nodes, list);
    forall b | b in s.nodes ensures b in list <==> b !in s.out {
      assert BlockOk(s, roles[b], b);
      assert Holders(s.threads, b) == {};
    }
  }

  /**
   The addition of the access at pc neither carries into the flag of the word nor borrows from it,
   and sets a flag only once.
   */
  predicate InRange(pc: Pc, refs: int) {
    match pc
    case AddFlag(_) => 0 <= refs < FLAG
    case LinkUndo(_, _, _) => 1 <= refs < FLAG
    case GetPin(_, expected) => refs == expected ==> 1 <= Masked(refs) && Masked(refs) + 1 < FLAG
    case GetTaken(_) => 2 <= refs < FLAG
    case GetUnpin(_, _) => 1 <= Masked(refs)
    case _ => 0 <= refs < WORD
  }

  /** No 32-bit addition or subtraction of the free list wraps. */
  lemma WordsStayInRange(run: seq<State>, t: Tid)
    requires IsRun(run) && var s := run[|run| - 1]; t in s.threads && HasNode(s.threads[t])
    ensures var s := run[|run| - 1];
            Known(s.threads[t], s.nodes) && InRange(s.threads[t], s.nodes[s.threads[t].node].refs)
  {
    var roles, list := RunHolds(run);
    var s := run[|run| - 1];
    assert ThreadOk(s, roles, t);
    AccessInRange(s, roles, t, s.threads[t].node);
  }

  lemma AccessInRange(s: State, roles: map<Block, Role>, t: Tid, b: Block)
    requires roles.Keys == s.nodes.Keys && t in s.threads && ThreadOk(s, roles, t) && HasNode(s.threads[t])
    requires s.threads[t].node == b
    requires |s.threads| + 2 < FLAG && b in s.nodes && BlockOk(s, roles[b], b)
    ensures InRange(s.threads[t], s.nodes[b].refs)
  {
    HoldersBound(s.threads, b);
    if s.threads[t].GetUnpin? {
      assert t in Holders(s.threads, b);
    } else if s.threads[t].GetPin? {
      NonHolderBound(s.threads, t, b);
    }
  }

  lemma NonHolderBound(threads: map<Tid, Pc>, t: Tid, b: Block)
    requires t in threads && !Pins(threads[t], b)
    ensures |Holders(threads, b)| < |threads|
  {
    assert Holders(threads, b) <= threads.Keys - {t};
    SubsetSize(Holders(threads, b), threads.Keys - {t});
    SizeWithout(threads.Keys, t);
  }

  // ------------------------------------------------------------ what a thread achieves

  /** Thread t is inside a call of try_get. */
  predicate InTryGet(pc: Pc) {
    || pc.GetHead? || pc.GetRefs? || pc.GetPin? || pc.GetNext? || pc.GetCas? || pc.GetTaken? || pc.GetUnpin?
    || (IsLinking(pc) && pc.after.Resume?)
  }

  /** The head that the thread has read last was null, and it goes on with that. */
  predicate HasReadNull(pc: Pc) {
    (pc.GetUnpin? && pc.newHead == None) || (IsLinking(pc) && pc.after == Resume(None))
  }

  /** Since state j, when the list was empty, the thread has been inside one call of try_get. */
  ghost predicate EmptySince(run: seq<State>, j: nat, k: nat, t: Tid) {
    && j <= k < |run| && run[j].head == None
    && forall i | j <= i <= k :: t in run[i].threads && InTryGet(run[i].threads[t])
  }

  lemma NullIsReadThen(s: State, s': State, u: Tid, t: Tid)
    requires Step(s, s', u) && t in s'.threads && HasReadNull(s'.threads[t])
    ensures t in s.threads && InTryGet(s.threads[t]) && InTryGet(s'.threads[t])
    ensures HasReadNull(s.threads[t]) || s.head == None
  {
  }

  lemma {:induction false} NullWasRead(run: seq<State>, k: nat, t: Tid) returns (j: nat)
    requires IsRun(run) && k < |run| && t in run[k].threads && HasReadNull(run[k].threads[t])
    ensures EmptySince(run, j, k, t)
  {
    if k > 0 {
      var u := StepsAt(run, k);
      NullIsReadThen(run[k - 1], run[k], u, t);
      if HasReadNull(run[k - 1].threads[t]) {
        j := NullWasRead(run, k - 1, t);
      } else {
        j := k - 1;
      }
    }
  }

  lemma StepsAt(run: seq<State>, k: nat) returns (u: Tid)
    requires IsRun(run) && 0 < k < |run|
    ensures Step(run[k - 1], run[k], u)
  {
    assert StepAt(run, k);
    u :| Step(run[k - 1], run[k], u);
  }

  /** A call of try_get that ends without a block has found the list empty: at some moment during the call it was. */
  lemma NullMeansEmpty(run: seq<State>, s': State, t: Tid) returns (j: nat)
    requires IsRun(run) && Step(run[|run| - 1], s', t) && t in s'.threads && s'.threads[t].Idle?
    requires var pc := run[|run| - 1].threads[t]; InTryGet(pc) && !pc.GetTaken?
    ensures EmptySince(run, j, |run| - 1, t)
  {
    if run[|run| - 1].threads[t].GetHead? {
      j := |run| - 1;
    } else {
      j := NullWasRead(run, |run| - 1, t);
    }
  }

  ghost predicate AloneAt(path: seq<State>, i: nat, t: Tid)
    requires 0 < i < |path|
  {
    Step(path[i - 1], path[i], t)
  }

  /** The states that thread t goes through when it steps alone. */
  ghost predicate Alone(path: seq<State>, t: Tid) {
    |path| > 0 && forall i | 0 < i < |path| :: AloneAt(path, i, t)
  }

  lemma GoesOn(path: seq<State>, s': State, t: Tid)
    requires Alone(path, t) && Step(path[|path| - 1], s', t)
    ensures Alone(path + [s'], t)
  {
    var more := path + [s'];
    forall i | 0 < i < |more| ensures AloneAt(more, i, t) {
      if i < |path| {
        assert AloneAt(path, i, t);
      }
    }
  }

  /** No operation is in flight. */
  predicate AtRest(s: State) {
    forall t | t in s.threads :: s.threads[t] == Idle
  }

  lemma AtRestRefs(run: seq<State>, b: Block)
    requires IsRun(run) && AtRest(run[|run| - 1]) && b in run[|run| - 1].nodes
    ensures var s := run[|run| - 1];
            s.nodes[b].refs == (if b in s.out then 0 else 1) && (s.head == Some(b) ==> b !in s.out)
  {
    var roles, list := RunHolds(run);
    var s := run[|run| - 1];
    assert BlockOk(s, roles[b], b);
    assert Holders(s.threads, b) == {};
    if s.head == Some(b) {
      assert list[0] in list;
    }
  }

  lemma GotoTwice(s: State, t: Tid, pc: Pc, pc': Pc)
    ensures Goto(Goto(s, t, pc), t, pc') == Goto(s, t, pc')
  {
    assert s.threads[t := pc][t := pc'] == s.threads[t := pc'];
  }

  /** The first half of try_get, up to the reference. */
  lemma PinAlone(s: State, t: Tid, b: Block) returns (path: seq<State>)
    requires t in s.threads && s.threads[t] == Idle && s.head == Some(b) && b in s.nodes && s.nodes[b].refs == 1
    ensures Alone(path, t) && |path| == 5 && path[0] == s && path[4] == Goto(SetRefs(s, b, 2), t, GetNext(b))
  {
    GotoTwice(s, t, GetHead, GetRefs(b));
    GotoTwice(s, t, GetRefs(b), GetPin(b, 1));
    GotoTwice(SetRefs(s, b, 2), t, GetPin(b, 1), GetNext(b));
    path := [s];
    GoesOn(path, Goto(s, t, GetHead), t);
    path := path + [Goto(s, t, GetHead)];
    GoesOn(path, Goto(s, t, GetRefs(b)), t);
    path := path + [Goto(s, t, GetRefs(b))];
    GoesOn(path, Goto(s, t, GetPin(b, 1)), t);
    path := path + [Goto(s, t, GetPin(b, 1))];
    GoesOn(path, Goto(SetRefs(s, b, 2), t, GetNext(b)), t);
    path := path + [Goto(SetRefs(s, b, 2), t, GetNext(b))];
  }

  /** The state after t alone has taken block b from the head of the list. */
  function AfterTake(s: State, b: Block): State
    requires b in s.nodes
  {
    s.(head := s.nodes[b].next, nodes := s.nodes[b := s.nodes[b].(refs := 0)], out := s.out + {b})
  }

  /** The second half. */
  lemma TakeAlone(s: State, t: Tid, b: Block, pinned: seq<State>) returns (path: seq<State>)
    requires t in s.threads && s.threads[t] == Idle && s.head == Some(b) && b in s.nodes
    requires Alone(pinned, t) && pinned[|pinned| - 1] == Goto(SetRefs(s, b, 2), t, GetNext(b))
    ensures Alone(path, t) && |path| == |pinned| + 3 && path[0] == pinned[0] && path[|pinned| + 2] == AfterTake(s, b)
  {
    var n := s.nodes[b].next;
    var p := SetRefs(s, b, 2);
    var q := p.(head := n);
    GotoTwice(p, t, GetNext(b), GetCas(b, n));
    GotoTwice(q, t, GetCas(b, n), GetTaken(b));
    assert s.nodes[b := s.nodes[b].(refs := 2)][b := s.nodes[b].(refs := 0)] == s.nodes[b := s.nodes[b].(refs := 0)];
    assert s.threads[t := GetTaken(b)][t := Idle] == s.threads;
    path := pinned;
    GoesOn(path, Goto(p, t, GetCas(b, n)), t);
    path := path + [Goto(p, t, GetCas(b, n))];
    GoesOn(path, Goto(q, t, GetTaken(b)), t);
    path := path + [Goto(q, t, GetTaken(b))];
    GoesOn(path, AfterTake(s, b), t);
    path := path + [AfterTake(s, b)];
  }

  /**
   From every reachable state without other operations in flight, try_get returns the first block of the
   list: a thread that makes seven steps alone has it, and the rest of the list is as it was.
   */
  lemma TryGetSucceedsAlone(run: seq<State>, t: Tid) returns (path: seq<State>)
    requires IsRun(run) && AtRest(run[|run| - 1]) && t in run[|run| - 1].threads && run[|run| - 1].head.Some?
    ensures var s := run[|run| - 1]; s.head.value in s.nodes && s.head.value !in s.out
    ensures var s := run[|run| - 1];
            Alone(path, t) && |path| == 8 && path[0] == s && path[7] == AfterTake(s, s.head.value)
  {
    var s := run[|run| - 1];
    var roles, list := RunHolds(run);
    HeadIsKnown(s, roles, list);
    AtRestRefs(run, s.head.value);
    path := PinAlone(s, t, s.head.value);
    path := TakeAlone(s, t, s.head.value, path);
  }

  /** From an empty list, it comes back with nothing, and has changed nothing. */
  lemma TryGetOfEmpty(s: State, t: Tid) returns (path: seq<State>)
    requires t in s.threads && s.threads[t] == Idle && s.head == None
    ensures Alone(path, t) && |path| == 3 && path[0] == path[2] == s
  {
    assert s.threads[t := GetHead][t := Idle] == s.threads;
    path := [s];
    GoesOn(path, Goto(s, t, GetHead), t);
    path := path + [Goto(s, t, GetHead)];
    GoesOn(path, s, t);
    path := path + [s];
  }

  /** The state after t alone has put block b at the head of the list. */
  function AfterAdd(s: State, b: Block): State {
    s.(head := Some(b), nodes := s.nodes[b := Node(1, s.head)], out := s.out - {b})
  }

  /** Block b is on its way to the list, in the hands of t. */
  function WithNode(s: State, t: Tid, b: Block, node: Node, pc: Pc): State {
    Goto(s, t, pc).(nodes := s.nodes[b := node], out := s.out - {b})
  }

  lemma WithNodeTwice(s: State, t: Tid, b: Block, node: Node, pc: Pc, node': Node, pc': Pc)
    ensures Goto(WithNode(s, t, b, node, pc), t, pc').(nodes := WithNode(s, t, b, node, pc).nodes[b := node'])
         == WithNode(s, t, b, node', pc')
  {
    assert s.threads[t := pc][t := pc'] == s.threads[t := pc'];
    assert s.nodes[b := node][b := node'] == s.nodes[b := node'];
  }

  /** The first half of add. */
  lemma FlagAlone(s: State, t: Tid, b: Block) returns (path: seq<State>)
    requires t in s.threads && s.threads[t] == Idle && b in s.nodes && b in s.out && s.nodes[b].refs == 0
    ensures Alone(path, t) && |path| == 4 && path[0] == s
    ensures path[3] == WithNode(s, t, b, Node(FLAG, s.nodes[b].next), LinkNext(b, s.head, Finish))
  {
    var flagged := Node(FLAG, s.nodes[b].next);
    assert s.nodes[b := s.nodes[b]] == s.nodes;
    WithNodeTwice(s, t, b, s.nodes[b], AddFlag(b), flagged, LinkHead(b, Finish));
    WithNodeTwice(s, t, b, flagged, LinkHead(b, Finish), flagged, LinkNext(b, s.head, Finish));
    path := [s];
    GoesOn(path, WithNode(s, t, b, s.nodes[b], AddFlag(b)), t);
    path := path + [WithNode(s, t, b, s.nodes[b], AddFlag(b))];
    GoesOn(path, WithNode(s, t, b, flagged, LinkHead(b, Finish)), t);
    path := path + [WithNode(s, t, b, flagged, LinkHead(b, Finish))];
    GoesOn(path, WithNode(s, t, b, flagged, LinkNext(b, s.head, Finish)), t);
    path := path + [WithNode(s, t, b, flagged, LinkNext(b, s.head, Finish))];
  }

  /** The second half. */
  lemma LinkAlone(s: State, t: Tid, b: Block, next: Option<Block>, flagged: seq<State>) returns (path: seq<State>)
    requires t in s.threads && s.threads[t] == Idle && b in s.nodes && Alone(flagged, t)
    requires flagged[|flagged| - 1] == WithNode(s, t, b, Node(FLAG, next), LinkNext(b, s.head, Finish))
    ensures Alone(path, t) && |path| == |flagged| + 3 && path[0] == flagged[0] && path[|flagged| + 2] == AfterAdd(s, b)
  {
    var linked, counted := Node(FLAG, s.head), Node(1, s.head);
    var s1 := WithNode(s, t, b, linked, LinkRefs(b, s.head, Finish));
    var s2 := WithNode(s, t, b, counted, LinkCas(b, s.head, Finish));
    WithNodeTwice(s, t, b, Node(FLAG, next), LinkNext(b, s.head, Finish), linked, LinkRefs(b, s.head, Finish));
    WithNodeTwice(s, t, b, linked, LinkRefs(b, s.head, Finish), counted, LinkCas(b, s.head, Finish));
    assert s.threads[t := LinkCas(b, s.head, Finish)][t := Idle] == s.threads;
    path := flagged;
    GoesOn(path, s1, t);
    path := path + [s1];
    GoesOn(path, s2, t);
    path := path + [s2];
    GoesOn(path, AfterAdd(s, b), t);
    path := path + [AfterAdd(s, b)];
  }

  /** And add puts a block at the front: six steps alone. */
  lemma AddSucceedsAlone(run: seq<State>, t: Tid, b: Block) returns (path: seq<State>)
    requires IsRun(run) && AtRest(run[|run| - 1]) && t in run[|run| - 1].threads
    requires b in run[|run| - 1].out && b in run[|run| - 1].nodes
    ensures var s := run[|run| - 1]; Alone(path, t) && |path| == 7 && path[0] == s && path[6] == AfterAdd(s, b)
  {
    var s := run[|run| - 1];
    AtRestRefs(run, b);
    path := FlagAlone(s, t, b);
    path := LinkAlone(s, t, b, s.nodes[b].next, path);
  }
}

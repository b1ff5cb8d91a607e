/** The lock-free queue of `mpsc_queue_t`: any number of producers, one consumer, and the
    queue object itself re-inserted as a stub node.  Every shared memory access is one step.

    A push is three accesses: clear the item's link, exchange the back pointer, write the link
    of the node that was at the back.  Between the last two, the chain is broken at that node.
    `chain` lists the live nodes in exchange order, `successor` gives each of them but the last
    the node exchanged right after it, and `owner` maps a node whose link is still unwritten
    to the one actor that will write it. */
module MpscQueue {

  type Addr = nat

  const NULL: Addr := 0

  /** The address of the queue object, which is a node of its own chain. */
  const STUB: Addr := 1

  datatype Actor = Consumer | Producer(id: nat)

  datatype ProducerPc =
    | Cleared(item: Addr)
    | Linking(item: Addr, prev: Addr)

  /** Where the consumer stands inside `pop`; `Resting` is between two calls. */
  datatype ConsumerPc =
    | Resting
    | TestStub
    | ReadStub
    | ClearStub
    | ReadNext
    | CheckBack
    | ExchangeSelf
    | LinkSelf(prev: Addr)
    | ReadAgain
    | ClearNode(node: Addr)

  datatype State = State(
    next: map<Addr, Addr>,
    front: Addr,
    back: Addr,
    producers: map<nat, ProducerPc>,
    consumer: ConsumerPc,
    chain: seq<Addr>,
    successor: map<Addr, Addr>,
    owner: map<Addr, Actor>,
    stalled: bool)

  datatype Label =
    | Clear(producer: nat, item: Addr)
    | Exchange(producer: nat)
    | Link(producer: nat)
    | Consume

  /** What a step of the consumer hands to the caller of `pop`. */
  datatype Outcome = Running | Nothing | Node(node: Addr)

  const INITIAL: State :=
    State(map[], STUB, STUB, map[], Resting, [STUB], map[], map[], false)

  function Load(next: map<Addr, Addr>, node: Addr): Addr {
    if node in next then next[node] else NULL
  }

  /** The queue's abstract contents: the live chain without the stub. */
  function Items(chain: seq<Addr>): seq<Addr> {
    if chain == [] then []
    else (if chain[0] == STUB then [] else [chain[0]]) + Items(chain[1..])
  }

  /** The queue is empty, or the exchange right behind the front node is not linked yet. */
  predicate Blocked(s: State) {
    BlockedBehind(s.front, s.back, s.owner)
  }

  predicate BlockedBehind(front: Addr, back: Addr, owner: map<Addr, Actor>) {
    (front == STUB && back == STUB) || (front in owner && owner[front].Producer?)
  }

  /** `item` is still reachable by the queue or by some actor, so no caller owns it. */
  predicate Busy(s: State, item: Addr) {
    || item in s.chain
    || s.consumer == ClearNode(item)
    || exists p | p in s.producers :: s.producers[p] == Cleared(item)
  }

  predicate Enabled(s: State, l: Label) {
    match l
    case Clear(p, item) => p !in s.producers && item != NULL && item != STUB && !Busy(s, item)
    case Exchange(p) => p in s.producers && s.producers[p].Cleared?
    case Link(p) => p in s.producers && s.producers[p].Linking?
    case Consume => true
  }

  function ClearItem(s: State, p: nat, item: Addr): State {
    s.(next := s.next[item := NULL], producers := s.producers[p := Cleared(item)])
  }

  /** Exchanges the back pointer for `node`; `actor` is left to link it to the old back. */
  function Append(s: State, node: Addr, actor: Actor): State {
    s.(back := node,
       chain := s.chain + [node],
       successor := s.successor[s.back := node],
       owner := s.owner[s.back := actor])
  }

  function ExchangeItem(s: State, p: nat): State
    requires p in s.producers && s.producers[p].Cleared?
  {
    var item := s.producers[p].item;
    Append(s, item, Producer(p)).(producers := s.producers[p := Linking(item, s.back)])
  }

  function WriteLink(s: State, prev: Addr, node: Addr): State {
    s.(next := s.next[prev := node], owner := s.owner - {prev})
  }

  function LinkItem(s: State, p: nat): State
    requires p in s.producers && s.producers[p].Linking?
  {
    var Linking(item, prev) := s.producers[p];
    WriteLink(s, prev, item).(producers := s.producers - {p})
  }

  /** The consumer moves `front` on to `next`. */
  function Advance(s: State, next: Addr, pc: ConsumerPc): State {
    s.(front := next,
       consumer := pc,
       chain := if s.chain == [] then [] else s.chain[1..])
  }

  /** One access of `pop`, or of the `push_self` it calls. */
  function ConsumerStep(s: State): (t: State)
    ensures t.producers == s.producers
  {
    match s.consumer
    case Resting =>
      s.(consumer := if s.front == STUB then TestStub else ReadNext, stalled := false)
    case TestStub =>
      s.(consumer := if Load(s.next, STUB) == NULL then Resting else ReadStub)
    case ReadStub =>
      Advance(s, Load(s.next, STUB), ClearStub)
    case ClearStub =>
      s.(next := s.next[STUB := NULL], consumer := ReadNext)
    case ReadNext =>
      var next := Load(s.next, s.front);
      if next != NULL then Advance(s, next, ClearNode(s.front)) else s.(consumer := CheckBack)
    case CheckBack =>
      s.(consumer := if s.front != s.back then Resting else ExchangeSelf)
    case ExchangeSelf =>
      Append(s, STUB, Consumer).(consumer := LinkSelf(s.back))
    case LinkSelf(prev) =>
      WriteLink(s, prev, STUB).(consumer := ReadAgain)
    case ReadAgain =>
      var next := Load(s.next, s.front);
      if next != NULL then Advance(s, next, ClearNode(s.front)) else s.(consumer := Resting)
    case ClearNode(node) =>
      s.(next := s.next[node := NULL], consumer := Resting)
  }

  /** What `pop` returns at this access, if it returns. */
  function ConsumerOutcome(s: State): Outcome {
    match s.consumer
    case TestStub => if Load(s.next, STUB) == NULL then Nothing else Running
    case CheckBack => if s.front != s.back then Nothing else Running
    case ReadAgain => if Load(s.next, s.front) == NULL then Nothing else Running
    case ClearNode(node) => Node(node)
    case _ => Running
  }

  function Move(s: State, l: Label): State
    requires Enabled(s, l)
  {
    match l
    case Clear(p, item) => ClearItem(s, p, item)
    case Exchange(p) => ExchangeItem(s, p)
    case Link(p) => LinkItem(s, p)
    case Consume => ConsumerStep(s)
  }

  /** A step, followed by the note whether the running `pop` has seen a blocked moment. */
  function Apply(s: State, l: Label): State
    requires Enabled(s, l)
  {
    var t := Move(s, l);
    t.(stalled := t.stalled || Blocked(t))
  }

  // ----- the invariant

  /** The nodes of `chain` are distinct and `successor` leads from each to the next. */
  ghost predicate Path(chain: seq<Addr>, successor: map<Addr, Addr>) {
    |chain| >= 2 ==>
      && chain[0] in successor && successor[chain[0]] == chain[1]
      && chain[0] !in chain[1..]
      && Path(chain[1..], successor)
  }

  ghost predicate ChainInv(chain: seq<Addr>, successor: map<Addr, Addr>, front: Addr, back: Addr) {
    && chain != []
    && front == chain[0]
    && back == chain[|chain| - 1]
    && NULL !in chain
    && Path(chain, successor)
  }

  ghost predicate LinkInv(chain: seq<Addr>, successor: map<Addr, Addr>, back: Addr,
                          next: map<Addr, Addr>, owner: map<Addr, Actor>) {
    && (forall n | n in owner :: n in chain && n != back && n in successor)
    && (forall n | n in chain && n != back ::
          n in successor && Load(next, n) == if n in owner then NULL else successor[n])
    && Load(next, back) == NULL
  }

  ghost predicate ClearedInv(producers: map<nat, ProducerPc>, chain: seq<Addr>,
                             next: map<Addr, Addr>) {
    && (forall p | p in producers && producers[p].Cleared? ::
          var item := producers[p].item;
          item != NULL && item != STUB && item !in chain && Load(next, item) == NULL)
    && (forall p, q | p in producers && q in producers && p != q &&
          producers[p].Cleared? && producers[q].Cleared? ::
          producers[p].item != producers[q].item)
  }

  ghost predicate LinkingInv(producers: map<nat, ProducerPc>, owner: map<Addr, Actor>,
                             successor: map<Addr, Addr>) {
    forall p | p in producers && producers[p].Linking? ::
      var Linking(item, prev) := producers[p];
      prev in owner && owner[prev] == Producer(p)
      && prev in successor && successor[prev] == item
  }

  ghost predicate OwnerInv(owner: map<Addr, Actor>, producers: map<nat, ProducerPc>,
                           consumer: ConsumerPc) {
    forall n | n in owner ::
      match owner[n]
      case Consumer => consumer == LinkSelf(n)
      case Producer(p) => p in producers && producers[p].Linking? && producers[p].prev == n
  }

  ghost predicate StubInv(chain: seq<Addr>, next: map<Addr, Addr>, consumer: ConsumerPc) {
    STUB !in chain && consumer != ClearStub ==> Load(next, STUB) == NULL
  }

  ghost predicate ConsumerInv(s: State) {
    match s.consumer
    case Resting => true
    case TestStub => s.front == STUB
    case ReadStub => s.front == STUB && Load(s.next, STUB) != NULL
    case ClearStub => STUB !in s.chain
    case ReadNext => s.front != STUB
    case CheckBack => s.front != STUB && (s.front == s.back || s.stalled)
    case ExchangeSelf => s.front != STUB && STUB !in s.chain
    case LinkSelf(prev) =>
      && s.front != STUB
      && prev in s.owner && s.owner[prev] == Consumer
      && prev in s.successor && s.successor[prev] == STUB
    case ReadAgain => s.front != STUB && s.front != s.back
    case ClearNode(node) => HeldInv(s.producers, s.chain, node)
  }

  /** The node a `pop` is about to return belongs to nobody else. */
  ghost predicate HeldInv(producers: map<nat, ProducerPc>, chain: seq<Addr>, node: Addr) {
    && node != NULL && node != STUB && node !in chain
    && forall p | p in producers :: producers[p] != Cleared(node)
  }

  /** In the middle of a `pop`, `stalled` covers at least the present moment. */
  ghost predicate StallInv(s: State) {
    s.consumer != Resting && Blocked(s) ==> s.stalled
  }

  ghost predicate Structure(s: State) {
    && ChainInv(s.chain, s.successor, s.front, s.back)
    && LinkInv(s.chain, s.successor, s.back, s.next, s.owner)
  }

  ghost predicate MemoryInv(s: State) {
    Structure(s) && ClearedInv(s.producers, s.chain, s.next)
  }

  ghost predicate PendingInv(s: State) {
    && LinkingInv(s.producers, s.owner, s.successor)
    && OwnerInv(s.owner, s.producers, s.consumer)
  }

  ghost predicate ReaderInv(s: State) {
    StubInv(s.chain, s.next, s.consumer) && ConsumerInv(s) && StallInv(s)
  }

  ghost predicate Inv(s: State) {
    MemoryInv(s) && PendingInv(s) && ReaderInv(s)
  }

  // ----- each step keeps the invariant

  lemma {:induction false} PathAppend(chain: seq<Addr>, successor: map<Addr, Addr>, node: Addr)
    requires chain != [] && Path(chain, successor) && node !in chain
    ensures Path(chain + [node], successor[chain[|chain| - 1] := node])
  {
    var longer := chain + [node];
    if |chain| == 1 {
      assert longer[1..] == [node];
    } else {
      assert longer[1..] == chain[1..] + [node];
      PathAppend(chain[1..], successor, node);
    }
  }

  lemma AppendKeepsChain(s: State, node: Addr, actor: Actor)
    requires Structure(s)
    requires node != NULL && node !in s.chain && Load(s.next, node) == NULL
    ensures Structure(Append(s, node, actor))
  {
    PathAppend(s.chain, s.successor, node);
  }

  lemma AdvanceKeepsChain(s: State, next: Addr, pc: ConsumerPc)
    requires Structure(s) && next == Load(s.next, s.front) != NULL
    ensures s.front !in s.owner && s.front !in s.chain[1..]
    ensures Structure(Advance(s, next, pc))
  {
    assert s.chain == [s.front] + s.chain[1..];
  }

  lemma ClearKeepsMemory(s: State, p: nat, item: Addr, t: State)
    requires MemoryInv(s) && Enabled(s, Clear(p, item)) && t == Apply(s, Clear(p, item))
    ensures MemoryInv(t)
  {
  }

  lemma ClearKeepsRest(s: State, p: nat, item: Addr, t: State)
    requires Inv(s) && Enabled(s, Clear(p, item)) && t == Apply(s, Clear(p, item))
    ensures PendingInv(t) && ReaderInv(t)
  {
    hide Path, Items;
  }

  lemma ExchangeKeepsMemory(s: State, p: nat, t: State)
    requires Inv(s) && Enabled(s, Exchange(p)) && t == Apply(s, Exchange(p))
    ensures MemoryInv(t)
  {
    hide BlockedBehind, ChainInv, LinkInv, Busy, PendingInv, ReaderInv, Path, Items;
    AppendKeepsChain(s, s.producers[p].item, Producer(p));
  }

  lemma ExchangeKeepsPending(s: State, p: nat, t: State)
    requires PendingInv(s) && s.back !in s.owner
    requires Enabled(s, Exchange(p)) && t == Apply(s, Exchange(p))
    ensures PendingInv(t)
  {
    hide Busy;
  }

  lemma ExchangeKeepsReader(s: State, p: nat, t: State)
    requires Inv(s) && Enabled(s, Exchange(p)) && t == Apply(s, Exchange(p))
    ensures ReaderInv(t)
  {
    hide Path, Items, Busy, LinkingInv, OwnerInv;
  }

  lemma LinkKeepsMemory(s: State, p: nat, t: State)
    requires Inv(s) && Enabled(s, Link(p)) && t == Apply(s, Link(p))
    ensures MemoryInv(t)
  {
    hide BlockedBehind, Path, Items, Busy, OwnerInv, ReaderInv;
  }

  lemma LinkKeepsPending(s: State, p: nat, t: State)
    requires Inv(s) && Enabled(s, Link(p)) && t == Apply(s, Link(p))
    ensures PendingInv(t)
  {
    hide BlockedBehind, Busy, MemoryInv, ReaderInv;
  }

  lemma LinkKeepsReader(s: State, p: nat, t: State)
    requires Inv(s) && Enabled(s, Link(p)) && t == Apply(s, Link(p))
    ensures ReaderInv(t)
  {
  }

  /** The consumer only moves its program counter. */
  predicate IsBranch(s: State) {
    || s.consumer.Resting? || s.consumer.TestStub? || s.consumer.CheckBack?
    || ((s.consumer.ReadNext? || s.consumer.ReadAgain?) && Load(s.next, s.front) == NULL)
  }

  /** The consumer moves `front` on. */
  predicate IsAdvance(s: State) {
    || s.consumer.ReadStub?
    || ((s.consumer.ReadNext? || s.consumer.ReadAgain?) && Load(s.next, s.front) != NULL)
  }

  lemma BranchMoves(s: State, t: State)
    requires t == ConsumerStep(s) && IsBranch(s)
    ensures t == s.(consumer := t.consumer, stalled := t.stalled)
    ensures t.consumer != ClearStub && !t.consumer.LinkSelf? && !s.consumer.LinkSelf? && s.consumer != ClearStub
  {
    hide Append, WriteLink, Advance, Load;
  }

  lemma BranchShape(s: State, t: State)
    requires t == Apply(s, Consume) && IsBranch(s)
    ensures t == s.(consumer := t.consumer, stalled := t.stalled)
    ensures t.consumer != ClearStub && !t.consumer.LinkSelf? && !s.consumer.LinkSelf? && s.consumer != ClearStub
  {
    BranchMoves(s, ConsumerStep(s));
    hide BlockedBehind, ConsumerStep, IsBranch, Busy;
  }

  /** An unlinked front that is not the last node waits for a producer. */
  lemma FrontUnlinked(s: State)
    requires MemoryInv(s) && PendingInv(s) && !s.consumer.LinkSelf?
    requires Load(s.next, s.front) == NULL && s.front != s.back
    ensures Blocked(s)
  {
    assert s.front in s.chain;
  }

  lemma SingleNode(s: State)
    requires MemoryInv(s) && s.front == s.back
    ensures forall n :: n in s.chain <==> n == s.front
  {
  }

  lemma BranchKeepsReader(s: State, t: State)
    requires ReaderInv(s) && t == Apply(s, Consume) && IsBranch(s)
    requires Load(s.next, s.front) == NULL ==> s.front == s.back || Blocked(s)
    requires s.front == s.back && s.front != STUB ==> STUB !in s.chain
    ensures ReaderInv(t)
  {
    BranchShape(s, t);
    assert Blocked(t) == Blocked(s);
  }

  lemma AdvanceShape(s: State, t: State)
    requires t == Apply(s, Consume) && IsAdvance(s)
    ensures t == Advance(s, Load(s.next, s.front), t.consumer).(stalled := t.stalled)
    ensures t.consumer == if s.consumer.ReadStub? then ClearStub else ClearNode(s.front)
    ensures t.stalled == (s.stalled || Blocked(t))
    requires s.consumer.ReadStub? ==> s.front == STUB
  {
  }

  lemma AdvanceKeepsMemory(s: State, t: State)
    requires MemoryInv(s) && Load(s.next, s.front) != NULL
    requires t == Advance(s, Load(s.next, s.front), t.consumer).(stalled := t.stalled)
    ensures MemoryInv(t)
  {
    AdvanceKeepsChain(s, Load(s.next, s.front), t.consumer);
  }

  lemma AdvanceKeepsReader(s: State, t: State)
    requires MemoryInv(s) && ReaderInv(s) && IsAdvance(s)
    requires s.front in s.chain && t.chain == s.chain[1..] && s.front !in t.chain
    requires t == Advance(s, Load(s.next, s.front), t.consumer).(stalled := t.stalled)
    requires t.consumer == if s.consumer.ReadStub? then ClearStub else ClearNode(s.front)
    requires t.stalled == (s.stalled || Blocked(t))
    ensures ReaderInv(t)
  {
  }

  lemma ExchangeSelfShape(s: State, t: State)
    requires s.consumer.ExchangeSelf? && t == Apply(s, Consume)
    ensures t == Append(s, STUB, Consumer).(consumer := LinkSelf(s.back), stalled := t.stalled)
    ensures t.stalled == (s.stalled || Blocked(t))
  {
    hide BlockedBehind, Busy, Load;
  }

  lemma LinkSelfShape(s: State, t: State)
    requires s.consumer.LinkSelf? && t == Apply(s, Consume)
    ensures t == WriteLink(s, s.consumer.prev, STUB).(consumer := ReadAgain, stalled := t.stalled)
    ensures t.stalled == (s.stalled || Blocked(t))
  {
    hide BlockedBehind, Busy, Load;
  }

  lemma ExchangeSelfKeepsMemory(s: State, t: State)
    requires Inv(s) && t == Apply(s, Consume)
    requires s.consumer.ExchangeSelf?
    ensures MemoryInv(t)
  {
    hide Apply, ChainInv, LinkInv, PendingInv, Path, Items;
    ExchangeSelfShape(s, t);
    AppendKeepsChain(s, STUB, Consumer);
  }

  lemma ExchangeSelfKeepsPending(s: State, t: State)
    requires PendingInv(s) && s.back !in s.owner
    requires s.consumer.ExchangeSelf? && t == Apply(s, Consume)
    ensures PendingInv(t)
  {
  }

  lemma ExchangeSelfKeepsReader(s: State, t: State)
    requires Inv(s) && t == Apply(s, Consume)
    requires s.consumer.ExchangeSelf?
    ensures ReaderInv(t)
  {
    hide Apply, Path, Items, PendingInv, ClearedInv;
    ExchangeSelfShape(s, t);
    AppendKeepsChain(s, STUB, Consumer);
  }

  lemma LinkSelfKeepsMemory(s: State, t: State)
    requires Inv(s) && t == Apply(s, Consume)
    requires s.consumer.LinkSelf?
    ensures MemoryInv(t)
  {
    hide Apply, Path, Items, StubInv, StallInv;
    LinkSelfShape(s, t);
  }

  lemma LinkSelfKeepsPending(s: State, t: State)
    requires Inv(s) && t == Apply(s, Consume)
    requires s.consumer.LinkSelf?
    ensures PendingInv(t)
  {
    hide Apply, MemoryInv, StubInv, StallInv;
    LinkSelfShape(s, t);
  }

  lemma LinkSelfKeepsReader(s: State, t: State)
    requires Inv(s) && t == Apply(s, Consume)
    requires s.consumer.LinkSelf?
    ensures ReaderInv(t)
  {
  }

  lemma EraseKeepsMemory(s: State, node: Addr, t: State)
    requires MemoryInv(s) && node !in s.chain
    requires t == s.(next := s.next[node := NULL], consumer := t.consumer, stalled := t.stalled)
    ensures MemoryInv(t)
  {
  }

  lemma EraseKeepsPending(s: State, t: State)
    requires Inv(s) && t == Apply(s, Consume)
    requires s.consumer.ClearStub? || s.consumer.ClearNode?
    ensures PendingInv(t)
  {
  }

  lemma EraseKeepsReader(s: State, t: State)
    requires Inv(s) && t == Apply(s, Consume)
    requires s.consumer.ClearStub? || s.consumer.ClearNode?
    ensures ReaderInv(t)
  {
  }

  lemma EraseKeepsInv(s: State, t: State)
    requires Inv(s) && t == Apply(s, Consume)
    requires s.consumer.ClearStub? || s.consumer.ClearNode?
    ensures Inv(t)
  {
    hide Structure, ClearedInv, PendingInv, Blocked;
    EraseKeepsMemory(s, if s.consumer.ClearStub? then STUB else s.consumer.node, t);
    EraseKeepsPending(s, t);
    EraseKeepsReader(s, t);
  }

  /** Every step of every actor keeps the invariant. */
  lemma StepKeepsInv(s: State, l: Label)
    requires Inv(s) && Enabled(s, l)
    ensures Inv(Apply(s, l))
  {
    var t := Apply(s, l);
    match l
    case Clear(p, item) =>
      ClearKeepsMemory(s, p, item, t);
      ClearKeepsRest(s, p, item, t);
    case Exchange(p) =>
      ExchangeKeepsMemory(s, p, t);
      ExchangeKeepsPending(s, p, t);
      ExchangeKeepsReader(s, p, t);
    case Link(p) =>
      LinkKeepsMemory(s, p, t);
      LinkKeepsPending(s, p, t);
      LinkKeepsReader(s, p, t);
    case Consume => ConsumeKeepsInv(s, t);
  }

  lemma ConsumeKeepsInv(s: State, t: State)
    requires Inv(s) && t == Apply(s, Consume)
    ensures Inv(t)
  {
    if IsBranch(s) {
      BranchShape(s, t);
      if s.front == s.back {
        SingleNode(s);
      } else if Load(s.next, s.front) == NULL {
        FrontUnlinked(s);
      }
      BranchKeepsReader(s, t);
    } else if IsAdvance(s) {
      AdvanceShape(s, t);
      AdvanceKeepsMemory(s, t);
      AdvanceKeepsChain(s, Load(s.next, s.front), t.consumer);
      AdvanceKeepsReader(s, t);
    } else if s.consumer.ExchangeSelf? {
      ExchangeSelfKeepsMemory(s, t);
      ExchangeSelfKeepsPending(s, t);
      ExchangeSelfKeepsReader(s, t);
    } else if s.consumer.LinkSelf? {
      LinkSelfKeepsMemory(s, t);
      LinkSelfKeepsPending(s, t);
      LinkSelfKeepsReader(s, t);
    } else {
      EraseKeepsInv(s, t);
    }
  }

  // ----- the queue refines a first-in first-out sequence

  function Contents(s: State): seq<Addr> {
    Items(s.chain)
  }

  /** The items a step adds: a push takes effect at its exchange. */
  function PushedBy(s: State, l: Label): seq<Addr>
    requires Enabled(s, l)
  {
    if l.Exchange? then [s.producers[l.producer].item] else []
  }

  /** The items a step removes: a pop takes effect when `front` moves past an item. */
  function PoppedBy(s: State, l: Label): seq<Addr> {
    if l.Consume? && (s.consumer.ReadNext? || s.consumer.ReadAgain?) && Load(s.next, s.front) != NULL
    then [s.front] else []
  }

  lemma ConsumeSparesProducers(s: State)
    ensures Apply(s, Consume).producers == s.producers
  {
    hide ConsumerStep, Blocked;
  }

  lemma {:induction false} ItemsAppend(a: seq<Addr>, b: seq<Addr>)
    ensures Items(a + b) == Items(a) + Items(b)
  {
    if a == [] {
      assert a + b == b;
    } else {
      assert (a + b)[1..] == a[1..] + b;
      ItemsAppend(a[1..], b);
    }
  }

  lemma StubIsNoItem()
    ensures Items([STUB]) == []
  {
    assert Items([STUB]) == Items([STUB][1..]);
  }

  lemma AdvanceRefinesFifo(s: State)
    requires MemoryInv(s) && IsAdvance(s)
    requires s.consumer.ReadStub? <==> s.front == STUB
    ensures Contents(s) == PoppedBy(s, Consume) + Contents(Apply(s, Consume))
  {
  }

  lemma ConsumeRefinesFifo(s: State)
    requires MemoryInv(s) && ConsumerInv(s)
    ensures Contents(s) == PoppedBy(s, Consume) + Contents(Apply(s, Consume))
  {
    hide Items, MemoryInv;
    if s.consumer.ExchangeSelf? {
      ItemsAppend(s.chain, [STUB]);
      StubIsNoItem();
    } else if IsAdvance(s) {
      AdvanceRefinesFifo(s);
    }
  }

  lemma ExchangeRefinesFifo(s: State, p: nat)
    requires ClearedInv(s.producers, s.chain, s.next) && Enabled(s, Exchange(p))
    ensures Contents(s) + PushedBy(s, Exchange(p)) == Contents(Apply(s, Exchange(p)))
  {
    hide Blocked;
    var item := s.producers[p].item;
    ItemsAppend(s.chain, [item]);
    assert [item][1..] == [];
  }

  /** Seen from outside, a step adds at the back, removes at the front, or does nothing. */
  lemma StepRefinesFifo(s: State, l: Label)
    requires Inv(s) && Enabled(s, l)
    ensures Contents(s) + PushedBy(s, l) == PoppedBy(s, l) + Contents(Apply(s, l))
  {
    hide Items, Blocked, Structure, ClearedInv, PendingInv, StubInv, StallInv;
    match l
    case Clear(p, item) =>
    case Exchange(p) => ExchangeRefinesFifo(s, p);
    case Link(p) =>
    case Consume => ConsumeRefinesFifo(s);
  }

  // ----- what a caller of `pop` sees

  lemma {:induction false} OnlyStub(chain: seq<Addr>, successor: map<Addr, Addr>)
    requires chain != [] && Path(chain, successor)
    ensures Items(chain) == [] <==> chain == [STUB]
  {
    if Items(chain) == [] && |chain| >= 2 {
      OnlyStub(chain[1..], successor);
    }
  }

  /** The live nodes are distinct; in particular the stub is in the chain at most once. */
  lemma {:induction false} ChainDistinct(chain: seq<Addr>, successor: map<Addr, Addr>, i: nat, j: nat)
    requires Path(chain, successor) && i < j < |chain|
    ensures chain[i] != chain[j]
  {
    if i == 0 {
      assert chain[j] == chain[1..][j - 1];
    } else {
      ChainDistinct(chain[1..], successor, i - 1, j - 1);
    }
  }

  /** `pop` returns null only if, at some moment since it began, the queue was empty or the
      exchange right behind the front node was not linked. */
  lemma NothingOnlyIfStalled(s: State)
    requires Inv(s) && ConsumerOutcome(s) == Nothing
    ensures s.stalled
  {
    if !s.consumer.CheckBack? && s.front != s.back {
      FrontUnlinked(s);
    }
  }

  lemma EmptyMeans(s: State)
    requires Inv(s)
    ensures Contents(s) == [] <==> s.front == STUB && s.back == STUB
  {
    OnlyStub(s.chain, s.successor);
    if s.front == STUB == s.back {
      SingleNode(s);
      assert |s.chain| == 1;
    }
  }

  /** The moments that excuse a null result are those two, and no others. */
  lemma BlockedMeans(s: State)
    requires Inv(s)
    ensures Blocked(s) <==>
      Contents(s) == [] || exists p | p in s.producers ::
        s.producers[p].Linking? && s.producers[p].prev == s.front
  {
    EmptyMeans(s);
    if s.front in s.owner && s.owner[s.front].Producer? {
      assert s.producers[s.owner[s.front].id].prev == s.front;
    }
  }

  /** The caller has the node for itself, and may destroy it: no actor can reach it, and it has no link. */
  predicate HandedOut(s: State, node: Addr) {
    !Busy(s, node) && Load(s.next, node) == NULL
  }

  /** What `pop` returns is the item whose removal it committed, never the stub; nobody else can
      still reach it, and it has no link. */
  lemma ReturnedNode(s: State)
    requires Inv(s) && ConsumerOutcome(s).Node?
    ensures var node, t := ConsumerOutcome(s).node, Apply(s, Consume);
      node != STUB && node != NULL && HandedOut(t, node)
  {
    hide Structure, ClearedInv, PendingInv, Blocked;
  }

  /** A node that is not in the queue, and that nobody is about to put in or to hand out, has no link. */
  predicate FreeIsUnlinked(s: State, node: Addr) {
    Busy(s, node) || Load(s.next, node) == NULL
  }

  lemma ProducerKeepsUnlinked(s: State, l: Label, node: Addr)
    requires Inv(s) && Enabled(s, l) && !l.Consume? && FreeIsUnlinked(s, node)
    ensures FreeIsUnlinked(Apply(s, l), node)
  {
    hide Path, Blocked, ReaderInv, ClearedInv;
    var t := Apply(s, l);
    if p :| p in s.producers && s.producers[p] == Cleared(node) {
      assert !(l.Exchange? && l.producer == p) && !(l.Clear? && l.producer == p) ==>
        p in t.producers && t.producers[p] == Cleared(node);
    }
  }

  lemma StillBusy(s: State, t: State, node: Addr)
    requires Busy(s, node) && s.consumer != ClearNode(node)
    requires t.producers == s.producers && (node in s.chain ==> node in t.chain || t.consumer == ClearNode(node))
    ensures Busy(t, node)
  {
    if p :| p in s.producers && s.producers[p] == Cleared(node) {
      assert t.producers[p] == Cleared(node);
    }
  }

  lemma AdvanceKeepsUnlinked(s: State, t: State, node: Addr)
    requires Inv(s) && t == Apply(s, Consume) && IsAdvance(s) && FreeIsUnlinked(s, node) && node != STUB
    ensures FreeIsUnlinked(t, node)
  {
    hide Busy, Path, PendingInv, ClearedInv, StubInv, Blocked;
    AdvanceShape(s, t);
    assert s.chain == [s.front] + s.chain[1..];
    if Busy(s, node) {
      StillBusy(s, t, node);
    }
  }

  lemma EraseKeepsUnlinked(s: State, t: State, node: Addr)
    requires t == Apply(s, Consume) && (s.consumer.ClearStub? || s.consumer.ClearNode?)
    requires FreeIsUnlinked(s, node)
    ensures FreeIsUnlinked(t, node)
  {
    hide Busy, Blocked;
    if Busy(s, node) && s.consumer != ClearNode(node) {
      StillBusy(s, t, node);
    }
  }

  lemma PushSelfKeepsUnlinked(s: State, t: State, node: Addr)
    requires Inv(s) && t == Apply(s, Consume) && (s.consumer.ExchangeSelf? || s.consumer.LinkSelf?)
    requires FreeIsUnlinked(s, node)
    ensures FreeIsUnlinked(t, node)
  {
    hide Apply, Busy, Path, ClearedInv, StubInv, Blocked;
    if s.consumer.ExchangeSelf? {
      ExchangeSelfShape(s, t);
    } else {
      LinkSelfShape(s, t);
      if node == s.consumer.prev {
        InChainIsBusy(s, node);
      }
    }
    if Busy(s, node) {
      StillBusy(s, t, node);
    }
  }

  lemma InChainIsBusy(s: State, node: Addr)
    requires node in s.chain
    ensures Busy(s, node)
  {
  }

  lemma ConsumerKeepsUnlinked(s: State, node: Addr)
    requires Inv(s) && FreeIsUnlinked(s, node) && node != STUB
    ensures FreeIsUnlinked(Apply(s, Consume), node)
  {
    hide Inv, Apply, Busy;
    var t := Apply(s, Consume);
    if IsBranch(s) {
      BranchShape(s, t);
      if Busy(s, node) {
        StillBusy(s, t, node);
      }
    } else if IsAdvance(s) {
      AdvanceKeepsUnlinked(s, t, node);
    } else if s.consumer.ExchangeSelf? || s.consumer.LinkSelf? {
      PushSelfKeepsUnlinked(s, t, node);
    } else {
      EraseKeepsUnlinked(s, t, node);
    }
  }

  /** The stub's own link is null whenever `push_self` is about to exchange it in. */
  lemma StubReadyForExchange(s: State)
    requires Inv(s) && s.consumer.ExchangeSelf?
    ensures Load(s.next, STUB) == NULL && STUB !in s.chain
  {
  }

  /** An empty queue at rest is back in its initial shape, as its destructor asserts. */
  lemma EmptyIsInitial(s: State)
    requires Inv(s) && s.consumer == Resting && Contents(s) == []
    ensures s.front == STUB && s.back == STUB && Load(s.next, STUB) == NULL
  {
    OnlyStub(s.chain, s.successor);
  }

  // ----- whole runs

  predicate Runs(s: State, labels: seq<Label>)
    decreases labels
  {
    labels == [] || (Enabled(s, labels[0]) && Runs(Apply(s, labels[0]), labels[1..]))
  }

  function After(s: State, labels: seq<Label>): State
    requires Runs(s, labels)
    decreases labels
  {
    if labels == [] then s else After(Apply(s, labels[0]), labels[1..])
  }

  /** The items pushed during a run, in the order of their exchanges. */
  function Pushed(s: State, labels: seq<Label>): seq<Addr>
    requires Runs(s, labels)
    decreases labels
  {
    if labels == [] then []
    else PushedBy(s, labels[0]) + Pushed(Apply(s, labels[0]), labels[1..])
  }

  function ReturnedBy(s: State, l: Label): seq<Addr> {
    if l.Consume? && ConsumerOutcome(s).Node? then [ConsumerOutcome(s).node] else []
  }

  /** The nodes `pop` returned during a run, in order. */
  function Returned(s: State, labels: seq<Label>): seq<Addr>
    requires Runs(s, labels)
    decreases labels
  {
    if labels == [] then []
    else ReturnedBy(s, labels[0]) + Returned(Apply(s, labels[0]), labels[1..])
  }

  /** The item a `pop` has removed but not returned yet. */
  function InHand(s: State): seq<Addr> {
    if s.consumer.ClearNode? then [s.consumer.node] else []
  }

  /** All that a step or a run may change: what is still inside the queue. */
  function Held(s: State): seq<Addr> {
    InHand(s) + Contents(s)
  }

  lemma HandConserves(s: State, l: Label)
    requires Enabled(s, l)
    ensures InHand(s) + PoppedBy(s, l) == ReturnedBy(s, l) + InHand(Apply(s, l))
  {
  }

  lemma StepConserves(s: State, l: Label)
    requires Inv(s) && Enabled(s, l)
    ensures Held(s) + PushedBy(s, l) == ReturnedBy(s, l) + Held(Apply(s, l))
  {
    var t := Apply(s, l);
    StepRefinesFifo(s, l);
    HandConserves(s, l);
    Regroup(InHand(s), Contents(s), PushedBy(s, l), PoppedBy(s, l), Contents(t),
            ReturnedBy(s, l), InHand(t));
  }

  lemma Regroup(hand: seq<Addr>, contents: seq<Addr>, pushed: seq<Addr>, popped: seq<Addr>,
                contents': seq<Addr>, returned: seq<Addr>, hand': seq<Addr>)
    requires contents + pushed == popped + contents' && hand + popped == returned + hand'
    ensures (hand + contents) + pushed == returned + (hand' + contents')
  {
    assert (hand + contents) + pushed == hand + (contents + pushed);
    assert hand + (popped + contents') == (hand + popped) + contents';
  }

  lemma Telescope(a: seq<Addr>, pushed: seq<Addr>, returned: seq<Addr>, b: seq<Addr>,
                  morePushed: seq<Addr>, moreReturned: seq<Addr>, c: seq<Addr>)
    requires a + pushed == returned + b && b + morePushed == moreReturned + c
    ensures a + (pushed + morePushed) == (returned + moreReturned) + c
  {
    assert a + (pushed + morePushed) == (a + pushed) + morePushed;
    assert (returned + b) + morePushed == returned + (b + morePushed);
  }

  lemma {:induction false} RunConserves(s: State, labels: seq<Label>)
    requires Inv(s) && Runs(s, labels)
    ensures Inv(After(s, labels))
    ensures Held(s) + Pushed(s, labels) == Returned(s, labels) + Held(After(s, labels))
    decreases labels
  {
    if labels != [] {
      var l, t, rest := labels[0], Apply(s, labels[0]), labels[1..];
      StepKeepsInv(s, l);
      StepConserves(s, l);
      RunConserves(t, rest);
      Telescope(Held(s), PushedBy(s, l), ReturnedBy(s, l), Held(t),
                Pushed(t, rest), Returned(t, rest), Held(After(t, rest)));
    }
  }

  lemma InitialInv()
    ensures Inv(INITIAL) && Held(INITIAL) == []
  {
    OnlyStub(INITIAL.chain, INITIAL.successor);
  }

  /** Under every interleaving the nodes come out exactly once and in exchange order: those
      returned, the one in hand and those still queued are exactly those pushed. */
  lemma QueueIsFifo(labels: seq<Label>)
    requires Runs(INITIAL, labels)
    ensures var s := After(INITIAL, labels);
      Inv(s) && Pushed(INITIAL, labels) == Returned(INITIAL, labels) + Held(s)
  {
    InitialInv();
    RunConserves(INITIAL, labels);
    var pushed := Pushed(INITIAL, labels);
    assert [] + pushed == pushed;
  }

  lemma {:induction false} RunKeepsUnlinked(s: State, labels: seq<Label>, node: Addr)
    requires Inv(s) && Runs(s, labels) && FreeIsUnlinked(s, node) && node != STUB
    ensures FreeIsUnlinked(After(s, labels), node)
    decreases labels
  {
    hide Inv, Enabled, Apply, FreeIsUnlinked;
    if labels != [] {
      StepKeepsInv(s, labels[0]);
      if labels[0].Consume? {
        ConsumerKeepsUnlinked(s, node);
      } else {
        ProducerKeepsUnlinked(s, labels[0], node);
      }
      RunKeepsUnlinked(Apply(s, labels[0]), labels[1..], node);
    }
  }

  /** In every reachable state, a node is linked only from the exchange that puts it in until `pop` hands it out. */
  lemma OnlyBusyIsLinked(labels: seq<Label>, node: Addr)
    requires Runs(INITIAL, labels) && node != STUB
    ensures var s := After(INITIAL, labels);
      Load(s.next, node) != NULL ==> Busy(s, node)
  {
    InitialInv();
    RunKeepsUnlinked(INITIAL, labels, node);
  }

  // ----- a `pop` that nobody disturbs

  /** What the consumer's next accesses return when no producer takes a step between them. */
  function Alone(s: State, accesses: nat): Outcome
    decreases accesses
  {
    if ConsumerOutcome(s) != Running || accesses == 0 then ConsumerOutcome(s)
    else Alone(Apply(s, Consume), accesses - 1)
  }

  /** The exchange right behind `node` was made by a producer that has not linked it yet. */
  predicate Owed(s: State, node: Addr) {
    node in s.owner && s.owner[node].Producer?
  }

  lemma LinkedFront(s: State)
    requires Inv(s) && s.front != s.back && !s.consumer.LinkSelf?
    ensures Load(s.next, s.front) == NULL <==> Owed(s, s.front)
  {
    assert s.front in s.chain;
  }

  lemma AloneStep(s: State, accesses: nat)
    requires Inv(s) && ConsumerOutcome(s) == Running && accesses > 0
    ensures Inv(Apply(s, Consume)) && Alone(s, accesses) == Alone(Apply(s, Consume), accesses - 1)
  {
    hide Inv, Apply;
    StepKeepsInv(s, Consume);
  }

  /** The item at the front has a successor: it is taken. */
  lemma AloneTakes(s: State, accesses: nat)
    requires Inv(s) && (s.consumer == ReadNext || s.consumer == ReadAgain)
    requires Load(s.next, s.front) != NULL && accesses >= 1
    ensures Alone(s, accesses) == Node(s.front)
  {
    hide Inv, Blocked;
    AloneStep(s, accesses);
  }

  /** The item at the front is the last node: the stub goes in behind it, and it is taken. */
  lemma AloneTakesLast(s: State, accesses: nat)
    requires Inv(s) && s.consumer == ExchangeSelf && s.front == s.back && accesses >= 3
    ensures Alone(s, accesses) == Node(s.front)
  {
    hide Inv, Blocked;
    AloneStep(s, accesses);
    var t := Apply(s, Consume);
    AloneStep(t, accesses - 1);
    var u := Apply(t, Consume);
    assert Load(u.next, u.front) == STUB;
    AloneTakes(u, accesses - 2);
  }

  lemma AloneItem(s: State, accesses: nat)
    requires Inv(s) && s.consumer == ReadNext && accesses >= 5
    ensures Alone(s, accesses) == if Owed(s, s.front) then Nothing else Node(s.front)
  {
    hide Blocked, Structure, ClearedInv, PendingInv, StubInv, StallInv;
    FrontIsOwed(s);
    if Load(s.next, s.front) != NULL {
      AloneTakes(s, accesses);
    } else {
      AloneStep(s, accesses);
      var t := Apply(s, Consume);
      if s.front == s.back {
        AloneStep(t, accesses - 1);
        AloneTakesLast(Apply(t, Consume), accesses - 2);
      }
    }
  }

  lemma FrontIsOwed(s: State)
    requires Inv(s) && !s.consumer.LinkSelf?
    ensures s.front == s.back ==> !Owed(s, s.front)
    ensures s.front != s.back ==> (Load(s.next, s.front) == NULL <==> Owed(s, s.front))
  {
    if s.front != s.back {
      LinkedFront(s);
    }
  }

  lemma DropLeavesOwners(s: State)
    requires Inv(s) && s.consumer == ReadStub
    ensures var u := Apply(Apply(s, Consume), Consume);
      && u.owner == s.owner && u.consumer == ReadNext && Contents(s) != [] && u.front == Contents(s)[0]
  {
    hide Blocked, ClearedInv, PendingInv, StubInv, StallInv;
    StubHasNext(s);
  }

  lemma StubHasNext(s: State)
    requires Inv(s) && s.front == STUB && Load(s.next, STUB) != NULL
    ensures |s.chain| >= 2 && s.chain[1] == Load(s.next, STUB) != STUB
    ensures Contents(s) != [] && Contents(s)[0] == s.chain[1]
  {
    hide ClearedInv, PendingInv, ReaderInv;
    assert s.chain[0] == STUB;
    if |s.chain| >= 2 {
      ChainDistinct(s.chain, s.successor, 0, 1);
      assert Items(s.chain) == Items(s.chain[1..]);
    }
  }

  /**
   * Exactly when an undisturbed `pop` of the queue at rest returns null: the queue is empty, or the
   * exchange behind its front node, or behind its first item if the stub is at the front, is not
   * linked. Otherwise it returns the first item.
   */
  lemma AloneIsNothingIff(s: State)
    requires Inv(s) && s.consumer == Resting
    ensures var blocked :=
        || Contents(s) == []
        || Owed(s, s.front)
        || (s.front == STUB && Owed(s, Contents(s)[0]));
      Alone(s, 12) == if blocked then Nothing else Node(Contents(s)[0])
  {
    hide Inv, Blocked, ConsumerInv;
    AloneStep(s, 12);
    var t := Apply(s, Consume);
    if s.front != STUB {
      ItemAtFront(s);
      AloneItem(t, 11);
    } else {
      EmptyMeans(s);
      FrontIsOwed(s);
      if Load(s.next, STUB) != NULL {
        StubHasNext(s);
        AloneStep(t, 11);
        AloneFromReadStub(Apply(t, Consume), 10);
      }
    }
  }

  lemma ItemAtFront(s: State)
    requires Inv(s) && s.front != STUB
    ensures Contents(s) != [] && Contents(s)[0] == s.front
  {
    hide ClearedInv, PendingInv, ReaderInv;
  }

  lemma AloneFromReadStub(s: State, accesses: nat)
    requires Inv(s) && s.consumer == ReadStub && accesses >= 7
    ensures Contents(s) != []
    ensures Alone(s, accesses) == if Owed(s, Contents(s)[0]) then Nothing else Node(Contents(s)[0])
  {
    hide Inv, Blocked, Contents;
    DropLeavesOwners(s);
    AloneStep(s, accesses);
    var t := Apply(s, Consume);
    AloneStep(t, accesses - 1);
    AloneItem(Apply(t, Consume), accesses - 2);
  }

  /** The second of two producers stands between exchange and link, and the first is done. */
  function SecondIsHalfway(): State {
    var s1 := Apply(INITIAL, Clear(0, 2));
    var s2 := Apply(s1, Exchange(0));
    var s3 := Apply(s2, Link(0));
    var s4 := Apply(s3, Clear(1, 3));
    Apply(s4, Exchange(1))
  }

  /**
   * A completely pushed item that `pop` does not return: item 2 is linked and its producer gone, and
   * the queue is not blocked when the call begins, but the exchange behind item 2 is not linked.
   */
  lemma PushedButNotReturned()
    ensures var run, s := [Clear(0, 2), Exchange(0), Link(0), Clear(1, 3), Exchange(1)], SecondIsHalfway();
      && Runs(INITIAL, run) && s == After(INITIAL, run)
      && Contents(s) == [2, 3] && 0 !in s.producers && !Blocked(s)
      && Alone(s, 12) == Nothing
  {
    var run := [Clear(0, 2), Exchange(0), Link(0), Clear(1, 3), Exchange(1)];
    var s := SecondIsHalfway();
    HalfwayRuns();
    HalfwayState();
    InitialInv();
    RunConserves(INITIAL, run);
    AloneIsNothingIff(s);
  }

  lemma HalfwayRuns()
    ensures var run := [Clear(0, 2), Exchange(0), Link(0), Clear(1, 3), Exchange(1)];
      Runs(INITIAL, run) && After(INITIAL, run) == SecondIsHalfway()
  {
    hide Blocked;
    var s1 := Apply(INITIAL, Clear(0, 2));
    var s2 := Apply(s1, Exchange(0));
    var s3 := Apply(s2, Link(0));
    var s4 := Apply(s3, Clear(1, 3));
    var s5 := Apply(s4, Exchange(1));
    assert Runs(s5, []) && After(s5, []) == s5;
    OneMore(s4, Exchange(1), []);
    OneMore(s3, Clear(1, 3), [Exchange(1)]);
    OneMore(s2, Link(0), [Clear(1, 3), Exchange(1)]);
    OneMore(s1, Exchange(0), [Link(0), Clear(1, 3), Exchange(1)]);
    OneMore(INITIAL, Clear(0, 2), [Exchange(0), Link(0), Clear(1, 3), Exchange(1)]);
  }

  lemma OneMore(s: State, l: Label, rest: seq<Label>)
    requires Enabled(s, l) && Runs(Apply(s, l), rest)
    ensures Runs(s, [l] + rest) && After(s, [l] + rest) == After(Apply(s, l), rest)
  {
    hide Apply, Enabled;
    assert ([l] + rest)[1..] == rest;
  }

  lemma HalfwayState()
    ensures var s := SecondIsHalfway();
      && s.front == STUB && s.back == 3 && s.chain == [STUB, 2, 3] && s.consumer == Resting
      && 0 !in s.producers && !Blocked(s) && Owed(s, 2) && Contents(s) == [2, 3]
  {
    var s := SecondIsHalfway();
    assert s.chain == [STUB, 2, 3];
    assert s.chain[1..] == [2, 3] && s.chain[2..] == [3] && s.chain[1..][1..] == s.chain[2..];
  }

  // ----- the code of the queue

  function At(env: seq<seq<Label>>, k: nat): seq<Label> {
    if k < |env| then env[k] else []
  }

  /** The step is one of the actor's own. */
  predicate OfActor(l: Label, actor: Actor) {
    match actor
    case Consumer => l.Consume?
    case Producer(p) => !l.Consume? && l.producer == p
  }

  /** The steps of `steps` that the others take, in turn, while the actor stands still. */
  function Took(s: State, actor: Actor, steps: seq<Label>): seq<Label>
    decreases steps
  {
    if steps == [] then []
    else if OfActor(steps[0], actor) || !Enabled(s, steps[0]) then Took(s, actor, steps[1..])
    else [steps[0]] + Took(Apply(s, steps[0]), actor, steps[1..])
  }

  function Own(labels: seq<Label>, actor: Actor): seq<Label> {
    if labels == [] then []
    else (if OfActor(labels[0], actor) then [labels[0]] else []) + Own(labels[1..], actor)
  }

  /** The actor stands where it stood, as far as the others can tell. */
  predicate SamePlace(s: State, t: State, actor: Actor) {
    match actor
    case Consumer => s.consumer == t.consumer && s.front == t.front && (s.stalled ==> t.stalled)
    case Producer(p) =>
      (p in s.producers <==> p in t.producers) && (p in s.producers ==> s.producers[p] == t.producers[p])
  }

  lemma OthersSpareActor(s: State, l: Label, actor: Actor)
    requires Enabled(s, l) && !OfActor(l, actor)
    ensures SamePlace(s, Apply(s, l), actor)
  {
    hide ConsumerStep, Blocked;
  }

  lemma {:induction false} TookRuns(s: State, actor: Actor, steps: seq<Label>)
    requires Inv(s)
    ensures var took := Took(s, actor, steps);
      && Runs(s, took) && Inv(After(s, took))
      && SamePlace(s, After(s, took), actor)
      && Own(took, actor) == []
      && (actor == Consumer ==> Returned(s, took) == [])
    decreases steps
  {
    hide Inv, Apply, Enabled, OfActor, SamePlace;
    SameHere(s, actor);
    if steps != [] {
      var l := steps[0];
      if OfActor(l, actor) || !Enabled(s, l) {
        TookRuns(s, actor, steps[1..]);
      } else {
        var t := Apply(s, l);
        StepKeepsInv(s, l);
        OthersSpareActor(s, l, actor);
        var more := Took(t, actor, steps[1..]);
        TookRuns(t, actor, steps[1..]);
        SameThrough(s, t, After(t, more), actor);
        ConsumesReturn(s, l);
        assert ([l] + more)[1..] == more;
      }
    }
  }

  lemma SameHere(s: State, actor: Actor)
    ensures SamePlace(s, s, actor)
  {
  }

  lemma SameThrough(s: State, t: State, u: State, actor: Actor)
    requires SamePlace(s, t, actor) && SamePlace(t, u, actor)
    ensures SamePlace(s, u, actor)
  {
  }

  lemma ConsumesReturn(s: State, l: Label)
    ensures !OfActor(l, Consumer) ==> ReturnedBy(s, l) == []
  {
  }

  lemma {:induction false} RunsOn(s: State, a: seq<Label>, b: seq<Label>)
    requires Runs(s, a) && Runs(After(s, a), b)
    ensures Runs(s, a + b) && After(s, a + b) == After(After(s, a), b)
    ensures Returned(s, a + b) == Returned(s, a) + Returned(After(s, a), b)
    decreases a
  {
    hide Apply, Enabled, ReturnedBy;
    if a == [] {
      assert a + b == b;
    } else {
      assert (a + b)[1..] == a[1..] + b;
      RunsOn(Apply(s, a[0]), a[1..], b);
    }
  }

  lemma {:induction false} OwnAppend(a: seq<Label>, b: seq<Label>, actor: Actor)
    ensures Own(a + b, actor) == Own(a, actor) + Own(b, actor)
  {
    hide OfActor;
    if a == [] {
      assert a + b == b;
    } else {
      assert (a + b)[1..] == a[1..] + b && (a + b)[0] == a[0];
      OwnAppend(a[1..], b, actor);
      var own := if OfActor(a[0], actor) then [a[0]] else [];
      LabelsAssociate(own, Own(a[1..], actor), Own(b, actor));
    }
  }

  lemma LabelsAssociate(x: seq<Label>, y: seq<Label>, z: seq<Label>)
    ensures x + (y + z) == x + y + z
  {
  }

  lemma NoRun(s: State, actor: Actor)
    ensures Runs(s, []) && After(s, []) == s && Own([], actor) == [] && Returned(s, []) == []
  {
  }

  /** The labels of one own step and of what the others take after it. */
  function Round(s: State, l: Label, actor: Actor, steps: seq<Label>): seq<Label>
    requires Enabled(s, l)
  {
    [l] + Took(Apply(s, l), actor, steps)
  }

  lemma RoundRuns(s: State, l: Label, actor: Actor, steps: seq<Label>)
    requires Inv(s) && Enabled(s, l) && OfActor(l, actor)
    ensures var t, round := Apply(s, l), Round(s, l, actor, steps);
      && Inv(t) && Runs(s, round) && Inv(After(s, round))
      && SamePlace(t, After(s, round), actor)
      && Own(round, actor) == [l]
      && (actor == Consumer ==> Returned(s, round) == ReturnedBy(s, l))
  {
    hide Inv, Apply, Enabled, OfActor, SamePlace, ReturnedBy;
    var t := Apply(s, l);
    StepKeepsInv(s, l);
    TookRuns(t, actor, steps);
    var took := Took(t, actor, steps);
    assert ([l] + took)[1..] == took;
  }

  /** Some state of the run, after its beginning, is blocked. */
  predicate Meets(s: State, run: seq<Label>)
    requires Runs(s, run)
    decreases run
  {
    run != [] && (Blocked(Apply(s, run[0])) || Meets(Apply(s, run[0]), run[1..]))
  }

  lemma {:induction false} MeetsMeans(s: State, run: seq<Label>)
    requires Runs(s, run)
    ensures Meets(s, run) <==> exists k | 1 <= k <= |run| :: Runs(s, run[..k]) && Blocked(After(s, run[..k]))
    decreases run
  {
    hide Apply, Enabled, Blocked;
    if run != [] {
      var t, rest := Apply(s, run[0]), run[1..];
      MeetsMeans(t, rest);
      forall k | 1 <= k <= |run|
        ensures Runs(s, run[..k]) == Runs(t, rest[..k - 1])
        ensures Runs(s, run[..k]) ==> After(s, run[..k]) == After(t, rest[..k - 1])
      {
        assert run[..k][1..] == rest[..k - 1];
      }
      assert Runs(t, rest[..0]) && After(t, rest[..0]) == t;
      if k :| 1 <= k <= |rest| && Runs(t, rest[..k]) && Blocked(After(t, rest[..k])) {
        assert Runs(s, run[..k + 1]) && Blocked(After(s, run[..k + 1]));
      }
      if Blocked(t) {
        assert Runs(s, run[..1]) && Blocked(After(s, run[..1]));
      }
    }
  }

  /** The note that a `pop` keeps is true only if its run met a blocked moment. */
  lemma {:induction false} StalledMeets(s: State, run: seq<Label>)
    requires Runs(s, run) && After(s, run).stalled
    ensures s.stalled || Meets(s, run)
    decreases run
  {
    hide Apply, Enabled, Blocked;
    if run != [] {
      StalledMeets(Apply(s, run[0]), run[1..]);
      StalledStep(s, run[0]);
    }
  }

  lemma StalledStep(s: State, l: Label)
    requires Enabled(s, l)
    ensures var t := Apply(s, l);
      && (t.stalled ==> s.stalled || Blocked(t))
      && (l.Consume? && s.consumer == Resting && t.stalled ==> Blocked(t))
  {
    hide BlockedBehind, Move, Busy;
    MoveNotes(s, l);
  }

  /** No access notes anything itself, and a new `pop` forgets what was noted. */
  lemma MoveNotes(s: State, l: Label)
    requires Enabled(s, l)
    ensures Move(s, l).stalled ==> s.stalled
    ensures l.Consume? && s.consumer == Resting ==> !Move(s, l).stalled
  {
    hide Busy, Load;
  }

  /** The note starts anew with each `pop`. */
  lemma StalledPop(s: State, run: seq<Label>)
    requires Runs(s, run) && run != [] && run[0] == Consume && s.consumer == Resting && After(s, run).stalled
    ensures Meets(s, run)
  {
    var t := Apply(s, Consume);
    StalledStep(s, Consume);
    StalledMeets(t, run[1..]);
  }

  lemma RoundAlone(s: State, l: Label, actor: Actor)
    requires Enabled(s, l)
    ensures Round(s, l, actor, []) == [l] && After(s, [l]) == Apply(s, l)
  {
    hide Apply, Enabled;
    assert [l][1..] == [];
  }

  /** A run of the machine that leads from `s` to `t`, both of them legal. */
  ghost predicate Leads(s: State, run: seq<Label>, t: State) {
    Inv(s) && Inv(t) && Runs(s, run) && After(s, run) == t
  }

  lemma RoundLeads(s0: State, run: seq<Label>, s: State, l: Label, actor: Actor, steps: seq<Label>, t: State)
    requires Leads(s0, run, s) && Enabled(s, l) && OfActor(l, actor)
    requires Runs(s, Round(s, l, actor, steps)) && t == After(s, Round(s, l, actor, steps))
    ensures var longer := run + Round(s, l, actor, steps);
      && Leads(s0, longer, t)
      && Own(longer, actor) == Own(run, actor) + [l]
      && (actor == Consumer ==> Returned(s0, longer) == Returned(s0, run) + ReturnedBy(s, l))
      && (run != [] ==> longer[0] == run[0])
  {
    hide Inv, Apply, Enabled, OfActor, SamePlace, ReturnedBy, Round;
    RoundRuns(s, l, actor, steps);
    RunsOn(s0, run, Round(s, l, actor, steps));
    OwnAppend(run, Round(s, l, actor, steps), actor);
  }

  /** The queue object.  `next`, `front` and `back` are the memory the code reads and writes; the
      other fields record where every actor stands.  After its access `k`, a call lets all the
      others take the steps `env[k]`. */
  class Queue {
    var next: map<Addr, Addr>
    var front: Addr
    var back: Addr

    var producers: map<nat, ProducerPc>
    var consumer: ConsumerPc
    var chain: seq<Addr>
    var successor: map<Addr, Addr>
    var owner: map<Addr, Actor>
    var stalled: bool

    function Machine(): State
      reads this
    {
      State(next, front, back, producers, consumer, chain, successor, owner, stalled)
    }

    ghost predicate Valid()
      reads this
    {
      Inv(Machine())
    }

    constructor ()
      ensures Valid() && Machine() == INITIAL
    {
      next, front, back := map[], STUB, STUB;
      producers, consumer := map[], Resting;
      chain, successor, owner, stalled := [STUB], map[], map[], false;
      new;
      InitialInv();
    }

    /** Called when the code has made, in memory, the actor's step `l` out of `s`: moves the record
        along, and then lets all the others run. */
    method Turn(s: State, l: Label, actor: Actor, steps: seq<Label>, ghost s0: State, ghost run: seq<Label>)
      returns (ghost longer: seq<Label>)
      requires Leads(s0, run, s) && Enabled(s, l) && OfActor(l, actor)
      requires var t := Apply(s, l); next == t.next && front == t.front && back == t.back
      modifies this
      ensures longer == run + Round(s, l, actor, steps)
      ensures Leads(s0, longer, Machine()) && SamePlace(Apply(s, l), Machine(), actor)
      ensures Own(longer, actor) == Own(run, actor) + [l]
      ensures actor == Consumer ==> Returned(s0, longer) == Returned(s0, run) + ReturnedBy(s, l)
      ensures steps == [] ==> Machine() == Apply(s, l)
    {
      hide Inv, Apply, Enabled, OfActor, Took, After, Runs, Own, SamePlace, ReturnedBy;
      RoundRuns(s, l, actor, steps);
      var u := After(s, Round(s, l, actor, steps));
      next, front, back := u.next, u.front, u.back;
      producers, consumer, chain := u.producers, u.consumer, u.chain;
      successor, owner, stalled := u.successor, u.owner, u.stalled;
      RoundLeads(s0, run, s, l, actor, steps, u);
      if steps == [] {
        RoundAlone(s, l, actor);
      }
      longer := run + Round(s, l, actor, steps);
    }

    /** The consumer's next step. */
    method Go(s: State, steps: seq<Label>, ghost s0: State, ghost run: seq<Label>)
      returns (ghost longer: seq<Label>)
      requires Leads(s0, run, s)
      requires var t := Apply(s, Consume); next == t.next && front == t.front && back == t.back
      modifies this
      ensures Leads(s0, longer, Machine())
      ensures consumer == Apply(s, Consume).consumer && front == Apply(s, Consume).front
      ensures Apply(s, Consume).stalled ==> stalled
      ensures Returned(s0, longer) == Returned(s0, run) + ReturnedBy(s, Consume)
      ensures longer != [] && (longer[0] == if run == [] then Consume else run[0])
      ensures steps == [] ==> Machine() == Apply(s, Consume)
    {
      hide Inv, Apply, Leads, Returned, ReturnedBy, Took, Own;
      longer := Turn(s, Consume, Consumer, steps, s0, run);
    }

    /** The stub is at the front: returns false if nothing is linked behind it, and otherwise
        drops it from the chain. */
    method DropStub(env: seq<seq<Label>>, ghost s0: State, ghost run: seq<Label>)
      returns (more: bool, ghost longer: seq<Label>)
      requires Leads(s0, run, Machine()) && consumer == TestStub && run != []
      modifies this
      ensures Leads(s0, longer, Machine())
      ensures consumer == if more then ReadNext else Resting
      ensures !more ==> stalled
      ensures Returned(s0, longer) == Returned(s0, run)
      ensures longer != [] && longer[0] == run[0]
    {
      hide Inv, Runs, After, Returned, Blocked, HandedOut;
      var s := Machine();
      more := Load(next, STUB) != NULL;
      if more {
        longer := Go(s, At(env, 1), s0, run);
        s := Machine();
        front := Load(next, STUB);
        longer := Go(s, At(env, 2), s0, longer);
        s := Machine();
        next := next[STUB := NULL];
        longer := Go(s, At(env, 3), s0, longer);
      } else {
        NothingOnlyIfStalled(s);
        longer := Go(s, [], s0, run);
      }
    }

    method PushSelf(env: seq<seq<Label>>, ghost s0: State, ghost run: seq<Label>)
      returns (ghost longer: seq<Label>)
      requires Leads(s0, run, Machine()) && consumer == ExchangeSelf && run != []
      modifies this
      ensures Leads(s0, longer, Machine()) && consumer == ReadAgain && front == old(front)
      ensures Returned(s0, longer) == Returned(s0, run)
      ensures longer != [] && longer[0] == run[0]
    {
      hide Inv, Runs, After, Returned, Blocked, HandedOut;
      var s := Machine();
      var prev := back;
      back := STUB;
      longer := Go(s, At(env, 6), s0, run);
      s := Machine();
      next := next[prev := STUB];
      longer := Go(s, At(env, 7), s0, longer);
    }

    /** Moves the front on to `after` and hands out the node that was there. */
    method Take(after: Addr, env: seq<seq<Label>>, ghost s0: State, ghost run: seq<Label>)
      returns (node: Addr, ghost longer: seq<Label>)
      requires Leads(s0, run, Machine()) && (consumer == ReadNext || consumer == ReadAgain) && run != []
      requires after == Load(next, front) != NULL
      modifies this
      ensures Leads(s0, longer, Machine()) && consumer == Resting
      ensures node == old(front) && node != NULL && node != STUB && HandedOut(Machine(), node)
      ensures Returned(s0, longer) == Returned(s0, run) + [node]
      ensures longer != [] && longer[0] == run[0]
    {
      hide Inv, Runs, After, Returned, Blocked, HandedOut;
      var s := Machine();
      node := front;
      front := after;
      longer := Go(s, At(env, 8), s0, run);
      s := Machine();
      ReturnedNode(s);
      next := next[node := NULL];
      longer := Go(s, [], s0, longer);
    }

    /** The second half of `pop`: the front is an item. */
    method PopItem(env: seq<seq<Label>>, ghost s0: State, ghost run: seq<Label>)
      returns (node: Addr, ghost longer: seq<Label>)
      requires Leads(s0, run, Machine()) && consumer == ReadNext && run != []
      modifies this
      ensures Leads(s0, longer, Machine()) && consumer == Resting && node != STUB
      ensures Returned(s0, longer) == Returned(s0, run) + if node == NULL then [] else [node]
      ensures if node == NULL then stalled else HandedOut(Machine(), node)
      ensures longer != [] && longer[0] == run[0]
    {
      hide Inv, Runs, After, Returned, Blocked, HandedOut;
      var after := Load(next, front);
      if after != NULL {
        node, longer := Take(after, env, s0, run);
        return;
      }
      longer := Go(Machine(), At(env, 4), s0, run);
      node, longer := PopUnlinked(env, s0, longer);
    }

    /** Nothing is linked behind the front: if it is the last node, the stub goes in behind it. */
    method PopUnlinked(env: seq<seq<Label>>, ghost s0: State, ghost run: seq<Label>)
      returns (node: Addr, ghost longer: seq<Label>)
      requires Leads(s0, run, Machine()) && consumer == CheckBack && run != []
      modifies this
      ensures Leads(s0, longer, Machine()) && consumer == Resting && node != STUB
      ensures Returned(s0, longer) == Returned(s0, run) + if node == NULL then [] else [node]
      ensures if node == NULL then stalled else HandedOut(Machine(), node)
      ensures longer != [] && longer[0] == run[0]
    {
      hide Inv, Runs, After, Returned, Blocked, HandedOut;
      var s := Machine();
      if front != back {
        NothingOnlyIfStalled(s);
        longer := Go(s, [], s0, run);
        node := NULL;
        return;
      }
      longer := Go(s, At(env, 5), s0, run);
      longer := PushSelf(env, s0, longer);
      node, longer := PopAgain(env, s0, longer);
    }

    /** After the stub went in, the item in front of it may have a successor. */
    method PopAgain(env: seq<seq<Label>>, ghost s0: State, ghost run: seq<Label>)
      returns (node: Addr, ghost longer: seq<Label>)
      requires Leads(s0, run, Machine()) && consumer == ReadAgain && run != []
      modifies this
      ensures Leads(s0, longer, Machine()) && consumer == Resting && node != STUB
      ensures Returned(s0, longer) == Returned(s0, run) + if node == NULL then [] else [node]
      ensures if node == NULL then stalled else HandedOut(Machine(), node)
      ensures longer != [] && longer[0] == run[0]
    {
      hide Inv, Runs, After, Returned, Blocked, HandedOut;
      var after := Load(next, front);
      if after != NULL {
        node, longer := Take(after, env, s0, run);
      } else {
        var s := Machine();
        NothingOnlyIfStalled(s);
        longer := Go(s, [], s0, run);
        node := NULL;
      }
    }

    /** `pop`, under any interference by the producers, is a run of the machine: it returns what the
        run returns, which is the first item of the queue, or null, and null only if some state
        of the run is blocked. */
    method Pop(env: seq<seq<Label>>) returns (node: Addr, ghost run: seq<Label>)
      requires Valid() && consumer == Resting
      modifies this
      ensures Valid() && consumer == Resting && node != STUB
      ensures Runs(old(Machine()), run) && Machine() == After(old(Machine()), run)
      ensures Returned(old(Machine()), run) == if node == NULL then [] else [node]
      ensures old(Contents(Machine())) + Pushed(old(Machine()), run) ==
        (if node == NULL then [] else [node]) + Contents(Machine())
      ensures if node == NULL then Meets(old(Machine()), run) else HandedOut(Machine(), node)
    {
      hide Inv, Returned, Blocked, Apply, Contents, ReturnedBy, Pushed, Meets, HandedOut;
      var s := Machine();
      NoRun(s, Consumer);
      StartOfPop(s);
      run := Go(s, At(env, 0), s, []);
      node := NULL;
      var more := true;
      if front == STUB {
        more, run := DropStub(env, s, run);
      }
      if more {
        node, run := PopItem(env, s, run);
      }
      RunConserves(s, run);
      RestHolds(s);
      RestHolds(Machine());
      if node == NULL {
        StalledPop(s, run);
      }
    }

    /** `push`, by producer `p`, while all the other producers and the consumer go on: the three
        accesses are the machine's steps, so that what holds of every run holds of this one. */
    method Push(p: nat, item: Addr, env: seq<seq<Label>>) returns (ghost run: seq<Label>)
      requires Valid() && Enabled(Machine(), Clear(p, item))
      modifies this
      ensures Valid() && p !in producers
      ensures Runs(old(Machine()), run) && Machine() == After(old(Machine()), run)
      ensures Own(run, Producer(p)) == [Clear(p, item), Exchange(p), Link(p)]
    {
      hide Inv, Took, After, Runs, Own, Busy, Blocked, Round;
      ghost var s0 := Machine();
      NoRun(s0, Producer(p));
      var s := Machine();
      next := next[item := NULL];
      run := Turn(s, Clear(p, item), Producer(p), At(env, 0), s0, []);
      s := Machine();
      var prev := back;
      back := item;
      run := Turn(s, Exchange(p), Producer(p), At(env, 1), s0, run);
      s := Machine();
      next := next[prev := item];
      run := Turn(s, Link(p), Producer(p), At(env, 2), s0, run);
    }
  }

  lemma StartOfPop(s: State)
    requires s.consumer == Resting
    ensures var t := Apply(s, Consume);
      && t.next == s.next && t.front == s.front && t.back == s.back
      && t.consumer == (if s.front == STUB then TestStub else ReadNext)
      && ReturnedBy(s, Consume) == []
  {
    hide Blocked;
  }

  lemma RestHolds(s: State)
    requires s.consumer == Resting
    ensures Held(s) == Contents(s)
  {
  }
}

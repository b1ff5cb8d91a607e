/** Distributed termination detection: `shutdown_t`, and the accounting around it in
    `dispatcher_t`, `message_hub_t` and `target_t`.

    One atomic counter holds the number of tasks and messages alive.  A send adds to it at once;
    spawns, accepted messages and finished coroutines only change a thread's own delta, which is
    added when its dispatcher's run ends.  The update that brings the counter down to zero
    broadcasts the finish message. */
module Shutdown {

  /** The counter is a `uint64_t`. */
  const WORD: int := 0x1_0000_0000_0000_0000

  /** Where a thread stands inside `update`, once it has seen the counter reach zero. */
  datatype Pc = Quiet | ReadSent | AddTargets | StoreSent | NoteFinish(k: nat) | PutFinish(k: nat)

  datatype Thread = Thread(
    inRun: bool,
    delta: int,
    tasks: nat,
    begins: nat,
    finishes: nat,
    outbox: nat,
    taskMail: nat,
    beginMail: nat,
    finishMail: nat,
    begun: bool,
    stopped: bool,
    pc: Pc)

  /** `begin_shutdown`, on the scheduler's own thread: before it, or with `k` messages sent. */
  datatype Starter = Waiting | Sending(k: nat)

  /** `unclaimed` is what the finish broadcast has added to the counter beyond the messages that
      are in some queue; `broadcasts` is how often finish was sent, and `leader` the thread that
      last saw zero. */
  datatype System = System(
    threads: seq<Thread>,
    shared: nat,
    active: int,
    finishSent: bool,
    starter: Starter,
    unclaimed: nat,
    broadcasts: nat,
    leader: nat)

  datatype Op =
    | RunStart
    | NoteSend
    | AcceptTask
    | AcceptUnknown
    | AcceptBegin
    | AcceptFinish
    | Spawn
    | EndTask
    | EndBegin
    | EndFinish

  datatype Label =
    | Local(i: nat, op: Op)
    | Post(i: nat, j: nat)
    | PostShared(i: nat)
    | AcceptShared(i: nat, known: bool)
    | Flush(i: nat)
    | Finish(i: nat)
    | Begin
    | SendBegin

  function Wrap(n: int): int {
    n % WORD
  }

  function FetchAdd(active: int, delta: int): int {
    Wrap(active + delta)
  }

  lemma Adds(active: int, delta: int)
    requires 0 <= active + delta < WORD
    ensures FetchAdd(active, delta) == active + delta
  {
  }

  lemma WrapAdd(n: int, delta: int)
    ensures 0 <= Wrap(n) < WORD && Wrap(Wrap(n) + delta) == Wrap(n + delta)
  {
  }

  // ----- one thread

  /** The coroutines of this thread that count against shutdown. */
  function Alive(t: Thread): nat {
    t.tasks + t.begins + t.finishes
  }

  /** What the shared counter knows of this thread's coroutines. */
  function Known(t: Thread): int {
    Alive(t) - if t.inRun then t.delta else 0
  }

  function Mail(t: Thread): nat {
    t.outbox + t.taskMail + t.beginMail + t.finishMail
  }

  /** The thread's share of the counter. */
  function Weight(t: Thread): int {
    Known(t) + Mail(t)
  }

  /** The counter's knowledge is never negative, and zero only if the thread has no coroutine. */
  predicate Honest(t: Thread) {
    Known(t) >= 0 && (Known(t) == 0 ==> Alive(t) == 0)
  }

  predicate CanDo(t: Thread, op: Op) {
    match op
    case RunStart => !t.inRun && t.pc == Quiet
    case NoteSend => t.inRun && t.tasks > 0
    case AcceptTask => t.inRun && t.taskMail > 0
    case AcceptUnknown => t.inRun && t.taskMail > 0
    case AcceptBegin => t.inRun && t.beginMail > 0
    case AcceptFinish => t.inRun && t.finishMail > 0
    case Spawn => t.inRun && t.tasks > 0
    case EndTask => t.inRun && t.tasks > 0
    case EndBegin => t.inRun && t.begins > 0
    case EndFinish => t.inRun && t.finishes > 0
  }

  /** A message that was counted when sent is accepted with -1 and its coroutine begins with +1;
      an unknown RPC is only accepted. */
  function DoOp(t: Thread, op: Op): Thread
    requires CanDo(t, op)
  {
    match op
    case RunStart => t.(inRun := true, delta := 0)
    case NoteSend => t.(outbox := t.outbox + 1)
    case AcceptTask => t.(taskMail := t.taskMail - 1, delta := t.delta - 1 + 1, tasks := t.tasks + 1)
    case AcceptUnknown => t.(taskMail := t.taskMail - 1, delta := t.delta - 1)
    case AcceptBegin => t.(beginMail := t.beginMail - 1, delta := t.delta - 1 + 1, begins := t.begins + 1)
    case AcceptFinish =>
      t.(finishMail := t.finishMail - 1, delta := t.delta - 1 + 1, finishes := t.finishes + 1)
    case Spawn => t.(tasks := t.tasks + 1, delta := t.delta + 1)
    case EndTask => t.(tasks := t.tasks - 1, delta := t.delta - 1)
    case EndBegin => t.(begins := t.begins - 1, delta := t.delta - 1, begun := true)
    case EndFinish => t.(finishes := t.finishes - 1, delta := t.delta - 1, stopped := true)
  }

  // ----- the whole system

  predicate Enabled(s: System, l: Label) {
    match l
    case Local(i, op) => i < |s.threads| && CanDo(s.threads[i], op)
    case Post(i, j) => i < |s.threads| && j < |s.threads| && s.threads[i].outbox > 0
    case PostShared(i) => i < |s.threads| && s.threads[i].outbox > 0
    case AcceptShared(i, known) => i < |s.threads| && s.threads[i].inRun && s.shared > 0
    case Flush(i) => i < |s.threads| && s.threads[i].inRun
    case Finish(i) =>
      i < |s.threads| && s.threads[i].pc != Quiet
      && (s.threads[i].pc.PutFinish? ==> s.threads[i].pc.k < |s.threads|)
    case Begin => s.starter == Waiting
    case SendBegin => s.starter.Sending? && s.starter.k < |s.threads|
  }

  function Update(s: System, i: nat, t: Thread): System
    requires i < |s.threads|
  {
    s.(threads := s.threads[i := t])
  }

  /** The end of a dispatcher's run: `update` is called if the delta is not zero. */
  function FlushThread(s: System, i: nat): System
    requires i < |s.threads|
  {
    var t := s.threads[i];
    if t.delta == 0 then Update(s, i, t.(inRun := false))
    else
      var done := FetchAdd(s.active, t.delta) == 0 && s.active != 0;
      Update(s, i, t.(inRun := false, pc := if done then ReadSent else Quiet))
      .(active := FetchAdd(s.active, t.delta), leader := if done then i else s.leader)
  }

  /** The next access of an `update` that saw zero.  Each finish message is noted, which adds one
      more to the counter, and then put into its target's queue. */
  function FinishStep(s: System, i: nat): System
    requires Enabled(s, Finish(i))
  {
    var t, n := s.threads[i], |s.threads|;
    match t.pc
    case Quiet => s
    case ReadSent => Update(s, i, t.(pc := if s.finishSent then Quiet else AddTargets))
    case AddTargets =>
      Update(s, i, t.(pc := StoreSent))
      .(active := FetchAdd(s.active, n), unclaimed := s.unclaimed + n)
    case StoreSent =>
      Update(s, i, t.(pc := NoteFinish(0))).(finishSent := true, broadcasts := s.broadcasts + 1)
    case NoteFinish(k) =>
      Update(s, i, t.(pc := if k < n then PutFinish(k) else Quiet))
      .(active := if k < n then FetchAdd(s.active, 1) else s.active,
        unclaimed := if k < n then s.unclaimed + 1 else s.unclaimed)
    case PutFinish(k) =>
      var u := Update(s, i, t.(pc := NoteFinish(k + 1)));
      Update(u, k, u.threads[k].(finishMail := u.threads[k].finishMail + 1))
      .(unclaimed := if s.unclaimed > 0 then s.unclaimed - 1 else 0)
  }

  function Apply(s: System, l: Label): System
    requires Enabled(s, l)
  {
    match l
    case Local(i, op) =>
      Update(s, i, DoOp(s.threads[i], op))
      .(active := if op == NoteSend then FetchAdd(s.active, 1) else s.active)
    case Post(i, j) =>
      var u := Update(s, i, s.threads[i].(outbox := s.threads[i].outbox - 1));
      Update(u, j, u.threads[j].(taskMail := u.threads[j].taskMail + 1))
    case PostShared(i) =>
      Update(s, i, s.threads[i].(outbox := s.threads[i].outbox - 1)).(shared := s.shared + 1)
    case AcceptShared(i, known) =>
      var t := s.threads[i];
      Update(s, i, if known then t.(delta := t.delta - 1 + 1, tasks := t.tasks + 1)
                   else t.(delta := t.delta - 1))
      .(shared := s.shared - 1)
    case Flush(i) => FlushThread(s, i)
    case Finish(i) => FinishStep(s, i)
    case Begin => s.(active := FetchAdd(s.active, |s.threads| - 1), starter := Sending(0))
    case SendBegin =>
      var t := s.threads[s.starter.k];
      Update(s, s.starter.k, t.(beginMail := t.beginMail + 1)).(starter := Sending(s.starter.k + 1))
  }

  function Sum(threads: seq<Thread>): int {
    if threads == [] then 0 else Weight(threads[0]) + Sum(threads[1..])
  }

  /** The begin messages still to be sent; before shutdown begins, the dummy task. */
  function Pending(s: System): int {
    match s.starter
    case Waiting => 1
    case Sending(k) => |s.threads| - k
  }

  /** Everything the counter should count. */
  function Total(s: System): int {
    Pending(s) + s.shared + Sum(s.threads) + s.unclaimed
  }

  // ----- sums

  lemma {:induction false} SumUpdate(threads: seq<Thread>, i: nat, t: Thread)
    requires i < |threads|
    ensures Sum(threads[i := t]) == Sum(threads) - Weight(threads[i]) + Weight(t)
  {
    if i == 0 {
      assert threads[i := t][1..] == threads[1..];
    } else {
      assert threads[i := t][1..] == threads[1..][i - 1 := t];
      SumUpdate(threads[1..], i - 1, t);
    }
  }

  /** Where a thread stands is no part of what it counts. */
  lemma SumPc(threads: seq<Thread>, i: nat, pc: Pc)
    requires i < |threads|
    ensures Sum(threads[i := threads[i].(pc := pc)]) == Sum(threads)
  {
    hide Sum;
    SumUpdate(threads, i, threads[i].(pc := pc));
  }

  lemma {:induction false} SumBound(threads: seq<Thread>, i: nat)
    requires i < |threads| && forall j | 0 <= j < |threads| :: Honest(threads[j])
    ensures 0 <= Weight(threads[i]) <= Sum(threads)
  {
    SumNonNegative(threads[1..]);
    if i > 0 {
      assert threads[i] == threads[1..][i - 1];
      assert Honest(threads[0]);
      SumBound(threads[1..], i - 1);
    }
  }

  lemma {:induction false} SumNonNegative(threads: seq<Thread>)
    requires forall j | 0 <= j < |threads| :: Honest(threads[j])
    ensures Sum(threads) >= 0
  {
    if threads != [] {
      assert Honest(threads[0]);
      SumNonNegative(threads[1..]);
    }
  }

  // ----- the invariant, in the three phases of a run

  function Bit(b: bool): nat {
    if b then 1 else 0
  }

  /** A thread that was sent its begin message has it, is running it, or has completed it. */
  predicate BeginReached(t: Thread) {
    t.begun || t.beginMail + t.begins >= 1
  }

  predicate NoFinish(t: Thread) {
    t.finishMail == 0 && t.finishes == 0 && !t.stopped
  }

  predicate BusyThread(t: Thread, notified: bool) {
    && Honest(t) && t.pc == Quiet && NoFinish(t)
    && (notified ==> BeginReached(t))
  }

  predicate StillThread(t: Thread, leads: bool) {
    && Honest(t) && Weight(t) == 0 && NoFinish(t) && t.begun
    && (leads ==> !t.inRun && (t.pc == ReadSent || t.pc == AddTargets || t.pc == StoreSent))
    && (!leads ==> t.pc == Quiet)
  }

  predicate EndingThread(t: Thread, leads: bool, delivered: bool) {
    && Honest(t) && t.begun
    && t.tasks == 0 && t.begins == 0 && t.outbox == 0 && t.taskMail == 0 && t.beginMail == 0
    && t.finishMail + t.finishes + Bit(t.stopped) == Bit(delivered)
    && (t.pc != Quiet ==> leads && !t.inRun && (t.pc.NoteFinish? || t.pc.PutFinish?))
  }

  function Notified(s: System): nat {
    if s.starter.Sending? then s.starter.k else 0
  }

  /** How many threads have been sent their finish message, once finish is being sent. */
  function Delivered(threads: seq<Thread>, leader: nat): nat {
    if leader < |threads| && threads[leader].pc.NoteFinish? then threads[leader].pc.k
    else if leader < |threads| && threads[leader].pc.PutFinish? then threads[leader].pc.k
    else |threads|
  }

  ghost predicate AllBusy(threads: seq<Thread>, notified: nat) {
    forall i | 0 <= i < |threads| :: BusyThread(threads[i], i < notified)
  }

  ghost predicate Before(s: System) {
    && !s.finishSent && s.unclaimed == 0 && s.broadcasts == 0 && Total(s) >= 1
    && AllBusy(s.threads, Notified(s))
  }

  ghost predicate Deciding(s: System) {
    && !s.finishSent && s.broadcasts == 0 && s.shared == 0 && s.starter == Sending(|s.threads|)
    && s.leader < |s.threads|
    && s.unclaimed == (if s.threads[s.leader].pc == StoreSent then |s.threads| else 0)
    && forall i | 0 <= i < |s.threads| :: StillThread(s.threads[i], i == s.leader)
  }

  ghost predicate Sent(s: System) {
    && s.finishSent && s.broadcasts == 1 && s.shared == 0 && s.starter == Sending(|s.threads|)
    && s.leader < |s.threads|
    && s.unclaimed == |s.threads| + Bit(s.threads[s.leader].pc.PutFinish?)
    && Delivered(s.threads, s.leader) <= |s.threads|
    && (s.threads[s.leader].pc.PutFinish? ==> s.threads[s.leader].pc.k < |s.threads|)
    && forall i | 0 <= i < |s.threads| ::
         EndingThread(s.threads[i], i == s.leader, i < Delivered(s.threads, s.leader))
  }

  ghost predicate Inv(s: System) {
    && |s.threads| >= 1
    && Notified(s) <= |s.threads|
    && 0 <= s.active == Total(s)
    && (Before(s) || Deciding(s) || Sent(s))
  }

  /** The counter has room: fewer than 2^64 tasks and messages are alive. */
  predicate Fits(s: System) {
    Total(s) < WORD
  }

  // ----- one thread's operations

  lemma OpKeepsBusy(t: Thread, op: Op, notified: bool)
    requires CanDo(t, op) && BusyThread(t, notified)
    ensures BusyThread(DoOp(t, op), notified)
    ensures Weight(DoOp(t, op)) == Weight(t) + Bit(op == NoteSend)
  {
  }

  lemma OpKeepsStill(t: Thread, op: Op, leads: bool)
    requires CanDo(t, op) && StillThread(t, leads)
    ensures op == RunStart && StillThread(DoOp(t, op), leads)
    ensures DoOp(t, op).pc == t.pc
  {
  }

  /** Once finish is being sent, only its messages and tasks are left. */
  lemma EndingOps(t: Thread, op: Op, leads: bool, delivered: bool)
    requires CanDo(t, op) && EndingThread(t, leads, delivered)
    ensures op == RunStart || op == AcceptFinish || op == EndFinish
  {
    hide Honest;
  }

  lemma FinishKeepsHonest(t: Thread, op: Op)
    requires CanDo(t, op) && Honest(t) && (op == RunStart || op == AcceptFinish || op == EndFinish)
    requires t.tasks == t.begins == 0 && t.finishMail + t.finishes <= 1
    ensures Honest(DoOp(t, op)) && Weight(DoOp(t, op)) == Weight(t)
  {
  }

  lemma OpKeepsEnding(t: Thread, op: Op, leads: bool, delivered: bool)
    requires CanDo(t, op) && EndingThread(t, leads, delivered)
    ensures op != NoteSend && EndingThread(DoOp(t, op), leads, delivered)
    ensures Weight(DoOp(t, op)) == Weight(t) && DoOp(t, op).pc == t.pc
  {
    hide Honest, Weight;
    EndingOps(t, op, leads, delivered);
    FinishKeepsHonest(t, op);
  }

  // ----- each step keeps the invariant

  lemma LocalKeepsBusy(s: System, i: nat, op: Op)
    requires Inv(s) && Before(s) && Enabled(s, Local(i, op)) && Fits(Apply(s, Local(i, op)))
    ensures Inv(Apply(s, Local(i, op)))
  {
    hide Sum, DoOp, Weight, CanDo, AllBusy, BusyThread, FetchAdd, Deciding, Sent;
    assert BusyThread(s.threads[i], i < Notified(s)) by { BusyAt(s.threads, Notified(s), i); }
    OpKeepsBusy(s.threads[i], op, i < Notified(s));
    SumUpdate(s.threads, i, DoOp(s.threads[i], op));
    BusyUpdate(s.threads, Notified(s), i, DoOp(s.threads[i], op));
    if op == NoteSend {
      Adds(s.active, 1);
    }
  }

  lemma BusyAt(threads: seq<Thread>, notified: nat, i: nat)
    requires AllBusy(threads, notified) && i < |threads|
    ensures BusyThread(threads[i], i < notified)
  {
    hide BusyThread;
  }

  lemma BusyUpdate(threads: seq<Thread>, notified: nat, i: nat, t: Thread)
    requires AllBusy(threads, notified) && i < |threads| && BusyThread(t, i < notified)
    ensures AllBusy(threads[i := t], notified)
  {
    hide BusyThread;
  }

  lemma LocalKeepsStill(s: System, i: nat, op: Op)
    requires Inv(s) && Deciding(s) && Enabled(s, Local(i, op)) && Fits(Apply(s, Local(i, op)))
    ensures Inv(Apply(s, Local(i, op)))
  {
    SumUpdate(s.threads, i, DoOp(s.threads[i], op));
    hide Sum;
    OpKeepsStill(s.threads[i], op, i == s.leader);
  }

  lemma LocalKeepsSent(s: System, i: nat, op: Op)
    requires Inv(s) && Sent(s) && Enabled(s, Local(i, op)) && Fits(Apply(s, Local(i, op)))
    ensures Inv(Apply(s, Local(i, op)))
  {
    hide Sum, DoOp, Weight, CanDo, EndingThread, FetchAdd, Before, Deciding;
    var u := Apply(s, Local(i, op));
    OpKeepsEnding(s.threads[i], op, i == s.leader, i < Delivered(s.threads, s.leader));
    SumUpdate(s.threads, i, DoOp(s.threads[i], op));
    assert Delivered(u.threads, u.leader) == Delivered(s.threads, s.leader);
    assert Sent(u);
  }

  lemma PostEffect(threads: seq<Thread>, i: nat, j: nat, notified: nat, result: seq<Thread>)
    requires AllBusy(threads, notified) && i < |threads| && j < |threads| && threads[i].outbox > 0
    requires var middle := threads[i := threads[i].(outbox := threads[i].outbox - 1)];
      result == middle[j := middle[j].(taskMail := middle[j].taskMail + 1)]
    ensures AllBusy(result, notified) && Sum(result) == Sum(threads)
  {
    hide Sum, AllBusy;
    var middle := threads[i := threads[i].(outbox := threads[i].outbox - 1)];
    BusyAt(threads, notified, i);
    SumUpdate(threads, i, middle[i]);
    BusyUpdate(threads, notified, i, middle[i]);
    BusyAt(middle, notified, j);
    SumUpdate(middle, j, result[j]);
    BusyUpdate(middle, notified, j, result[j]);
  }

  lemma PostKeepsInv(s: System, i: nat, j: nat)
    requires Inv(s) && Enabled(s, Post(i, j)) && Before(s)
    ensures Inv(Apply(s, Post(i, j)))
  {
    hide BusyThread;
    PostEffect(s.threads, i, j, Notified(s), Apply(s, Post(i, j)).threads);
  }

  lemma PostSharedKeepsInv(s: System, i: nat)
    requires Inv(s) && Enabled(s, PostShared(i)) && Before(s)
    ensures Inv(Apply(s, PostShared(i)))
  {
    SumUpdate(s.threads, i, Apply(s, PostShared(i)).threads[i]);
    hide Sum, Deciding, Sent;
    assert BusyThread(s.threads[i], i < Notified(s));
  }

  lemma AcceptSharedKeepsInv(s: System, i: nat, known: bool)
    requires Inv(s) && Enabled(s, AcceptShared(i, known)) && Before(s)
    ensures Inv(Apply(s, AcceptShared(i, known)))
  {
    SumUpdate(s.threads, i, Apply(s, AcceptShared(i, known)).threads[i]);
    hide Sum, Deciding, Sent;
    assert BusyThread(s.threads[i], i < Notified(s));
  }

  /** Only while the system is busy can a task message or a begin message move. */
  lemma MessagesNeedBusy(s: System, l: Label)
    requires Inv(s) && Enabled(s, l)
    requires l.Post? || l.PostShared? || l.AcceptShared? || l.Begin? || l.SendBegin?
    ensures Before(s)
  {
  }

  lemma StarterKeepsInv(s: System, l: Label)
    requires Inv(s) && Enabled(s, l) && Before(s) && (l.Begin? || l.SendBegin?)
    requires Fits(Apply(s, l))
    ensures Inv(Apply(s, l))
  {
    if l.SendBegin? {
      var k := s.starter.k;
      SumUpdate(s.threads, k, Apply(s, l).threads[k]);
    }
  }

  /** The sum of all that the counter counts is zero only in a still system. */
  lemma ZeroIsStill(s: System, i: nat)
    requires Notified(s) <= |s.threads| && Total(s) == 0 && i < |s.threads|
    requires s.unclaimed == 0
    requires forall j | 0 <= j < |s.threads| :: Honest(s.threads[j])
    ensures s.shared == 0 && s.starter == Sending(|s.threads|) && Weight(s.threads[i]) == 0
  {
    SumBound(s.threads, i);
  }

  /** A flush moves the delta into the counter, so that the counter stays exact. */
  lemma FlushEffect(s: System, i: nat)
    requires Inv(s) && Enabled(s, Flush(i)) && Fits(s) && Fits(FlushThread(s, i))
    requires forall j | 0 <= j < |s.threads| :: Honest(s.threads[j])
    ensures var u := FlushThread(s, i);
      && 0 <= u.active == Total(u)
      && Total(u) == Total(s) + s.threads[i].delta
      && Sum(u.threads) >= 0
      && forall j | 0 <= j < |u.threads| :: Honest(u.threads[j])
  {
    hide Before, Deciding, Sent, Sum, FetchAdd;
    var t, u := s.threads[i], FlushThread(s, i);
    SumUpdate(s.threads, i, u.threads[i]);
    SumNonNegative(u.threads);
    FlushWeight(t, u.threads[i].pc);
    Adds(s.active, t.delta);
  }

  lemma FlushWeight(t: Thread, pc: Pc)
    requires t.inRun && Honest(t)
    ensures var t2 := t.(inRun := false, pc := pc);
      Weight(t2) == Weight(t) + t.delta && Honest(t2)
  {
  }

  lemma FlushKeepsBusy(s: System, i: nat)
    requires Inv(s) && Before(s) && Enabled(s, Flush(i)) && Fits(s) && Fits(FlushThread(s, i))
    ensures Inv(FlushThread(s, i))
  {
    hide Sum;
    var u := FlushThread(s, i);
    assert forall j | 0 <= j < |s.threads| :: Honest(s.threads[j]);
    FlushEffect(s, i);
    if Total(u) == 0 {
      forall j | 0 <= j < |u.threads|
        ensures StillThread(u.threads[j], j == i)
      {
        ZeroIsStill(u, j);
        assert BusyThread(s.threads[j], j < Notified(s));
      }
      ZeroIsStill(u, i);
      assert Deciding(u);
    } else {
      assert Before(u);
    }
  }

  lemma FlushKeepsStill(s: System, i: nat)
    requires Inv(s) && Deciding(s) && Enabled(s, Flush(i)) && Fits(s) && Fits(FlushThread(s, i))
    ensures Inv(FlushThread(s, i))
  {
    hide Sum;
    var t, u := s.threads[i], FlushThread(s, i);
    assert forall j | 0 <= j < |s.threads| :: Honest(s.threads[j]);
    FlushEffect(s, i);
    assert StillThread(t, i == s.leader) && t.delta == 0;
  }

  lemma FlushKeepsSent(s: System, i: nat)
    requires Inv(s) && Sent(s) && Enabled(s, Flush(i)) && Fits(s) && Fits(FlushThread(s, i))
    ensures Inv(FlushThread(s, i))
  {
    hide Sum;
    var t, u := s.threads[i], FlushThread(s, i);
    assert forall j | 0 <= j < |s.threads| :: Honest(s.threads[j]);
    FlushEffect(s, i);
    assert EndingThread(t, i == s.leader, i < Delivered(s.threads, s.leader));
    assert u.threads[i].pc == t.pc == Quiet;
    assert Delivered(u.threads, u.leader) == Delivered(s.threads, s.leader);
  }

  lemma DecideKeepsInv(s: System, i: nat)
    requires Inv(s) && Deciding(s) && Enabled(s, Finish(i)) && Fits(s) && Fits(FinishStep(s, i))
    ensures Inv(FinishStep(s, i))
  {
    hide Sum, FetchAdd, Before;
    var u := FinishStep(s, i);
    assert StillThread(s.threads[i], i == s.leader);
    SumPc(s.threads, i, u.threads[i].pc);
    if s.threads[i].pc == AddTargets {
      Adds(s.active, |s.threads|);
    }
    if s.threads[i].pc == StoreSent {
      assert Sent(u);
    } else {
      assert Deciding(u);
    }
  }

  lemma NoteKeepsThread(s: System, i: nat, u: System, j: nat)
    requires Sent(s) && Enabled(s, Finish(i)) && s.threads[i].pc.NoteFinish? && u == FinishStep(s, i)
    requires j < |s.threads|
    ensures i == s.leader && EndingThread(u.threads[j], j == i, j < s.threads[i].pc.k)
  {
    assert EndingThread(s.threads[i], i == s.leader, i < Delivered(s.threads, s.leader));
    assert EndingThread(s.threads[j], j == s.leader, j < Delivered(s.threads, s.leader));
  }

  lemma NoteKeepsInv(s: System, i: nat)
    requires Inv(s) && Sent(s) && Enabled(s, Finish(i)) && s.threads[i].pc.NoteFinish?
    requires Fits(s) && Fits(FinishStep(s, i))
    ensures Inv(FinishStep(s, i))
  {
    hide Sum, EndingThread, FetchAdd, Before, Deciding;
    var k, u := s.threads[i].pc.k, FinishStep(s, i);
    SumPc(s.threads, i, u.threads[i].pc);
    forall j | 0 <= j < |u.threads|
      ensures EndingThread(u.threads[j], j == i, j < k)
    {
      NoteKeepsThread(s, i, u, j);
    }
    NoteKeepsThread(s, i, u, i);
    if k < |s.threads| {
      Adds(s.active, 1);
    }
    assert Sent(u);
  }

  lemma PutEffect(s: System, i: nat, u: System)
    requires Enabled(s, Finish(i)) && s.threads[i].pc.PutFinish? && u == FinishStep(s, i)
    ensures Sum(u.threads) == Sum(s.threads) + 1
  {
    hide Sum;
    var k := s.threads[i].pc.k;
    var middle := s.threads[i := s.threads[i].(pc := NoteFinish(k + 1))];
    SumPc(s.threads, i, NoteFinish(k + 1));
    SumUpdate(middle, k, u.threads[k]);
  }

  lemma PutKeepsThread(s: System, i: nat, u: System, j: nat)
    requires Sent(s) && Enabled(s, Finish(i)) && s.threads[i].pc.PutFinish? && u == FinishStep(s, i)
    requires i == s.leader && j < |s.threads|
    ensures EndingThread(u.threads[j], j == i, j < s.threads[i].pc.k + 1)
  {
    hide Sum;
    assert EndingThread(s.threads[j], j == s.leader, j < s.threads[i].pc.k);
  }

  lemma PutKeepsInv(s: System, i: nat)
    requires Inv(s) && Sent(s) && Enabled(s, Finish(i)) && s.threads[i].pc.PutFinish?
    ensures Inv(FinishStep(s, i))
  {
    var u := FinishStep(s, i);
    assert EndingThread(s.threads[i], i == s.leader, i < Delivered(s.threads, s.leader));
    PutEffect(s, i, u);
    hide Sum, EndingThread;
    forall j | 0 <= j < |u.threads|
      ensures EndingThread(u.threads[j], j == i, j < s.threads[i].pc.k + 1)
    {
      PutKeepsThread(s, i, u, j);
    }
    assert Sent(u);
  }

  /** Every step keeps the invariant, as long as the counter does not overflow. */
  lemma StepKeepsInv(s: System, l: Label)
    requires Inv(s) && Enabled(s, l) && Fits(s) && Fits(Apply(s, l))
    ensures Inv(Apply(s, l))
  {
    hide Before, Deciding, Sent, Sum;
    match l
    case Local(i, op) =>
      if Before(s) {
        LocalKeepsBusy(s, i, op);
      } else if Deciding(s) {
        LocalKeepsStill(s, i, op);
      } else {
        LocalKeepsSent(s, i, op);
      }
    case Post(i, j) =>
      MessagesNeedBusy(s, l);
      PostKeepsInv(s, i, j);
    case PostShared(i) =>
      MessagesNeedBusy(s, l);
      PostSharedKeepsInv(s, i);
    case AcceptShared(i, known) =>
      MessagesNeedBusy(s, l);
      AcceptSharedKeepsInv(s, i, known);
    case Flush(i) =>
      if Before(s) {
        FlushKeepsBusy(s, i);
      } else if Deciding(s) {
        FlushKeepsStill(s, i);
      } else {
        FlushKeepsSent(s, i);
      }
    case Finish(i) => FinishKeepsInv(s, i);
    case Begin =>
      MessagesNeedBusy(s, l);
      StarterKeepsInv(s, l);
    case SendBegin =>
      MessagesNeedBusy(s, l);
      StarterKeepsInv(s, l);
  }

  lemma FinishKeepsInv(s: System, i: nat)
    requires Inv(s) && Enabled(s, Finish(i)) && Fits(s) && Fits(FinishStep(s, i))
    ensures Inv(FinishStep(s, i))
  {
    hide Sum;
    if Deciding(s) {
      DecideKeepsInv(s, i);
    } else if Sent(s) {
      assert EndingThread(s.threads[i], i == s.leader, i < Delivered(s.threads, s.leader));
      if s.threads[i].pc.NoteFinish? {
        NoteKeepsInv(s, i);
      } else {
        PutKeepsInv(s, i);
      }
    }
  }

  // ----- whole runs

  /** The state right after `reset`: `queued[i]` tasks wait for thread `i`, `shared` for any. */
  function Reset(queued: seq<nat>, shared: nat): System {
    var threads := seq(|queued|, i requires 0 <= i < |queued| =>
      Thread(false, 0, 0, 0, 0, 0, queued[i], 0, 0, false, false, Quiet));
    System(threads, shared, 1 + shared + SumOf(queued), false, Waiting, 0, 0, 0)
  }

  function SumOf(queued: seq<nat>): nat {
    if queued == [] then 0 else queued[0] + SumOf(queued[1..])
  }

  predicate Runs(s: System, labels: seq<Label>)
    decreases labels
  {
    Fits(s) && (labels == [] || (Enabled(s, labels[0]) && Runs(Apply(s, labels[0]), labels[1..])))
  }

  function After(s: System, labels: seq<Label>): System
    requires Runs(s, labels)
    decreases labels
  {
    if labels == [] then s else After(Apply(s, labels[0]), labels[1..])
  }

  lemma {:induction false} SumOfReset(queued: seq<nat>, shared: nat)
    ensures Sum(Reset(queued, shared).threads) == SumOf(queued)
  {
    if queued != [] {
      var threads := Reset(queued, shared).threads;
      assert threads[1..] == Reset(queued[1..], shared).threads;
      SumOfReset(queued[1..], shared);
    }
  }

  lemma ResetInv(queued: seq<nat>, shared: nat)
    requires |queued| >= 1
    ensures Inv(Reset(queued, shared))
  {
    SumOfReset(queued, shared);
  }

  lemma {:induction false} RunKeepsInv(s: System, labels: seq<Label>)
    requires Inv(s) && Runs(s, labels)
    ensures Inv(After(s, labels)) && Fits(After(s, labels))
    decreases labels
  {
    hide Inv, Fits, Enabled, Apply;
    if labels != [] {
      StepKeepsInv(s, labels[0]);
      RunKeepsInv(Apply(s, labels[0]), labels[1..]);
    }
  }

  /** Nothing is left to do anywhere: no coroutine, no message, and every begin task completed. */
  ghost predicate Finished(s: System) {
    && s.shared == 0 && s.starter == Sending(|s.threads|)
    && forall i | 0 <= i < |s.threads| ::
         s.threads[i].tasks == 0 && s.threads[i].begins == 0
         && s.threads[i].outbox == 0 && s.threads[i].taskMail == 0 && s.threads[i].beginMail == 0
         && s.threads[i].begun
  }

  /** Some thread has seen zero and is sending finish, or finish has been sent. */
  ghost predicate Triggered(s: System) {
    s.broadcasts == 1 || exists i | 0 <= i < |s.threads| :: s.threads[i].pc != Quiet
  }

  /** Safety: from the moment some `update` sees zero, whatever deltas are still unflushed, no
      thread has a live task and no counted message is in flight; so finish is broadcast only
      after every begin task has completed, and it is broadcast at most once. */
  lemma FinishIsSafe(queued: seq<nat>, shared: nat, labels: seq<Label>)
    requires |queued| >= 1 && Runs(Reset(queued, shared), labels)
    ensures var s := After(Reset(queued, shared), labels);
      && s.broadcasts <= 1
      && (Triggered(s) ==> Finished(s))
  {
    ResetInv(queued, shared);
    RunKeepsInv(Reset(queued, shared), labels);
    var s := After(Reset(queued, shared), labels);
    if Deciding(s) {
      forall i | 0 <= i < |s.threads|
        ensures Alive(s.threads[i]) == 0 && Mail(s.threads[i]) == 0 && s.threads[i].begun
      {
        assert StillThread(s.threads[i], i == s.leader);
      }
    }
  }

  /** No task or message is left, shutdown has begun, and every thread has flushed its delta. */
  ghost predicate Drained(s: System) {
    && s.starter == Sending(|s.threads|) && s.shared == 0
    && forall i | 0 <= i < |s.threads| ::
         !s.threads[i].inRun && Alive(s.threads[i]) == 0 && Mail(s.threads[i]) == 0
  }

  lemma DrainedIsTriggered(s: System)
    requires Inv(s) && Drained(s)
    ensures Triggered(s)
  {
    SumOfStill(s.threads);
    hide Sum;
    if Deciding(s) {
      assert StillThread(s.threads[s.leader], true);
    }
  }

  /** Exactness: a drained state has already triggered the broadcast. */
  lemma FinishIsExact(queued: seq<nat>, shared: nat, labels: seq<Label>)
    requires |queued| >= 1 && Runs(Reset(queued, shared), labels)
    ensures var s := After(Reset(queued, shared), labels); Drained(s) ==> Triggered(s)
  {
    hide Inv, Drained, Triggered, After, Runs, Reset;
    ResetInv(queued, shared);
    RunKeepsInv(Reset(queued, shared), labels);
    var s := After(Reset(queued, shared), labels);
    if Drained(s) {
      DrainedIsTriggered(s);
    }
  }

  lemma {:induction false} SumOfStill(threads: seq<Thread>)
    requires forall i | 0 <= i < |threads| :: Weight(threads[i]) == 0
    ensures Sum(threads) == 0
  {
    if threads != [] {
      SumOfStill(threads[1..]);
    }
  }

  /** The assertion of `finish_shutdown`: the shutdown event is triggered on every thread that
      runs a finish task; and each thread is sent finish exactly once. */
  lemma FinishFindsEventSet(queued: seq<nat>, shared: nat, labels: seq<Label>, i: nat)
    requires |queued| >= 1 && Runs(Reset(queued, shared), labels)
    requires i < |After(Reset(queued, shared), labels).threads|
    ensures var t := After(Reset(queued, shared), labels).threads[i];
      && (t.finishes > 0 || t.stopped ==> t.begun)
      && t.finishMail + t.finishes + Bit(t.stopped) <= 1
  {
    ResetInv(queued, shared);
    RunKeepsInv(Reset(queued, shared), labels);
    var s := After(Reset(queued, shared), labels);
    if Sent(s) {
      assert EndingThread(s.threads[i], i == s.leader, i < Delivered(s.threads, s.leader));
    } else if Deciding(s) {
      assert StillThread(s.threads[i], i == s.leader);
    } else {
      assert BusyThread(s.threads[i], i < Notified(s));
    }
  }

  /** Once a broadcast is over, every thread was sent finish: its message waits, or its task runs or has run. */
  lemma FinishReachesAll(queued: seq<nat>, shared: nat, labels: seq<Label>, i: nat)
    requires |queued| >= 1 && Runs(Reset(queued, shared), labels)
    requires var s := After(Reset(queued, shared), labels);
      && s.broadcasts == 1 && i < |s.threads|
      && forall j | 0 <= j < |s.threads| :: s.threads[j].pc == Quiet
    ensures var t := After(Reset(queued, shared), labels).threads[i];
      t.finishMail + t.finishes + (if t.stopped then 1 else 0) == 1
  {
    hide Sum, After, Runs, Reset;
    ResetInv(queued, shared);
    RunKeepsInv(Reset(queued, shared), labels);
    var s := After(Reset(queued, shared), labels);
    assert EndingThread(s.threads[i], i == s.leader, i < Delivered(s.threads, s.leader));
  }

  /** Only the flush at the end of a run can bring the counter to zero: the nested updates of a
      send, of a finish message and of `begin_shutdown` never decide anything. */
  lemma OnlyFlushReachesZero(s: System, l: Label)
    requires Inv(s) && Enabled(s, l) && Fits(s) && Fits(Apply(s, l))
    ensures Apply(s, l).active == 0 && s.active != 0 ==> l.Flush?
  {
    StepKeepsInv(s, l);
    hide Sum;
    if l.Finish? {
      if Deciding(s) {
        SumOfStill(s.threads);
        assert StillThread(s.threads[l.i], l.i == s.leader);
      } else if s.threads[l.i].pc.NoteFinish? {
        SumUpdate(s.threads, l.i, Apply(s, l).threads[l.i]);
      } else if Sent(s) {
        assert EndingThread(s.threads[l.i], l.i == s.leader, l.i < Delivered(s.threads, s.leader));
      }
    }
  }

  // ----- no task is lost on its way

  /** The tasks of a thread: those it runs, those whose messages wait, and those it is about to send. */
  function Jobs(t: Thread): nat {
    t.outbox + t.taskMail + t.tasks
  }

  function JobSum(threads: seq<Thread>): nat {
    if threads == [] then 0 else Jobs(threads[0]) + JobSum(threads[1..])
  }

  function AllJobs(s: System): nat {
    JobSum(s.threads) + s.shared
  }

  lemma {:induction false} JobSumUpdate(threads: seq<Thread>, i: nat, t: Thread)
    requires i < |threads|
    ensures JobSum(threads[i := t]) == JobSum(threads) - Jobs(threads[i]) + Jobs(t)
  {
    if i == 0 {
      assert threads[i := t][1..] == threads[1..];
    } else {
      assert threads[i := t][1..] == threads[1..][i - 1 := t];
      JobSumUpdate(threads[1..], i - 1, t);
    }
  }

  /**
   * A task that is sent arrives and runs: only a send and a spawn make a task, and only the end of a
   * task, or a message for an RPC that the target does not know, takes one away.
   */
  lemma JobsConserved(s: System, l: Label)
    requires Enabled(s, l)
    ensures AllJobs(Apply(s, l)) - AllJobs(s) ==
      if l.Local? && (l.op == NoteSend || l.op == Spawn) then 1
      else if l.Local? && (l.op == EndTask || l.op == AcceptUnknown) then -1
      else if l.AcceptShared? && !l.known then -1
      else 0
  {
    hide JobSum, FetchAdd;
    match l
    case Local(i, op) => JobSumUpdate(s.threads, i, DoOp(s.threads[i], op));
    case Post(i, j) => PostJobs(s.threads, i, j);
    case PostShared(i) => JobSumUpdate(s.threads, i, Apply(s, l).threads[i]);
    case AcceptShared(i, known) => JobSumUpdate(s.threads, i, Apply(s, l).threads[i]);
    case Flush(i) => JobSumUpdate(s.threads, i, Apply(s, l).threads[i]);
    case Finish(i) => FinishJobs(s, i);
    case Begin =>
    case SendBegin => JobSumUpdate(s.threads, s.starter.k, Apply(s, l).threads[s.starter.k]);
  }

  lemma PostJobs(threads: seq<Thread>, i: nat, j: nat)
    requires i < |threads| && j < |threads| && threads[i].outbox > 0
    ensures var middle := threads[i := threads[i].(outbox := threads[i].outbox - 1)];
      JobSum(middle[j := middle[j].(taskMail := middle[j].taskMail + 1)]) == JobSum(threads)
  {
    hide JobSum;
    var middle := threads[i := threads[i].(outbox := threads[i].outbox - 1)];
    JobSumUpdate(threads, i, middle[i]);
    JobSumUpdate(middle, j, middle[j].(taskMail := middle[j].taskMail + 1));
  }

  lemma FinishJobs(s: System, i: nat)
    requires Enabled(s, Finish(i))
    ensures AllJobs(FinishStep(s, i)) == AllJobs(s)
  {
    hide JobSum, FetchAdd;
    var u := FinishStep(s, i);
    if s.threads[i].pc.PutFinish? {
      var k := s.threads[i].pc.k;
      var middle := s.threads[i := s.threads[i].(pc := NoteFinish(k + 1))];
      JobSumUpdate(s.threads, i, middle[i]);
      JobSumUpdate(middle, k, u.threads[k]);
    } else {
      JobSumUpdate(s.threads, i, u.threads[i]);
    }
  }

  /** A message goes to the thread that it was sent to, or to the queue that all threads share. */
  lemma PostArrives(s: System, i: nat, j: nat)
    requires Enabled(s, Post(i, j)) && Enabled(s, PostShared(i))
    ensures Apply(s, Post(i, j)).threads[j].taskMail == s.threads[j].taskMail + 1
    ensures Apply(s, Post(i, j)).shared == s.shared && Apply(s, PostShared(i)).shared == s.shared + 1
  {
  }

  // ----- the code of `shutdown_t`, called by one thread without interference

  class Counter {
    const targets: nat
    var finishSent: bool
    var active: int

    ghost predicate Valid()
      reads this
    {
      0 <= active < WORD
    }

    constructor (targets: nat)
      ensures Valid() && this.targets == targets && finishSent && active == 0
    {
      this.targets := targets;
      finishSent, active := true, 0;
    }

    /** The extra 1 is the dummy task that holds shutdown off until it begins. */
    method Reset(initial: nat)
      requires initial + 1 < WORD
      modifies this
      ensures Valid() && active == initial + 1 && !finishSent
    {
      active := initial + 1;
      finishSent := false;
    }

    /** Decides when the counter goes from non-zero to zero, once per reset; each of the finish
        messages is then counted twice, so that the counter cannot reach zero again soon. */
    method Update(delta: int) returns (sent: nat)
      requires Valid()
      modifies this
      ensures Valid()
      ensures var fires := FetchAdd(old(active), delta) == 0 && old(active) != 0 && !old(finishSent);
        && sent == (if fires then targets else 0)
        && finishSent == (old(finishSent) || fires)
        && active == if fires then Wrap(2 * targets) else FetchAdd(old(active), delta)
      decreases if finishSent then 0 else 1
    {
      hide Wrap;
      sent := 0;
      var res := active;
      WrapAdd(active + delta, 0);
      WrapAdd(2 * targets, 0);
      active := FetchAdd(active, delta);
      var done := FetchAdd(res, delta) == 0;
      if done && res != 0 && !finishSent {
        active := FetchAdd(active, targets);
        finishSent := true;
        for k := 0 to targets
          invariant sent == k && finishSent && active == Wrap(targets + k)
        {
          WrapAdd(targets + k, 1);
          var nested := Update(1);
          sent := sent + 1;
        }
      }
    }
  }
}

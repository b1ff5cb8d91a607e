/** `cross_thread_mutex_t`: a list of acquirers behind a spinlock.  The front acquirer owns the
    lock; ownership is handed on by an RPC to the next one's home thread, which checks that the
    acquirer is still at the front before it makes it ready.

    An acquirer is an address on its home thread.  Addresses are reused, so a notification may
    arrive for an acquirer that is gone, or for a later one at the same address. */
module CrossThreadMutex {
  import opened Sequences

  datatype AcqId = AcqId(home: nat, address: nat)

  datatype Acq = Acq(has: bool, waiters: set<nat>)

  /** What a thread still has to do after leaving a critical section. */
  datatype Errand = Readying(acq: AcqId) | Notifying(acq: AcqId)

  /** `mail` holds the notify messages that no thread has run yet. */
  datatype State = State(
    locks: seq<AcqId>,
    acqs: map<AcqId, Acq>,
    errands: map<nat, Errand>,
    mail: multiset<AcqId>)

  datatype Label =
    | Construct(acq: AcqId)
    | Destroy(acq: AcqId)
    | AddWait(acq: AcqId, waiter: nat)
    | RemoveWait(acq: AcqId, waiter: nat)
    | Send(thread: nat)
    | Deliver(acq: AcqId)
    | Ready(thread: nat)

  const INITIAL: State := State([], map[], map[], multiset{})

  function Leave(locks: seq<AcqId>, a: AcqId): seq<AcqId> {
    if locks == [] then []
    else if locks[0] == a then locks[1..]
    else [locks[0]] + Leave(locks[1..], a)
  }

  predicate IsFront(locks: seq<AcqId>, a: AcqId) {
    locks != [] && locks[0] == a
  }

  /** A thread runs one thing at a time: it starts nothing while it has an errand. */
  predicate Enabled(s: State, l: Label) {
    match l
    case Construct(a) => a.home !in s.errands && a !in s.acqs
    case Destroy(a) => a.home !in s.errands && a in s.acqs
    case AddWait(a, w) => a.home !in s.errands && a in s.acqs
    case RemoveWait(a, w) => a.home !in s.errands && a in s.acqs && w in s.acqs[a].waiters
    case Send(t) => t in s.errands && s.errands[t].Notifying?
    case Deliver(a) => a in s.mail && a.home !in s.errands
    case Ready(t) => t in s.errands && s.errands[t].Readying?
  }

  function Apply(s: State, l: Label): State
    requires Enabled(s, l)
  {
    match l
    case Construct(a) =>
      s.(locks := s.locks + [a],
         acqs := s.acqs[a := Acq(false, {})],
         errands := if s.locks == [] then s.errands[a.home := Readying(a)] else s.errands)
    case Destroy(a) =>
      var rest := Leave(s.locks, a);
      s.(locks := rest,
         acqs := s.acqs - {a},
         errands := if IsFront(s.locks, a) && rest != [] then s.errands[a.home := Notifying(rest[0])]
                    else s.errands)
    case AddWait(a, w) =>
      var acq := s.acqs[a];
      s.(acqs := s.acqs[a := if acq.has then acq else Acq(false, acq.waiters + {w})])
    case RemoveWait(a, w) =>
      s.(acqs := s.acqs[a := s.acqs[a].(waiters := s.acqs[a].waiters - {w})])
    case Send(t) =>
      s.(errands := s.errands - {t}, mail := s.mail + multiset{s.errands[t].acq})
    case Deliver(a) =>
      s.(mail := s.mail - multiset{a},
         errands := if IsFront(s.locks, a) then s.errands[a.home := Readying(a)] else s.errands)
    case Ready(t) =>
      var a := s.errands[t].acq;
      s.(errands := s.errands - {t}, acqs := s.acqs[a := Acq(true, {})])
  }

  // ----- the invariant

  ghost predicate Distinct(locks: seq<AcqId>) {
    locks == [] || (locks[0] !in locks[1..] && Distinct(locks[1..]))
  }

  /** Somebody is on the way to make `a` ready, or to have that done. */
  ghost predicate Promised(s: State, a: AcqId) {
    || (a.home in s.errands && s.errands[a.home] == Readying(a))
    || a in s.mail
    || exists t | t in s.errands :: s.errands[t] == Notifying(a)
  }

  ghost predicate QueueInv(locks: seq<AcqId>, acqs: map<AcqId, Acq>) {
    && Distinct(locks)
    && (forall a :: a in locks <==> a in acqs)
    && (forall a | a in acqs && acqs[a].has :: IsFront(locks, a) && acqs[a].waiters == {})
  }

  ghost predicate ErrandInv(locks: seq<AcqId>, errands: map<nat, Errand>) {
    forall t | t in errands && errands[t].Readying? ::
      errands[t].acq.home == t && IsFront(locks, errands[t].acq)
  }

  ghost predicate HandoffInv(s: State) {
    s.locks != [] ==> s.locks[0] in s.acqs && (s.acqs[s.locks[0]].has || Promised(s, s.locks[0]))
  }

  ghost predicate Inv(s: State) {
    QueueInv(s.locks, s.acqs) && ErrandInv(s.locks, s.errands) && HandoffInv(s)
  }

  // ----- each step keeps the invariant

  lemma {:induction false} LeaveKeeps(locks: seq<AcqId>, a: AcqId)
    requires Distinct(locks)
    ensures Distinct(Leave(locks, a))
    ensures forall b :: b in Leave(locks, a) <==> b in locks && b != a
    ensures locks != [] && locks[0] != a ==> Leave(locks, a) != [] && Leave(locks, a)[0] == locks[0]
  {
    if locks != [] && locks[0] != a {
      var rest := Leave(locks[1..], a);
      LeaveKeeps(locks[1..], a);
      assert ([locks[0]] + rest)[1..] == rest;
    }
  }

  lemma {:induction false} DistinctAppend(locks: seq<AcqId>, a: AcqId)
    requires Distinct(locks) && a !in locks
    ensures Distinct(locks + [a])
  {
    if locks != [] {
      assert (locks + [a])[1..] == locks[1..] + [a];
      DistinctAppend(locks[1..], a);
    }
  }

  lemma ConstructKeepsInv(s: State, a: AcqId)
    requires Inv(s) && Enabled(s, Construct(a))
    ensures Inv(Apply(s, Construct(a)))
  {
    DistinctAppend(s.locks, a);
    hide Distinct;
    var t := Apply(s, Construct(a));
    if s.locks != [] {
      assert t.locks[0] == s.locks[0];
    }
  }

  lemma DestroyKeepsQueue(s: State, a: AcqId)
    requires Inv(s) && Enabled(s, Destroy(a))
    ensures var t := Apply(s, Destroy(a)); QueueInv(t.locks, t.acqs)
  {
    LeaveKeeps(s.locks, a);
    hide Distinct, Leave, HandoffInv, ErrandInv;
  }

  lemma DestroyKeepsErrands(s: State, a: AcqId)
    requires Inv(s) && Enabled(s, Destroy(a))
    ensures var t := Apply(s, Destroy(a)); ErrandInv(t.locks, t.errands)
  {
    LeaveKeeps(s.locks, a);
    hide Distinct, Leave, HandoffInv;
  }

  /** A front that stays keeps its promise; a front that goes promises the lock to the next. */
  lemma DestroyKeepsHandoff(s: State, a: AcqId)
    requires Inv(s) && Enabled(s, Destroy(a))
    ensures HandoffInv(Apply(s, Destroy(a)))
  {
    LeaveKeeps(s.locks, a);
    hide Distinct, Leave, ErrandInv;
    var t := Apply(s, Destroy(a));
    if t.locks != [] {
      if IsFront(s.locks, a) {
        assert t.errands[a.home] == Notifying(t.locks[0]);
      } else if v :| v in s.errands && s.errands[v] == Notifying(s.locks[0]) {
        assert t.errands[v] == Notifying(t.locks[0]);
      }
    }
  }

  lemma DestroyKeepsInv(s: State, a: AcqId)
    requires Inv(s) && Enabled(s, Destroy(a))
    ensures Inv(Apply(s, Destroy(a)))
  {
    DestroyKeepsQueue(s, a);
    DestroyKeepsErrands(s, a);
    DestroyKeepsHandoff(s, a);
    hide QueueInv, ErrandInv, HandoffInv;
  }

  lemma WaitKeepsInv(s: State, l: Label)
    requires Inv(s) && Enabled(s, l) && (l.AddWait? || l.RemoveWait?)
    ensures Inv(Apply(s, l))
  {
  }

  lemma SendKeepsInv(s: State, t: nat)
    requires Inv(s) && Enabled(s, Send(t))
    ensures Inv(Apply(s, Send(t)))
  {
    hide Distinct;
    var u := Apply(s, Send(t));
    if s.locks != [] && Promised(s, s.locks[0]) {
      var a := s.locks[0];
      if v :| v in s.errands && s.errands[v] == Notifying(a) {
        assert if v == t then a in u.mail else u.errands[v] == Notifying(a);
      }
    }
  }

  lemma DeliverKeepsInv(s: State, a: AcqId)
    requires Inv(s) && Enabled(s, Deliver(a))
    ensures Inv(Apply(s, Deliver(a)))
  {
    hide Distinct;
  }

  lemma ReadyKeepsInv(s: State, t: nat)
    requires Inv(s) && Enabled(s, Ready(t))
    ensures Inv(Apply(s, Ready(t)))
  {
    hide Distinct;
  }

  lemma StepKeepsInv(s: State, l: Label)
    requires Inv(s) && Enabled(s, l)
    ensures Inv(Apply(s, l))
  {
    hide *;
    match l
    case Construct(a) => ConstructKeepsInv(s, a);
    case Destroy(a) => DestroyKeepsInv(s, a);
    case AddWait(a, w) => WaitKeepsInv(s, l);
    case RemoveWait(a, w) => WaitKeepsInv(s, l);
    case Send(t) => SendKeepsInv(s, t);
    case Deliver(a) => DeliverKeepsInv(s, a);
    case Ready(t) => ReadyKeepsInv(s, t);
  }

  // ----- whole runs

  predicate Runs(s: State, labels: seq<Label>)
    decreases labels
  {
    labels == [] || (Enabled(s, labels[0]) && Runs(Apply(s, labels[0]), labels[1..]))
  }

  function After(s: State, labels: seq<Label>): State
    requires Runs(s, labels)
    decreases labels
  {
    if labels == [] then s else After(Apply(s, labels[0]), labels[1..])
  }

  lemma {:induction false} RunKeepsInv(s: State, labels: seq<Label>)
    requires Inv(s) && Runs(s, labels)
    ensures Inv(After(s, labels))
    decreases labels
  {
    hide Inv, Enabled, Apply;
    if labels != [] {
      StepKeepsInv(s, labels[0]);
      RunKeepsInv(Apply(s, labels[0]), labels[1..]);
    }
  }

  /** In every reachable state at most one acquirer owns the lock, and it is the front one. */
  lemma MutualExclusion(labels: seq<Label>, a: AcqId, b: AcqId)
    requires Runs(INITIAL, labels)
    ensures var s := After(INITIAL, labels);
      && (a in s.acqs && s.acqs[a].has ==> IsFront(s.locks, a))
      && (a in s.acqs && s.acqs[a].has && b in s.acqs && s.acqs[b].has ==> a == b)
  {
    RunKeepsInv(INITIAL, labels);
  }

  // ----- the lock is handed on in the order in which the acquirers came

  predicate Precedes(locks: seq<AcqId>, a: AcqId, b: AcqId) {
    exists i, j | 0 <= i < j < |locks| :: locks[i] == a && locks[j] == b
  }

  /** Where the acquirer at place `i` stands after `c` has left. */
  function PlaceWithout(locks: seq<AcqId>, c: AcqId, i: nat): (n: nat)
    requires i < |locks| && locks[i] != c
    ensures n < |Leave(locks, c)| && Leave(locks, c)[n] == locks[i]
  {
    if locks[0] == c then i - 1
    else if i == 0 then 0
    else 1 + PlaceWithout(locks[1..], c, i - 1)
  }

  lemma {:induction false} PlacesKeepOrder(locks: seq<AcqId>, c: AcqId, i: nat, j: nat)
    requires i < j < |locks| && locks[i] != c && locks[j] != c
    ensures PlaceWithout(locks, c, i) < PlaceWithout(locks, c, j)
  {
    hide Leave;
    if locks[0] != c && i > 0 {
      PlacesKeepOrder(locks[1..], c, i - 1, j - 1);
    }
  }

  lemma ConstructBehind(locks: seq<AcqId>, a: AcqId, b: AcqId)
    ensures a in locks ==> Precedes(locks + [b], a, b)
  {
    if a in locks {
      var i :| 0 <= i < |locks| && locks[i] == a;
      assert (locks + [b])[i] == a && (locks + [b])[|locks|] == b;
    }
  }

  lemma ConstructSpares(locks: seq<AcqId>, a: AcqId, b: AcqId, c: AcqId)
    requires Precedes(locks, a, b)
    ensures Precedes(locks + [c], a, b)
  {
    var i, j :| 0 <= i < j < |locks| && locks[i] == a && locks[j] == b;
    assert (locks + [c])[i] == a && (locks + [c])[j] == b;
  }

  lemma LeaveSpares(locks: seq<AcqId>, a: AcqId, b: AcqId, c: AcqId)
    requires Precedes(locks, a, b) && a != c && b != c
    ensures Precedes(Leave(locks, c), a, b)
  {
    hide Leave;
    var i, j :| 0 <= i < j < |locks| && locks[i] == a && locks[j] == b;
    PlacesKeepOrder(locks, c, i, j);
  }

  /** A new acquirer stands behind all the others. */
  lemma NewIsLast(s: State, a: AcqId, b: AcqId)
    requires Inv(s) && Enabled(s, Construct(b)) && a in s.acqs
    ensures Precedes(Apply(s, Construct(b)).locks, a, b)
  {
    ConstructBehind(s.locks, a, b);
  }

  /** No step changes the order of two acquirers that stay. */
  lemma StepKeepsOrder(s: State, l: Label, a: AcqId, b: AcqId)
    requires Inv(s) && Enabled(s, l) && Precedes(s.locks, a, b)
    requires a in Apply(s, l).acqs && b in Apply(s, l).acqs
    ensures Precedes(Apply(s, l).locks, a, b)
  {
    hide Precedes, Distinct, ErrandInv, HandoffInv, Leave;
    if l.Construct? {
      ConstructSpares(s.locks, a, b, l.acq);
    } else if l.Destroy? {
      LeaveSpares(s.locks, a, b, l.acq);
    }
  }

  /** `a` is alive, and `b` stands behind it whenever it exists. */
  ghost predicate Ahead(s: State, a: AcqId, b: AcqId) {
    a in s.acqs && (b in s.acqs ==> Precedes(s.locks, a, b))
  }

  lemma StepKeepsAhead(s: State, l: Label, a: AcqId, b: AcqId)
    requires Inv(s) && Enabled(s, l) && Ahead(s, a, b) && a != b && l != Destroy(a)
    ensures Ahead(Apply(s, l), a, b)
  {
    hide Precedes, Distinct, HandoffInv, Leave;
    if b in s.acqs {
      if b in Apply(s, l).acqs {
        StepKeepsOrder(s, l, a, b);
      }
    } else if l == Construct(b) {
      NewIsLast(s, a, b);
    }
  }

  lemma {:induction false} RunKeepsAhead(s: State, labels: seq<Label>, a: AcqId, b: AcqId)
    requires Inv(s) && Runs(s, labels) && Ahead(s, a, b) && a != b && Destroy(a) !in labels
    ensures Inv(After(s, labels)) && Ahead(After(s, labels), a, b)
    decreases labels
  {
    hide Inv, Enabled, Apply, Ahead;
    if labels != [] {
      StepKeepsInv(s, labels[0]);
      StepKeepsAhead(s, labels[0], a, b);
      RunKeepsAhead(Apply(s, labels[0]), labels[1..], a, b);
    }
  }

  lemma AheadKeepsOut(s: State, a: AcqId, b: AcqId)
    requires Inv(s) && Ahead(s, a, b) && b in s.acqs
    ensures !s.acqs[b].has
  {
    hide HandoffInv, ErrandInv, Distinct, Precedes;
    BehindIsNotFront(s.locks, a, b);
  }

  lemma BehindIsNotFront(locks: seq<AcqId>, a: AcqId, b: AcqId)
    requires Distinct(locks) && Precedes(locks, a, b)
    ensures !IsFront(locks, b)
  {
    var i, j :| 0 <= i < j < |locks| && locks[i] == a && locks[j] == b;
    assert locks[1..][j - 1] == b;
  }

  /** First come, first served: as long as an earlier acquirer lives, a later one does not own the lock. */
  lemma FirstComeFirstServed(labels: seq<Label>, more: seq<Label>, a: AcqId, b: AcqId)
    requires Runs(INITIAL, labels) && a in After(INITIAL, labels).acqs && b !in After(INITIAL, labels).acqs
    requires Runs(After(INITIAL, labels), more) && Destroy(a) !in more
    ensures var s := After(After(INITIAL, labels), more);
      a in s.acqs && (b in s.acqs ==> Precedes(s.locks, a, b) && !s.acqs[b].has)
  {
    RunKeepsInv(INITIAL, labels);
    RunKeepsAhead(After(INITIAL, labels), more, a, b);
    var s := After(After(INITIAL, labels), more);
    if b in s.acqs {
      AheadKeepsOut(s, a, b);
    }
  }

  // ----- what becomes of a waiter

  /** A waiter is told at once if its acquirer owns the lock, and is kept if not. */
  lemma NewWaiter(s: State, a: AcqId, w: nat)
    requires Enabled(s, AddWait(a, w))
    ensures var t := Apply(s, AddWait(a, w));
      if s.acqs[a].has then t == s else w in t.acqs[a].waiters && !t.acqs[a].has
  {
    assert s.acqs[a].has ==> s.acqs[a := s.acqs[a]] == s.acqs;
  }

  /** A waiter that is kept stays until it is taken back, or its acquirer is destroyed, or owns the lock. */
  lemma WaiterStays(s: State, l: Label, a: AcqId, w: nat)
    requires Inv(s) && Enabled(s, l) && a in s.acqs && w in s.acqs[a].waiters
    ensures var t := Apply(s, l);
      || l == Destroy(a)
      || l == RemoveWait(a, w)
      || (a in t.acqs && w in t.acqs[a].waiters && !t.acqs[a].has)
      || (a in t.acqs && t.acqs[a].has && l == Ready(a.home))
  {
    hide Distinct, HandoffInv, Leave;
  }

  /** Nobody waits who did not ask to, or who took it back. */
  lemma WaiterCame(s: State, l: Label, a: AcqId, w: nat)
    requires Inv(s) && Enabled(s, l)
    requires var t := Apply(s, l); a in t.acqs && w in t.acqs[a].waiters
    ensures l != RemoveWait(a, w)
    ensures l == AddWait(a, w) || (a in s.acqs && w in s.acqs[a].waiters)
  {
    hide Distinct, HandoffInv, Leave;
  }

  // ----- the lock is always handed on

  /** The steps the runtime takes on its own, without any caller's doing. */
  predicate IsSystemStep(l: Label) {
    l.Send? || l.Deliver? || l.Ready?
  }

  function Notifiers(errands: map<nat, Errand>): set<nat> {
    set t | t in errands && errands[t].Notifying?
  }

  function Readiers(errands: map<nat, Errand>): set<nat> {
    set t | t in errands && errands[t].Readying?
  }

  /** What the runtime still has to do: a notification is sent, delivered, and acted upon. */
  function WorkLeft(s: State): nat {
    3 * |Notifiers(s.errands)| + 2 * |s.mail| + |Readiers(s.errands)|
  }

  lemma ErrandDone(errands: map<nat, Errand>, t: nat)
    requires t in errands
    ensures var rest := errands - {t};
      && |Notifiers(rest)| == |Notifiers(errands)| - (if errands[t].Notifying? then 1 else 0)
      && |Readiers(rest)| == |Readiers(errands)| - (if errands[t].Readying? then 1 else 0)
  {
    var rest := errands - {t};
    assert Notifiers(rest) == Notifiers(errands) - {t};
    assert Readiers(rest) == Readiers(errands) - {t};
  }

  lemma ErrandAdded(errands: map<nat, Errand>, t: nat, a: AcqId)
    requires t !in errands
    ensures var more := errands[t := Readying(a)];
      && |Notifiers(more)| == |Notifiers(errands)|
      && |Readiers(more)| == |Readiers(errands)| + 1
  {
    hide Notifiers, Readiers;
    var more := errands[t := Readying(a)];
    assert more - {t} == errands;
    ErrandDone(more, t);
  }

  /** Left alone, the runtime finishes: each of its steps leaves less to do. */
  lemma SystemStepsEnd(s: State, l: Label)
    requires Enabled(s, l) && IsSystemStep(l)
    ensures WorkLeft(Apply(s, l)) < WorkLeft(s)
  {
    hide Notifiers, Readiers;
    match l
    case Send(t) => ErrandDone(s.errands, t);
    case Ready(t) => ErrandDone(s.errands, t);
    case Deliver(a) => ErrandAdded(s.errands, a.home, a);
  }

  /** And when it has, the front acquirer owns the lock, so that nobody waits forever on a lock
      that nobody holds; and no waiter is left behind on an acquirer that owns it. */
  lemma NoLostHandoff(labels: seq<Label>)
    requires Runs(INITIAL, labels)
    ensures var s := After(INITIAL, labels);
      && (s.locks != [] ==> s.locks[0] in s.acqs)
      && (s.locks != [] && !s.acqs[s.locks[0]].has ==>
            exists l :: IsSystemStep(l) && Enabled(s, l))
      && (forall a | a in s.acqs && s.acqs[a].has :: s.acqs[a].waiters == {})
  {
    RunKeepsInv(INITIAL, labels);
    var s := After(INITIAL, labels);
    if s.locks != [] && !s.acqs[s.locks[0]].has {
      var a := s.locks[0];
      if a.home in s.errands {
        assert Enabled(s, if s.errands[a.home].Notifying? then Send(a.home) else Ready(a.home));
      } else if a in s.mail {
        assert Enabled(s, Deliver(a));
      } else {
        var t :| t in s.errands && s.errands[t] == Notifying(a);
        assert Enabled(s, Send(t));
      }
    }
  }

  // ----- the critical sections of the code

  class Mutex {
    var locks: seq<AcqId>

    constructor ()
      ensures locks == INITIAL.locks
    {
      locks := [];
    }

    /** `add_lock`: the caller makes the acquirer ready exactly if the step leaves it that errand. */
    method AddLock(ghost s: State, a: AcqId) returns (ready: bool)
      requires Inv(s) && Enabled(s, Construct(a)) && locks == s.locks
      modifies this
      ensures locks == Apply(s, Construct(a)).locks == old(locks) + [a]
      ensures ready <==> Apply(s, Construct(a)).errands != s.errands
    {
      locks := locks + [a];
      ready := locks[0] == a;
    }

    /** `release_lock`: returns the acquirer to notify, if the step leaves that errand. */
    method ReleaseLock(ghost s: State, a: AcqId) returns (next: Option<AcqId>)
      requires Inv(s) && Enabled(s, Destroy(a)) && locks == s.locks
      modifies this
      ensures locks == Apply(s, Destroy(a)).locks
      ensures match next
        case None => Apply(s, Destroy(a)).errands == s.errands
        case Some(b) => Apply(s, Destroy(a)).errands == s.errands[a.home := Notifying(b)]
    {
      next := None;
      if locks != [] && locks[0] == a {
        locks := locks[1..];
        if locks != [] {
          next := Some(locks[0]);
        }
      } else {
        locks := Leave(locks, a);
      }
    }

    /** `cross_thread_notification`: a notification for an acquirer that is not at the front any
        more is dropped. */
    method Notification(ghost s: State, a: AcqId) returns (unlock: bool)
      requires Inv(s) && Enabled(s, Deliver(a)) && locks == s.locks
      ensures unlock <==> Apply(s, Deliver(a)).errands != s.errands
      ensures unlock ==> a in s.acqs
    {
      unlock := locks != [] && locks[0] == a;
    }
  }
}

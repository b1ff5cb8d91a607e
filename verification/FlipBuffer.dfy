/** `flip_buffer_t`: two copies of a value.  Each thread reads the side it regards as active; a
    writer, under the cross-thread mutex, changes the other side, has every thread flip by RPC,
    and then overwrites the side that has become inactive.

    A side is `Torn` while a writer is in the middle of changing it.  `history` holds every value
    ever committed, the initial one first. */
module FlipBuffer {
  import M = CrossThreadMutex
  import opened Sequences

  datatype Side = A | B

  datatype Content<T> = Whole(value: T) | Torn

  /** Where `apply_write` stands; `target` is the side it writes first. */
  datatype Phase = Mutating(target: Side) | Flipping(target: Side) | Copying(target: Side)

  /** `active[t]` is thread `t`'s current side, `unflipped` the threads that have not yet run the
      flip RPC of the present write, and `readers[t]` the side thread `t` is reading. */
  datatype State<T> = State(
    mutex: M.State,
    a: Content<T>,
    b: Content<T>,
    active: seq<Side>,
    unflipped: set<nat>,
    readers: map<nat, Side>,
    writers: map<M.AcqId, Phase>,
    history: seq<T>)

  datatype Label<T> =
    | Lock(step: M.Label)
    | StartWrite(writer: M.AcqId)
    | EndWrite(writer: M.AcqId, value: T)
    | Flip(thread: nat)
    | StartCopy(writer: M.AcqId)
    | EndCopy(writer: M.AcqId)
    | StartRead(thread: nat)
    | EndRead(thread: nat)

  function Initial<T>(threads: nat, value: T): State<T> {
    State(M.INITIAL, Whole(value), Whole(value), seq(threads, _ => A), {}, map[], map[], [value])
  }

  function Other(side: Side): Side {
    if side == A then B else A
  }

  function Get<T>(s: State<T>, side: Side): Content<T> {
    if side == A then s.a else s.b
  }

  function Put<T>(s: State<T>, side: Side, content: Content<T>): State<T> {
    if side == A then s.(a := content) else s.(b := content)
  }

  predicate Owns(mutex: M.State, writer: M.AcqId) {
    writer in mutex.acqs && mutex.acqs[writer].has
  }

  function Threads(n: nat): (threads: set<nat>)
    ensures forall t: nat :: t in threads <==> t < n
  {
    if n == 0 then {} else Threads(n - 1) + {n - 1}
  }

  predicate Enabled<T>(s: State<T>, l: Label<T>) {
    match l
    case Lock(m) => M.Enabled(s.mutex, m) && (m.Destroy? ==> m.acq !in s.writers)
    case StartWrite(w) => Owns(s.mutex, w) && w !in s.writers && w.home < |s.active|
    case EndWrite(w, v) => w in s.writers && s.writers[w].Mutating?
    case Flip(t) => t in s.unflipped && t < |s.active| && t !in s.readers
    case StartCopy(w) => w in s.writers && s.writers[w].Flipping? && s.unflipped == {}
    case EndCopy(w) => w in s.writers && s.writers[w].Copying?
    case StartRead(t) => t < |s.active| && t !in s.readers
    case EndRead(t) => t in s.readers
  }

  function Apply<T>(s: State<T>, l: Label<T>): State<T>
    requires Enabled(s, l)
  {
    match l
    case Lock(m) => s.(mutex := M.Apply(s.mutex, m))
    case StartWrite(w) =>
      var target := Other(s.active[w.home]);
      Put(s, target, Torn).(writers := s.writers[w := Mutating(target)])
    case EndWrite(w, v) =>
      var target := s.writers[w].target;
      Put(s, target, Whole(v))
      .(writers := s.writers[w := Flipping(target)],
        unflipped := Threads(|s.active|),
        history := s.history + [v])
    case Flip(t) =>
      s.(active := s.active[t := Other(s.active[t])], unflipped := s.unflipped - {t})
    case StartCopy(w) =>
      var target := s.writers[w].target;
      Put(s, Other(target), Torn).(writers := s.writers[w := Copying(target)])
    case EndCopy(w) =>
      var target := s.writers[w].target;
      Put(s, Other(target), Get(s, target)).(writers := s.writers - {w})
    case StartRead(t) => s.(readers := s.readers[t := s.active[t]])
    case EndRead(t) => s.(readers := s.readers - {t})
  }

  // ----- the invariant

  ghost predicate AllActive(active: seq<Side>, side: Side) {
    forall t | 0 <= t < |active| :: active[t] == side
  }

  function Last<T>(history: seq<T>): T
    requires history != []
  {
    history[|history| - 1]
  }

  /** No write is going on: the threads agree and the sides are equal. */
  ghost predicate AtRest<T>(s: State<T>)
    requires s.history != []
  {
    && s.unflipped == {}
    && (AllActive(s.active, A) || AllActive(s.active, B))
    && s.a == Whole(Last(s.history)) && s.b == Whole(Last(s.history))
  }

  ghost predicate PhaseInv<T>(s: State<T>, p: Phase)
    requires s.history != []
  {
    match p
    case Mutating(target) =>
      && s.unflipped == {} && AllActive(s.active, Other(target))
      && Get(s, Other(target)) == Whole(Last(s.history)) && Get(s, target) == Torn
    case Flipping(target) =>
      && |s.history| >= 2
      && Get(s, target) == Whole(Last(s.history))
      && Get(s, Other(target)) == Whole(s.history[|s.history| - 2])
      && forall t | 0 <= t < |s.active| ::
           s.active[t] == if t in s.unflipped then Other(target) else target
    case Copying(target) =>
      && s.unflipped == {} && AllActive(s.active, target)
      && Get(s, target) == Whole(Last(s.history)) && Get(s, Other(target)) == Torn
  }

  ghost predicate WriterInv<T>(s: State<T>)
    requires s.history != []
  {
    && (forall w | w in s.writers :: Owns(s.mutex, w) && PhaseInv(s, s.writers[w]))
    && (s.writers == map[] ==> AtRest(s))
  }

  ghost predicate ReaderInv(active: seq<Side>, readers: map<nat, Side>) {
    forall t | t in readers :: t < |active| && readers[t] == active[t]
  }

  ghost predicate Inv<T>(s: State<T>) {
    && M.Inv(s.mutex)
    && s.history != []
    && WriterInv(s)
    && ReaderInv(s.active, s.readers)
  }

  /** The mutex lets at most one writer in. */
  lemma OneWriter<T>(s: State<T>, w: M.AcqId)
    requires Inv(s) && w in s.writers
    ensures forall v | v in s.writers :: v == w
    ensures s.writers - {w} == map[]
  {
    hide PhaseInv, AtRest;
    assert forall v | v in s.writers :: M.IsFront(s.mutex.locks, v);
  }

  lemma OwnerKept(m: M.State, l: M.Label, w: M.AcqId)
    requires M.Inv(m) && M.Enabled(m, l) && Owns(m, w) && l != M.Destroy(w)
    ensures Owns(M.Apply(m, l), w)
  {
  }

  lemma LockKeepsInv<T>(s: State<T>, m: M.Label)
    requires Inv(s) && Enabled(s, Lock(m))
    ensures Inv(Apply(s, Lock(m)))
  {
    M.StepKeepsInv(s.mutex, m);
    hide M.Inv, M.Apply, M.Enabled;
    var u := Apply(s, Lock(m));
    forall w | w in s.writers
      ensures Owns(u.mutex, w) && PhaseInv(u, u.writers[w])
    {
      OwnerKept(s.mutex, m, w);
      assert PhaseInv(s, s.writers[w]);
    }
  }

  lemma StartWriteKeepsInv<T>(s: State<T>, w: M.AcqId)
    requires Inv(s) && Enabled(s, StartWrite(w))
    ensures Inv(Apply(s, StartWrite(w)))
  {
    var u := Apply(s, StartWrite(w));
    if v :| v in s.writers {
      assert false;
    }
    hide M.Inv;
    assert s.writers == map[];
    assert PhaseInv(u, u.writers[w]);
  }

  lemma EndWriteKeepsInv<T>(s: State<T>, w: M.AcqId, v: T)
    requires Inv(s) && Enabled(s, EndWrite(w, v))
    ensures Inv(Apply(s, EndWrite(w, v)))
  {
    OneWriter(s, w);
    hide M.Inv, M.Enabled, M.Apply, Owns, ReaderInv;
    assert PhaseInv(s, s.writers[w]);
    var u := Apply(s, EndWrite(w, v));
    assert PhaseInv(u, u.writers[w]);
  }

  lemma StartCopyKeepsInv<T>(s: State<T>, w: M.AcqId)
    requires Inv(s) && Enabled(s, StartCopy(w))
    ensures Inv(Apply(s, StartCopy(w)))
  {
    OneWriter(s, w);
    hide M.Inv, M.Enabled, M.Apply, Owns, ReaderInv;
    assert PhaseInv(s, s.writers[w]);
    var u := Apply(s, StartCopy(w));
    assert PhaseInv(u, u.writers[w]);
  }

  lemma EndCopyKeepsInv<T>(s: State<T>, w: M.AcqId)
    requires Inv(s) && Enabled(s, EndCopy(w))
    ensures Inv(Apply(s, EndCopy(w)))
  {
    OneWriter(s, w);
    hide M.Inv, M.Enabled, M.Apply, Owns, ReaderInv;
    assert PhaseInv(s, s.writers[w]);
    var u := Apply(s, EndCopy(w));
    assert AtRest(u);
  }

  lemma FlipKeepsInv<T>(s: State<T>, t: nat)
    requires Inv(s) && Enabled(s, Flip(t))
    ensures Inv(Apply(s, Flip(t)))
  {
    hide M.Inv;
    var u := Apply(s, Flip(t));
    forall w | w in s.writers
      ensures PhaseInv(u, u.writers[w])
    {
      assert PhaseInv(s, s.writers[w]);
    }
  }

  lemma ReadKeepsInv<T>(s: State<T>, l: Label<T>)
    requires Inv(s) && Enabled(s, l) && (l.StartRead? || l.EndRead?)
    ensures Inv(Apply(s, l))
  {
    hide M.Inv, M.Enabled, M.Apply, PhaseInv, AtRest;
    var u := Apply(s, l);
    forall w | w in s.writers
      ensures PhaseInv(u, u.writers[w])
    {
      PhaseKept(s, u, s.writers[w]);
    }
    if s.writers == map[] {
      RestKept(s, u);
    }
  }

  lemma PhaseKept<T>(s: State<T>, u: State<T>, p: Phase)
    requires s.history != [] && u == s.(readers := u.readers) && PhaseInv(s, p)
    ensures PhaseInv(u, p)
  {
  }

  lemma RestKept<T>(s: State<T>, u: State<T>)
    requires s.history != [] && u == s.(readers := u.readers) && AtRest(s)
    ensures AtRest(u)
  {
  }

  lemma StepKeepsInv<T>(s: State<T>, l: Label<T>)
    requires Inv(s) && Enabled(s, l)
    ensures Inv(Apply(s, l))
  {
    hide *;
    match l
    case Lock(m) => LockKeepsInv(s, m);
    case StartWrite(w) => StartWriteKeepsInv(s, w);
    case EndWrite(w, v) => EndWriteKeepsInv(s, w, v);
    case Flip(t) => FlipKeepsInv(s, t);
    case StartCopy(w) => StartCopyKeepsInv(s, w);
    case EndCopy(w) => EndCopyKeepsInv(s, w);
    case StartRead(t) => ReadKeepsInv(s, l);
    case EndRead(t) => ReadKeepsInv(s, l);
  }

  // ----- what readers see

  /** The version thread `t` would read: its index in `history`. */
  function Version<T>(s: State<T>, t: nat): int {
    if t in s.unflipped then |s.history| - 2 else |s.history| - 1
  }

  /** Whatever the writers are doing, each thread's active side holds a fully committed value: the
      newest, or, for a thread still to be flipped, the one before it. */
  lemma ActiveIsCommitted<T>(s: State<T>, t: nat)
    requires Inv(s) && t < |s.active|
    ensures 0 <= Version(s, t) < |s.history|
    ensures Get(s, s.active[t]) == Whole(s.history[Version(s, t)])
  {
    hide M.Inv;
    if w :| w in s.writers {
      assert PhaseInv(s, s.writers[w]);
    } else {
      assert s.writers == map[];
    }
  }

  /** No step changes a side that a reader holds, nor turns any thread back to an older version. */
  lemma StepSparesReaders<T>(s: State<T>, l: Label<T>, t: nat)
    requires Inv(s) && Enabled(s, l) && t < |s.active|
    ensures |Apply(s, l).active| == |s.active|
    ensures t in s.readers && t in Apply(s, l).readers ==>
      && Apply(s, l).readers[t] == s.readers[t]
      && Get(Apply(s, l), s.readers[t]) == Get(s, s.readers[t]) == Whole(s.history[Version(s, t)])
    ensures s.history <= Apply(s, l).history
    ensures Version(s, t) <= Version(Apply(s, l), t)
  {
    hide Enabled, Apply, Get, Version, M.Inv, WriterInv;
    StepKeepsInv(s, l);
    VersionStep(s, l, t);
    ActiveIsCommitted(s, t);
    ActiveIsCommitted(Apply(s, l), t);
    if t in s.readers && t in Apply(s, l).readers {
      ReaderStays(s, l, t);
    }
  }

  /** A thread sees a newer version exactly by its own flip. */
  lemma VersionStep<T>(s: State<T>, l: Label<T>, t: nat)
    requires Inv(s) && Enabled(s, l) && t < |s.active|
    ensures |Apply(s, l).active| == |s.active| && s.history <= Apply(s, l).history
    ensures Version(Apply(s, l), t) == Version(s, t) + if l.Flip? && l.thread == t then 1 else 0
  {
    hide M.Inv, M.Enabled, M.Apply, ReaderInv, AtRest, Get;
    if l.EndWrite? {
      assert PhaseInv(s, s.writers[l.writer]);
    }
  }

  lemma ReaderStays<T>(s: State<T>, l: Label<T>, t: nat)
    requires Enabled(s, l) && t in s.readers && t in Apply(s, l).readers
    ensures Apply(s, l).readers[t] == s.readers[t]
    ensures !(l.Flip? && l.thread == t)
  {
    hide M.Enabled, M.Apply;
  }

  // ----- whole runs

  predicate Runs<T>(s: State<T>, labels: seq<Label<T>>)
    decreases labels
  {
    labels == [] || (Enabled(s, labels[0]) && Runs(Apply(s, labels[0]), labels[1..]))
  }

  function After<T>(s: State<T>, labels: seq<Label<T>>): State<T>
    requires Runs(s, labels)
    decreases labels
  {
    if labels == [] then s else After(Apply(s, labels[0]), labels[1..])
  }

  lemma InitialInv<T>(threads: nat, value: T)
    ensures Inv(Initial(threads, value))
  {
    assert AllActive(Initial(threads, value).active, A);
  }

  lemma {:induction false} RunKeepsInv<T>(s: State<T>, labels: seq<Label<T>>)
    requires Inv(s) && Runs(s, labels)
    ensures Inv(After(s, labels))
    decreases labels
  {
    hide Inv, Enabled, Apply;
    if labels != [] {
      StepKeepsInv(s, labels[0]);
      RunKeepsInv(Apply(s, labels[0]), labels[1..]);
    }
  }

  /** Versions seen by one thread never go backwards, however long a run is, and committed values
      are never forgotten. */
  lemma {:induction false} VersionsNeverGoBack<T>(s: State<T>, labels: seq<Label<T>>, t: nat)
    requires Inv(s) && Runs(s, labels) && t < |s.active|
    ensures var u := After(s, labels);
      |u.active| == |s.active| && s.history <= u.history && Version(s, t) <= Version(u, t)
    decreases labels
  {
    hide Inv, Enabled, Apply, Version;
    if labels != [] {
      StepKeepsInv(s, labels[0]);
      StepSparesReaders(s, labels[0], t);
      VersionsNeverGoBack(Apply(s, labels[0]), labels[1..], t);
    }
  }

  /** In every reachable state, a reader holds a whole value that was committed: the newest, or,
      while its own thread has not flipped yet, the one before. */
  lemma ReadersSeeCommitted<T>(threads: nat, value: T, labels: seq<Label<T>>, t: nat)
    requires Runs(Initial(threads, value), labels)
    ensures var s := After(Initial(threads, value), labels);
      t in s.readers ==>
        0 <= Version(s, t) < |s.history|
        && Get(s, s.readers[t]) == Whole(s.history[Version(s, t)])
  {
    hide M.Inv, PhaseInv, AtRest;
    InitialInv(threads, value);
    RunKeepsInv(Initial(threads, value), labels);
    var s := After(Initial(threads, value), labels);
    if t in s.readers {
      ActiveIsCommitted(s, t);
    }
  }

  /** Between writes all threads agree on the active side and both sides hold the newest value. */
  lemma RestBetweenWrites<T>(threads: nat, value: T, labels: seq<Label<T>>)
    requires Runs(Initial(threads, value), labels)
    ensures var s := After(Initial(threads, value), labels);
      s.writers == map[] ==> s.history != [] && AtRest(s)
  {
    hide M.Inv, PhaseInv, AtRest;
    InitialInv(threads, value);
    RunKeepsInv(Initial(threads, value), labels);
  }

  // ----- the steps that come between a writer's

  /** What readers and other users of the mutex do; it can come between any two steps of a writer. */
  predicate Foreign<T>(l: Label<T>) {
    l.Lock? || l.StartRead? || l.EndRead?
  }

  function Own<T>(run: seq<Label<T>>): seq<Label<T>> {
    if run == [] then []
    else Own(run[..|run| - 1]) + if Foreign(run[|run| - 1]) then [] else [run[|run| - 1]]
  }

  /** What of `others` can be done, in this order. */
  function Taken<T>(s: State<T>, others: seq<Label<T>>): seq<Label<T>>
    decreases others
  {
    if others == [] then []
    else if Foreign(others[0]) && Enabled(s, others[0])
    then [others[0]] + Taken(Apply(s, others[0]), others[1..])
    else Taken(s, others[1..])
  }

  function At<T>(env: seq<seq<Label<T>>>, k: nat): seq<Label<T>> {
    if k < |env| then env[k] else []
  }

  function Flips<T>(order: seq<nat>): seq<Label<T>> {
    if order == [] then [] else Flips(order[..|order| - 1]) + [Flip(order[|order| - 1])]
  }

  /** The run leads from `s0` to `s`. */
  ghost predicate Ran<T>(s0: State<T>, run: seq<Label<T>>, s: State<T>) {
    Inv(s) && Runs(s0, run) && After(s0, run) == s
  }

  /** The states differ by nothing but the readers and the mutex. */
  predicate SameWrite<T(==)>(s: State<T>, u: State<T>) {
    u == s.(mutex := u.mutex, readers := u.readers)
  }

  lemma {:induction false} RunAppend<T>(s: State<T>, run: seq<Label<T>>, l: Label<T>)
    requires Runs(s, run) && Enabled(After(s, run), l)
    ensures Runs(s, run + [l]) && After(s, run + [l]) == Apply(After(s, run), l)
    decreases run
  {
    hide Enabled, Apply;
    if run == [] {
      assert run + [l] == [l] && [l][1..] == [];
    } else {
      RunAppend(Apply(s, run[0]), run[1..], l);
      assert (run + [l])[1..] == run[1..] + [l];
    }
  }

  lemma RanOn<T>(s0: State<T>, run: seq<Label<T>>, s: State<T>, l: Label<T>)
    requires Ran(s0, run, s) && Enabled(s, l)
    ensures Ran(s0, run + [l], Apply(s, l))
    ensures Own(run + [l]) == Own(run) + if Foreign(l) then [] else [l]
  {
    hide Inv, Enabled, Apply, Runs, After, Foreign;
    StepKeepsInv(s, l);
    RunAppend(s0, run, l);
    assert (run + [l])[..|run|] == run;
  }

  lemma OwnStep<T>(s0: State<T>, run: seq<Label<T>>, s: State<T>, l: Label<T>)
    requires Ran(s0, run, s) && Enabled(s, l) && !Foreign(l)
    ensures Ran(s0, run + [l], Apply(s, l)) && Own(run + [l]) == Own(run) + [l]
  {
    hide Ran, Own, Enabled, Apply;
    RanOn(s0, run, s, l);
  }

  lemma ForeignStep<T>(s: State<T>, l: Label<T>)
    requires Foreign(l) && Enabled(s, l)
    ensures SameWrite(s, Apply(s, l))
  {
    hide M.Enabled, M.Apply;
  }

  lemma {:induction false} Interfere<T>(s0: State<T>, run: seq<Label<T>>, s: State<T>, others: seq<Label<T>>)
    returns (longer: seq<Label<T>>, u: State<T>)
    requires Ran(s0, run, s)
    ensures longer == run + Taken(s, others) && Ran(s0, longer, u)
    ensures Own(longer) == Own(run) && SameWrite(s, u)
    decreases others
  {
    hide Ran, Own, Foreign, Enabled, Apply;
    longer, u := run, s;
    if others != [] {
      if Foreign(others[0]) && Enabled(s, others[0]) {
        RanOn(s0, run, s, others[0]);
        ForeignStep(s, others[0]);
        longer, u := Interfere(s0, run + [others[0]], Apply(s, others[0]), others[1..]);
      } else {
        longer, u := Interfere(s0, run, s, others[1..]);
      }
    }
  }

  /** A read runs to its end before its thread takes the message to flip. */
  lemma BeforeFlip<T>(s0: State<T>, run: seq<Label<T>>, s: State<T>, t: nat)
    returns (longer: seq<Label<T>>, u: State<T>)
    requires Ran(s0, run, s) && t in s.unflipped && t < |s.active|
    ensures Ran(s0, longer, u) && Own(longer) == Own(run) && SameWrite(s, u) && Enabled(u, Flip(t))
  {
    hide Ran, Own;
    longer, u := run, s;
    if t in s.readers {
      RanOn(s0, run, s, EndRead(t));
      longer, u := run + [EndRead(t)], Apply(s, EndRead(t));
    }
  }

  // ----- the code

  /** The buffer object, with each thread's own side.  Between the steps of a writer, the others take
      the steps `env[k]`. */
  class Buffer<T(==)> {
    var a: T
    var b: T
    const current: array<Side>

    /** The memory is that of the machine; what a torn side holds is left open. */
    ghost predicate Matches(s: State<T>)
      reads this, current
    {
      && current[..] == s.active
      && (s.a.Whole? ==> s.a.value == a)
      && (s.b.Whole? ==> s.b.value == b)
    }

    constructor (threads: nat, value: T)
      ensures Matches(Initial(threads, value)) && fresh(current)
    {
      a, b, current := value, value, new Side[threads](_ => A);
    }

    method ActiveBuffer(t: nat) returns (v: T)
      requires t < current.Length
      ensures v == if current[t] == A then a else b
    {
      v := if current[t] == A then a else b;
    }

    /** `apply_read`, whatever the writers are doing: the callback sees a committed value. */
    method ApplyRead(ghost s: State<T>, t: nat) returns (v: T)
      requires Inv(s) && Matches(s) && Enabled(s, StartRead(t))
      ensures 0 <= Version(s, t) < |s.history| && v == s.history[Version(s, t)]
    {
      ActiveIsCommitted(s, t);
      v := ActiveBuffer(t);
    }

    /** `flip_internal`, on thread `t`. */
    method FlipInternal(ghost s: State<T>, t: nat)
      requires Matches(s) && Enabled(s, Flip(t))
      modifies current
      ensures Matches(Apply(s, Flip(t)))
    {
      current[t] := if current[t] == A then B else A;
    }

    /** The first part of `apply_write`: the callback changes the side that is not active. */
    method Change(w: M.AcqId, cb: T -> T, ghost env: seq<seq<Label<T>>>, ghost s: State<T>)
      returns (target: Side, ghost run: seq<Label<T>>, ghost s2: State<T>)
      requires Inv(s) && Matches(s) && Enabled(s, StartWrite(w))
      modifies this
      ensures var v := cb(Last(s.history));
        && Ran(s, run, s2) && Own(run) == [StartWrite(w), EndWrite(w, v)]
        && target == Other(s.active[w.home])
        && Matches(s2)
        && s2.unflipped == Threads(|s2.active|) && |s2.active| == |s.active|
        && s2.writers == map[w := Flipping(target)] && s2.history == s.history + [v]
    {
      hide Inv, M.Inv, M.Apply, M.Enabled, Taken, PhaseInv, Ran, Own;
      NoOtherWriter(s, w);
      NothingRan(s);
      OwnStep(s, [], s, StartWrite(w));
      ghost var v := cb(Last(s.history));
      if current[w.home] == A {
        target := B;
        b := cb(b);
      } else {
        target := A;
        a := cb(a);
      }
      ghost var s1;
      run, s1 := Interfere(s, [] + [StartWrite(w)], Apply(s, StartWrite(w)), At(env, 0));
      OwnStep(s, run, s1, EndWrite(w, v));
      run, s2 := run + [EndWrite(w, v)], Apply(s1, EndWrite(w, v));
    }

    /** The last part of `apply_write`: the inactive side is overwritten. */
    method CopyBack(
        w: M.AcqId, target: Side, ghost env: seq<seq<Label<T>>>,
        ghost s0: State<T>, ghost run: seq<Label<T>>, ghost s: State<T>)
      returns (ghost longer: seq<Label<T>>, ghost s2: State<T>)
      requires Ran(s0, run, s) && Matches(s) && Enabled(s, StartCopy(w)) && s.writers[w].target == target
      modifies this
      ensures Ran(s0, longer, s2) && Own(longer) == Own(run) + [StartCopy(w), EndCopy(w)]
      ensures Matches(s2) && s2.writers == s.writers - {w} && s2.history == s.history
    {
      hide Inv, M.Inv, M.Apply, M.Enabled, Taken, Ran, Own;
      TargetIsWhole(s0, run, s, w);
      OwnStep(s0, run, s, StartCopy(w));
      if target == A {
        b := a;
      } else {
        a := b;
      }
      ghost var s1;
      longer, s1 := Interfere(s0, run + [StartCopy(w)], Apply(s, StartCopy(w)), At(env, 1));
      OwnStep(s0, longer, s1, EndCopy(w));
      longer, s2 := longer + [EndCopy(w)], Apply(s1, EndCopy(w));
    }

    /** `flip`: the flip RPC on every thread, in whatever order the threads come to it. */
    method Broadcast(ghost env: seq<seq<Label<T>>>, ghost s0: State<T>, ghost run: seq<Label<T>>, ghost s: State<T>)
      returns (ghost longer: seq<Label<T>>, ghost s2: State<T>, ghost order: seq<nat>)
      requires Ran(s0, run, s) && Matches(s) && s.unflipped == Threads(|s.active|)
      modifies current
      ensures Ran(s0, longer, s2) && Own(longer) == Own(run) + Flips(order)
      ensures multiset(order) == multiset(Threads(|s.active|))
      ensures Matches(s2) && s2.unflipped == {} && SameWrite(s.(active := s2.active, unflipped := {}), s2)
    {
      hide Inv, Ran, Own, Taken, Matches;
      MatchesLength(s);
      longer, s2, order := run, s, [];
      var left := Threads(current.Length);
      while left != {}
        invariant Ran(s0, longer, s2) && Matches(s2)
        invariant SameWrite(s.(active := s2.active, unflipped := left), s2)
        invariant |s2.active| == |s.active| == current.Length
        invariant Own(longer) == Own(run) + Flips(order)
        invariant multiset(order) + multiset(left) == multiset(Threads(|s.active|))
        invariant left <= Threads(|s.active|)
        decreases left
      {
        var t :| t in left;
        ghost var s1;
        longer, s1 := Interfere(s0, longer, s2, At(env, |order| + 2));
        MatchesKept(s2, s1);
        longer, s2 := BeforeFlip(s0, longer, s1, t);
        MatchesKept(s1, s2);
        FlipInternal(s2, t);
        OwnStep(s0, longer, s2, Flip(t));
        FlipsAppend<T>(order, t);
        Associates(Own(run), Flips(order), [Flip(t)]);
        longer, s2, order := longer + [Flip(t)], Apply(s2, Flip(t)), order + [t];
        left := left - {t};
      }
    }

    /** A whole `apply_write`, while others read and use the mutex: one value more is committed, each
        thread flips once, and everything is at rest again. */
    method ApplyWrite(w: M.AcqId, cb: T -> T, ghost env: seq<seq<Label<T>>>, ghost s: State<T>)
      returns (ghost run: seq<Label<T>>, ghost s2: State<T>, ghost order: seq<nat>)
      requires Inv(s) && Matches(s) && Enabled(s, StartWrite(w))
      modifies this, current
      ensures var v := cb(Last(s.history));
        && Ran(s, run, s2)
        && Own(run) == [StartWrite(w), EndWrite(w, v)] + Flips(order) + [StartCopy(w), EndCopy(w)]
        && multiset(order) == multiset(Threads(|s.active|))
        && Matches(s2) && AtRest(s2) && s2.writers == map[]
        && s2.history == s.history + [v] && a == b == v
    {
      hide Inv, M.Inv, M.Apply, M.Enabled, Taken, Ran, Foreign, Own, Matches, PhaseInv;
      NoOtherWriter(s, w);
      var target;
      ghost var s1;
      target, run, s1 := Change(w, cb, env, s);
      run, s1, order := Broadcast(env, s, run, s1);
      run, s2 := CopyBack(w, target, env, s, run, s1);
      RestMeans(s, run, s2);
      MatchesMeans(s2);
    }

    lemma MatchesLength(s: State<T>)
      requires Matches(s)
      ensures |s.active| == current.Length
    {
    }

    lemma MatchesKept(s: State<T>, u: State<T>)
      requires Matches(s) && SameWrite(s, u)
      ensures Matches(u)
    {
    }

    lemma MatchesMeans(s: State<T>)
      requires Matches(s) && s.a.Whole? && s.b.Whole?
      ensures a == s.a.value && b == s.b.value
    {
    }
  }

  lemma NothingRan<T>(s: State<T>)
    requires Inv(s)
    ensures Ran(s, [], s) && Own<T>([]) == []
  {
    hide Inv;
  }

  lemma FlipsAppend<T>(order: seq<nat>, t: nat)
    ensures Flips<T>(order + [t]) == Flips(order) + [Flip(t)]
  {
    assert (order + [t])[..|order|] == order;
  }

  lemma TargetIsWhole<T>(s0: State<T>, run: seq<Label<T>>, s: State<T>, w: M.AcqId)
    requires Ran(s0, run, s) && w in s.writers && s.writers[w].Flipping?
    ensures Get(s, s.writers[w].target).Whole?
  {
    hide M.Inv;
    assert PhaseInv(s, s.writers[w]);
  }

  lemma NoOtherWriter<T>(s: State<T>, w: M.AcqId)
    requires Inv(s) && Owns(s.mutex, w) && w !in s.writers
    ensures s.history != [] && s.writers == map[] && AtRest(s)
  {
    hide PhaseInv, AtRest;
    assert M.IsFront(s.mutex.locks, w);
    assert forall v | v in s.writers :: M.IsFront(s.mutex.locks, v);
    assert s.writers == map[];
  }

  lemma RestMeans<T>(s0: State<T>, run: seq<Label<T>>, s: State<T>)
    requires Ran(s0, run, s) && s.writers == map[]
    ensures s.history != [] && AtRest(s)
  {
  }
}

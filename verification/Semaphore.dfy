/** The resizable semaphore: its acqs, the queue of those that wait, and what each owns. */
module Semaphore {
  import opened Sequences

  // -------------------------------------------------------------------------
  // Sums and prefixes
  // -------------------------------------------------------------------------

  function Sum(s: seq<nat>): nat {
    if s == [] then 0 else s[0] + Sum(s[1..])
  }

  lemma {:induction false} SumAppend(a: seq<nat>, b: seq<nat>)
    ensures Sum(a + b) == Sum(a) + Sum(b)
  {
    if a == [] {
      assert a + b == b;
    } else {
      assert (a + b)[1..] == a[1..] + b;
      SumAppend(a[1..], b);
    }
  }

  lemma SumOne(x: nat)
    ensures Sum([x]) == x
  {
    assert [x][1..] == [];
  }

  lemma SumBetween(a: seq<nat>, x: nat, b: seq<nat>)
    ensures Sum(a + [x] + b) == Sum(a) + x + Sum(b)
  {
    SumAppend(a + [x], b);
    SumAppend(a, [x]);
    SumOne(x);
  }

  lemma SumUpdate(s: seq<nat>, k: nat, x: nat)
    requires k < |s|
    ensures Sum(s[k := x]) + s[k] == Sum(s) + x
    ensures Sum(s[..k] + s[k + 1..]) + s[k] == Sum(s)
  {
    hide Sum;
    assert s == s[..k] + [s[k]] + s[k + 1..];
    assert s[k := x] == s[..k] + [x] + s[k + 1..];
    SumBetween(s[..k], s[k], s[k + 1..]);
    SumBetween(s[..k], x, s[k + 1..]);
    SumAppend(s[..k], s[k + 1..]);
  }

  /** How many requests at the head of the queue can be granted, in order. */
  function Fit(wants: seq<nat>, available: nat): (n: nat)
    ensures n <= |wants|
  {
    if wants == [] || wants[0] > available then 0 else 1 + Fit(wants[1..], available - wants[0])
  }

  /** `Fit` is the longest prefix that does not ask for more than there is. */
  lemma {:induction false} FitIsLongest(wants: seq<nat>, available: nat, n: nat)
    requires n <= |wants|
    ensures Sum(wants[..Fit(wants, available)]) <= available
    ensures n <= Fit(wants, available) <==> Sum(wants[..n]) <= available
    decreases |wants|
  {
    var m := Fit(wants, available);
    if wants != [] {
      assert m > 0 ==> wants[..m][1..] == wants[1..][..m - 1];
      assert n > 0 ==> wants[..n][1..] == wants[1..][..n - 1];
      if wants[0] <= available {
        FitIsLongest(wants[1..], available - wants[0], if n > 0 then n - 1 else 0);
      }
    }
  }

  /** Of two sequences that are ordered place by place, the sums agree exactly if the sequences do. */
  lemma {:induction false} SumCompare(a: seq<nat>, b: seq<nat>)
    requires |a| == |b| && forall i | 0 <= i < |a| :: a[i] <= b[i]
    ensures Sum(a) <= Sum(b)
    ensures Sum(a) == Sum(b) <==> forall i | 0 <= i < |a| :: a[i] == b[i]
  {
    if a != [] {
      SumCompare(a[1..], b[1..]);
      assert (forall i | 0 <= i < |a| :: a[i] == b[i]) <==>
        (a[0] == b[0] && forall i | 0 <= i < |a| - 1 :: a[1..][i] == b[1..][i]) by {
        assert forall i | 1 <= i < |a| :: a[i] == a[1..][i - 1] && b[i] == b[1..][i - 1];
      }
    }
  }

  // -------------------------------------------------------------------------
  // The classes
  // -------------------------------------------------------------------------

  datatype Result = Success | ObjectLost

  /** A callback that was called, with what it was told. */
  datatype Wake = Wake(callback: nat, result: Result)

  function Wakes(callbacks: seq<nat>, result: Result): (w: seq<Wake>)
    ensures |w| == |callbacks| && forall i | 0 <= i < |w| :: w[i] == Wake(callbacks[i], result)
  {
    if callbacks == [] then []
    else Wakes(callbacks[..|callbacks| - 1], result) + [Wake(callbacks[|callbacks| - 1], result)]
  }

  /** All these callbacks are told of success, line by line. */
  function Told(lines: seq<seq<nat>>): seq<Wake> {
    if lines == [] then [] else Told(lines[..|lines| - 1]) + Wakes(lines[|lines| - 1], Success)
  }

  lemma ToldStep(lines: seq<seq<nat>>, m: nat)
    requires m < |lines|
    ensures Told(lines[..m + 1]) == Told(lines[..m]) + Wakes(lines[m], Success)
  {
    assert lines[..m + 1][..m] == lines[..m];
  }

  class Acq {
    var parent: Sem?
    var owned: nat
    var pending: nat
    var waiters: seq<nat>

    constructor (count: nat, parent: Sem)
      ensures this.parent == parent && owned == 0 && pending == count && waiters == []
    {
      this.parent, owned, pending, waiters := parent, 0, count, [];
    }

    /** The fields of a move: all are taken over, and the old acq is empty and has no parent. */
    static method From(other: Acq) returns (a: Acq)
      modifies other
      ensures fresh(a) && a.parent == old(other.parent)
      ensures a.owned == old(other.owned) && a.pending == old(other.pending) && a.waiters == old(other.waiters)
      ensures other.parent == null && other.owned == 0 && other.pending == 0 && other.waiters == []
    {
      a := new Acq.Copy(other);
      other.owned, other.pending, other.parent, other.waiters := 0, 0, null, [];
    }

    constructor Copy(other: Acq)
      ensures parent == other.parent && owned == other.owned && pending == other.pending && waiters == other.waiters
    {
      parent, owned, pending, waiters := other.parent, other.owned, other.pending, other.waiters;
    }
  }

  /** What an acq holds of the semaphore: one that was combined or removed stays in the list. */
  function Share(a: Acq, sem: Sem): nat
    reads a
  {
    if a.parent == sem then a.owned else 0
  }

  function Shares(acqs: seq<Acq>, sem: Sem): (s: seq<nat>)
    reads acqs
    ensures |s| == |acqs|
    ensures forall i | 0 <= i < |acqs| :: s[i] == Share(acqs[i], sem)
  {
    if acqs == [] then [] else Shares(acqs[..|acqs| - 1], sem) + [Share(acqs[|acqs| - 1], sem)]
  }

  function Wants(queue: seq<Acq>): (s: seq<nat>)
    reads queue
    ensures |s| == |queue|
    ensures forall i | 0 <= i < |queue| :: s[i] == queue[i].pending
  {
    if queue == [] then [] else Wants(queue[..|queue| - 1]) + [queue[|queue| - 1].pending]
  }

  /** The callbacks that wait for each of these. */
  function Lines(queue: seq<Acq>): (s: seq<seq<nat>>)
    reads queue
    ensures |s| == |queue|
    ensures forall i | 0 <= i < |queue| :: s[i] == queue[i].waiters
  {
    if queue == [] then [] else Lines(queue[..|queue| - 1]) + [queue[|queue| - 1].waiters]
  }

  ghost predicate Distinct(s: seq<Acq>) {
    forall i, j | 0 <= i < j < |s| :: s[i] != s[j]
  }

  class Sem {
    var capacity: nat
    var available: nat
    var acqs: seq<Acq>
    var queue: seq<Acq>
    var woken: seq<Wake>

    /** The two lists: granted acqs, perhaps dead ones, and waiting acqs, which own nothing yet. */
    ghost predicate Lists()
      reads this, acqs, queue
    {
      && Distinct(acqs + queue)
      && (forall i | 0 <= i < |acqs| ::
           acqs[i].pending == 0 && acqs[i].waiters == [] && (acqs[i].parent == this || acqs[i].parent == null))
      && (forall i | 0 <= i < |queue| ::
           queue[i].parent == this && queue[i].pending > 0 && queue[i].owned == 0)
    }

    ghost predicate Conserved()
      reads this, acqs
    {
      capacity == available + Sum(Shares(acqs, this))
    }

    ghost predicate Settled()
      reads this, queue
    {
      queue == [] || queue[0].pending > available
    }

    ghost predicate Valid()
      reads this, acqs, queue
    {
      Lists() && Conserved() && Settled()
    }

    constructor (capacity: nat)
      ensures Valid() && this.capacity == available == capacity && acqs == queue == [] && woken == []
    {
      this.capacity, available, acqs, queue, woken := capacity, capacity, [], [], [];
    }

    /** One round of `pump_waiters`: the front of the queue is granted, and its waiters are told. */
    method Grant()
      requires Lists() && Conserved() && queue != [] && queue[0].pending <= available
      modifies this, queue[0]
      ensures Lists() && Conserved() && capacity == old(capacity)
      ensures queue == old(queue)[1..] && acqs == old(acqs) + [old(queue)[0]]
      ensures var a := old(queue)[0];
        && a.owned == old(a.pending) && a.pending == 0 && a.waiters == [] && a.parent == this
        && available == old(available) - old(a.pending)
        && woken == old(woken) + Wakes(old(a.waiters), Success)
    {
      hide Distinct, Sum, Shares;
      var a := queue[0];
      ghost var was, rest := acqs, queue[1..];
      FrontIsApart(acqs, queue);
      ghost var before := Shares(acqs, this);
      assert acqs + queue == acqs + [a] + rest;
      queue := queue[1..];
      acqs := acqs + [a];
      available := available - a.pending;
      a.owned := a.owned + a.pending;
      a.pending := 0;
      woken := woken + Wakes(a.waiters, Success);
      a.waiters := [];
      assert Shares(was, this) == before;
      SharesAppend(was, a, this);
    }

    lemma QueueDistinct()
      requires Lists()
      ensures Distinct(queue)
    {
      var all := acqs + queue;
      assert forall i | 0 <= i < |queue| :: queue[i] == all[|acqs| + i];
    }

    lemma QueueFront()
      requires Lists() && queue != []
      ensures queue[0].owned == 0
    {
    }

    /** `pump_waiters`: the longest prefix of the queue that fits is granted, in order. */
    method Pump()
      requires Lists() && Conserved()
      modifies this, queue
      ensures Valid() && capacity == old(capacity)
      ensures var n := Fit(old(Wants(queue)), old(available));
        && queue == old(queue)[n..]
        && acqs == old(acqs) + old(queue)[..n]
        && available == old(available) - Sum(old(Wants(queue))[..n])
        && forall i | 0 <= i < n ::
             var a := old(queue)[i];
             a.owned == old(Wants(queue))[i] && a.pending == 0 && a.parent == this && a.waiters == []
      ensures forall i | Fit(old(Wants(queue)), old(available)) <= i < |old(queue)| :: unchanged(old(queue)[i])
      ensures woken == old(woken) + Told(old(Lines(queue))[..Fit(old(Wants(queue)), old(available))])
    {
      hide Lists, Conserved, Sum, Distinct, Fit, Told, Wakes, Wants, Lines, Shares;
      ghost var was, wants, most, done := queue, Wants(queue), available, acqs;
      ghost var lines := Lines(queue);
      ToldNothing(lines);
      ghost var m := 0;
      QueueDistinct();
      PumpStarts(wants, most);
      while queue != [] && queue[0].pending <= available
        invariant Lists() && Conserved() && capacity == old(capacity)
        invariant 0 <= m <= |was| && queue == was[m..] && acqs == done + was[..m]
        invariant Pumping(wants, most, m, available)
        invariant forall i | 0 <= i < m ::
          was[i].owned == wants[i] && was[i].pending == 0 && was[i].parent == this && was[i].waiters == []
        invariant forall i | m <= i < |was| :: unchanged(was[i])
        invariant woken == old(woken) + Told(lines[..m])
        decreases |queue|
      {
        QueueFront();
        OnlyAt(was, m);
        PumpStep(wants, most, m, available);
        assert was[..m + 1] == was[..m] + [was[m]] && queue[1..] == was[m + 1..];
        ToldStep(lines, m);
        Associates(old(woken), Told(lines[..m]), Wakes(lines[m], Success));
        Grant();
        m := m + 1;
      }
      PumpEnds(wants, most, m, available);
    }

    /** The constructor of an acq: it is granted at once if there is enough, even past the queue. */
    method Acquire(count: nat) returns (a: Acq)
      requires Valid()
      modifies this
      ensures Valid() && fresh(a) && a.parent == this && a.waiters == []
      ensures capacity == old(capacity) && woken == old(woken)
      ensures if count <= old(available) then
          && a.owned == count && a.pending == 0 && available == old(available) - count
          && acqs == old(acqs) + [a] && queue == old(queue)
        else
          && a.owned == 0 && a.pending == count && available == old(available)
          && acqs == old(acqs) && queue == old(queue) + [a]
    {
      hide Sum, Shares, Distinct;
      a := new Acq(count, this);
      ghost var was, line := acqs, queue;
      ghost var before := Shares(was, this);
      NewIsApart(was, line, a);
      if available >= a.pending {
        available := available - a.pending;
        a.owned := a.pending;
        a.pending := 0;
        acqs := acqs + [a];
        assert Shares(was, this) == before;
        SharesAppend(was, a, this);
      } else {
        queue := queue + [a];
      }
    }

    /** What `release` does before it pumps. */
    method TakeBack(a: Acq, count: nat, ghost k: nat)
      requires Valid() && k < |acqs| && acqs[k] == a && a.parent == this && count <= a.owned
      modifies this`available, a
      ensures Lists() && Conserved() && a !in queue
      ensures Wants(queue) == old(Wants(queue)) && Lines(queue) == old(Lines(queue))
      ensures a.owned == old(a.owned) - count && a.parent == this && available == old(available) + count
    {
      hide Sum, Distinct, Shares;
      ghost var before := Shares(acqs, this);
      SharesAre(acqs, this);
      GrantedApart(k);
      a.owned := a.owned - count;
      available := available + count;
      SumUpdate(before, k, a.owned);
      SharesAre(acqs, this);
      assert Shares(acqs, this) == before[k := a.owned];
    }

    /** `release`, for an acq that was granted. */
    method Release(a: Acq, count: nat, ghost k: nat)
      requires Valid() && k < |acqs| && acqs[k] == a && a.parent == this && count <= a.owned
      modifies this, a, queue
      ensures Valid() && capacity == old(capacity) && a.owned == old(a.owned) - count && a.parent == this
      ensures var n := Fit(old(Wants(queue)), old(available) + count);
        && queue == old(queue)[n..]
        && acqs == old(acqs) + old(queue)[..n]
        && available == old(available) + count - Sum(old(Wants(queue))[..n])
        && woken == old(woken) + Told(old(Lines(queue))[..n])
    {
      hide Sum, Fit, Wants, Lines, Told, Lists, Conserved, Settled;
      TakeBack(a, count, k);
      Pump();
    }

    lemma GrantedApart(k: nat)
      requires Lists() && k < |acqs|
      ensures forall i | 0 <= i < |acqs| :: acqs[i] == acqs[k] <==> i == k
      ensures forall i | 0 <= i < |queue| :: queue[i] != acqs[k]
      ensures acqs[k] !in Without(acqs, k) && acqs[k] !in queue
    {
      var all := acqs + queue;
      OnlyAt(all, k);
      assert forall i | 0 <= i < |acqs| :: acqs[i] == all[i];
      assert forall i | 0 <= i < |queue| :: queue[i] == all[|acqs| + i];
    }

    lemma QueuedApart(k: nat)
      requires Lists() && k < |queue|
      ensures forall i | 0 <= i < |queue| :: queue[i] == queue[k] <==> i == k
      ensures forall i | 0 <= i < |acqs| :: acqs[i] != queue[k]
      ensures queue[k] !in Without(queue, k) && queue[k] !in acqs
    {
      var all := acqs + queue;
      OnlyAt(all, |acqs| + k);
      assert forall i | 0 <= i < |acqs| :: acqs[i] == all[i];
      assert forall i | 0 <= i < |queue| :: queue[i] == all[|acqs| + i];
    }

    /** `release` of nothing by an acq that waits: a settled semaphore stays as it is. */
    method ReleaseQueued(a: Acq, count: nat, ghost k: nat)
      requires Valid() && k < |queue| && queue[k] == a && count <= a.owned
      modifies this, a, queue
      ensures Valid() && count == 0 && capacity == old(capacity) && available == old(available)
      ensures acqs == old(acqs) && queue == old(queue)
    {
      hide Sum, Distinct, Shares;
      ghost var before := Shares(acqs, this);
      QueuedApart(k);
      a.owned := a.owned - count;
      available := available + count;
      assert Shares(acqs, this) == before;
      FitNothing(Wants(queue), available);
      Pump();
    }

    /** The move constructor of a granted acq: the new one takes its place in the list. */
    method MoveGranted(other: Acq, ghost k: nat) returns (a: Acq)
      requires Valid() && k < |acqs| && acqs[k] == other
      modifies this`acqs, other
      ensures Valid() && fresh(a) && acqs == old(acqs)[k := a]
      ensures a.owned == old(other.owned) && a.parent == old(other.parent) && a.pending == 0
      ensures other.parent == null && other.owned == 0 && other.pending == 0
    {
      hide Sum, Distinct, Shares;
      ghost var before, was := Shares(acqs, this), acqs;
      SharesAre(acqs, this);
      GrantedApart(k);
      a := Acq.From(other);
      ReplaceDistinct(acqs, queue, k, a);
      var i :| 0 <= i < |acqs| && acqs[i] == other;
      acqs := acqs[i := a];
      assert Share(a, this) == before[k];
      assert forall j | 0 <= j < |was| && j != k :: Share(was[j], this) == before[j];
      SharesAre(acqs, this);
      assert Shares(acqs, this) == before;
    }

    /** The move constructor of a waiting acq: the new one keeps its place in the queue. */
    method MoveQueued(other: Acq, ghost k: nat) returns (a: Acq)
      requires Valid() && k < |queue| && queue[k] == other
      modifies this`queue, other
      ensures Valid() && fresh(a) && queue == old(queue)[k := a]
      ensures a.owned == 0 && a.parent == this && a.pending == old(other.pending) && a.waiters == old(other.waiters)
      ensures other.parent == null && other.owned == 0 && other.pending == 0 && other.waiters == []
    {
      hide Sum, Distinct, Shares;
      ghost var before := Shares(acqs, this);
      QueuedApart(k);
      a := Acq.From(other);
      ReplaceQueuedDistinct(acqs, queue, k, a);
      var i :| 0 <= i < |queue| && queue[i] == other;
      queue := queue[i := a];
      assert Shares(acqs, this) == before;
    }

    /** What the destructor of a granted acq does before it pumps. */
    method GiveUp(a: Acq, ghost k: nat)
      requires Valid() && k < |acqs| && acqs[k] == a && a.parent == this
      modifies this`available, this`acqs, a
      ensures Lists() && Conserved() && Wants(queue) == old(Wants(queue)) && Lines(queue) == old(Lines(queue))
      ensures acqs == Without(old(acqs), k) && available == old(available) + old(a.owned)
    {
      hide Sum, Distinct, Shares;
      ghost var before := Shares(acqs, this);
      SharesAre(acqs, this);
      GrantedApart(k);
      RemoveDistinct(acqs, queue, k);
      SumUpdate(before, k, 0);
      Unlist(a, k);
      var count := a.owned;
      a.owned := a.owned - count;
      available := available + count;
      SharesAre(acqs, this);
      assert Shares(acqs, this) == before[..k] + before[k + 1..];
    }

    /** The destructor of a granted acq. */
    method DestroyGranted(a: Acq, ghost k: nat)
      requires Valid() && k < |acqs| && acqs[k] == a && a.parent == this
      modifies this, a, queue
      ensures Valid() && capacity == old(capacity)
      ensures var n := Fit(old(Wants(queue)), old(available) + old(a.owned));
        && queue == old(queue)[n..]
        && acqs == Without(old(acqs), k) + old(queue)[..n]
        && available == old(available) + old(a.owned) - Sum(old(Wants(queue))[..n])
        && woken == old(woken) + Told(old(Lines(queue))[..n])
    {
      hide Sum, Fit, Wants, Lines, Told, Lists, Conserved, Settled;
      GiveUp(a, k);
      Pump();
    }

    /** `m_acqs.remove`. */
    method Unlist(a: Acq, ghost k: nat)
      requires k < |acqs| && acqs[k] == a && forall i | 0 <= i < |acqs| :: acqs[i] == acqs[k] <==> i == k
      modifies this`acqs
      ensures acqs == Without(old(acqs), k)
    {
      var i :| 0 <= i < |acqs| && acqs[i] == a;
      acqs := acqs[..i] + acqs[i + 1..];
    }

    /** `m_pending.remove`. */
    method LeaveQueue(a: Acq, ghost k: nat)
      requires Valid() && k < |queue| && queue[k] == a
      modifies this`queue
      ensures Lists() && Conserved() && queue == Without(old(queue), k)
      ensures Wants(queue) == old(Wants(Without(queue, k))) && Lines(queue) == old(Lines(Without(queue, k)))
      ensures forall b | b in queue :: b in old(queue)
    {
      hide Sum, Distinct, Shares, Wants, Lines;
      ghost var before, line := Shares(acqs, this), Without(queue, k);
      ghost var wants, lines := Wants(line), Lines(line);
      QueuedApart(k);
      RemoveQueuedDistinct(acqs, queue, k);
      var i :| 0 <= i < |queue| && queue[i] == a;
      queue := queue[..i] + queue[i + 1..];
      assert Shares(acqs, this) == before && Wants(line) == wants && Lines(line) == lines;
    }

    /** The destructor of an acq that still waits: it owns nothing, but its place may hold others up. */
    method DestroyQueued(a: Acq, ghost k: nat)
      requires Valid() && k < |queue| && queue[k] == a
      modifies this, queue
      ensures Valid() && capacity == old(capacity)
      ensures var line := Without(old(queue), k);
        var n := Fit(old(Wants(Without(queue, k))), old(available));
        && queue == line[n..]
        && acqs == old(acqs) + line[..n]
        && available == old(available) - Sum(old(Wants(Without(queue, k)))[..n])
        && woken == old(woken) + Told(old(Lines(Without(queue, k)))[..n])
    {
      hide Sum, Fit, Wants, Lines, Told, Lists, Conserved, Settled;
      LeaveQueue(a, k);
      Pump();
    }

    /** `extend`. */
    method Extend(count: nat)
      requires Valid()
      modifies this, queue
      ensures Valid() && capacity == old(capacity) + count
      ensures var n := Fit(old(Wants(queue)), old(available) + count);
        && queue == old(queue)[n..]
        && acqs == old(acqs) + old(queue)[..n]
        && available == old(available) + count - Sum(old(Wants(queue))[..n])
        && woken == old(woken) + Told(old(Lines(queue))[..n])
    {
      hide Sum, Fit, Wants, Lines, Told, Lists, Conserved, Settled;
      Grow(count);
      Pump();
    }

    method Grow(count: nat)
      requires Valid()
      modifies this`capacity, this`available
      ensures Lists() && Conserved() && Wants(queue) == old(Wants(queue)) && Lines(queue) == old(Lines(queue))
      ensures capacity == old(capacity) + count && available == old(available) + count
    {
      hide Sum, Distinct, Shares, Wants;
      ghost var before, wants := Shares(acqs, this), Wants(queue);
      capacity := capacity + count;
      available := available + count;
      assert Shares(acqs, this) == before && Wants(queue) == wants;
    }

    /** The scan of `remove`, for its debug assertion. */
    method Scan() returns (enough: bool)
      requires Lists()
      ensures enough <==> forall i | 0 <= i < |queue| :: queue[i].pending <= capacity
    {
      hide Distinct;
      enough := true;
      for i := 0 to |queue|
        invariant enough <==> forall j | 0 <= j < i :: queue[j].pending <= capacity
      {
        enough := enough && capacity >= queue[i].owned + queue[i].pending;
      }
    }

    /** What `remove` does before the scan: the acq's count leaves the semaphore, and it is invalid. */
    method Invalidate(a: Acq, ghost k: nat)
      requires Valid() && k < |acqs| && acqs[k] == a && a.parent == this
      modifies this`capacity, this`woken, a
      ensures Valid() && capacity == old(capacity) - old(a.owned) && woken == old(woken)
      ensures a.parent == null && a.owned == 0 && a.pending == 0 && a.waiters == [] && a !in queue
    {
      hide Sum, Distinct, Shares, Wakes;
      ghost var before := Shares(acqs, this);
      SharesAre(acqs, this);
      GrantedApart(k);
      SumUpdate(before, k, 0);
      capacity := capacity - a.owned;
      a.parent := null;
      a.pending := 0;
      a.owned := 0;
      woken := woken + Wakes(a.waiters, ObjectLost);
      a.waiters := [];
      SharesAre(acqs, this);
      assert Shares(acqs, this) == before[k := 0];
    }

    /**
     * `remove`, once the acq is granted: what it owns leaves the semaphore, and it is dead. The debug
     * assertion holds exactly if every waiting acq asks for no more than is left.
     */
    method Remove(a: Acq, ghost k: nat) returns (enough: bool)
      requires Valid() && k < |acqs| && acqs[k] == a && a.parent == this
      modifies this`capacity, this`woken, a
      ensures Valid() && capacity == old(capacity) - old(a.owned) && available == old(available)
      ensures a.parent == null && a.owned == 0 && a.pending == 0 && a.waiters == []
      ensures acqs == old(acqs) && queue == old(queue) && woken == old(woken)
      ensures enough <==>
        forall i | 0 <= i < |old(queue)| :: old(queue[i].pending) <= old(capacity) - old(a.owned)
    {
      hide Distinct, Conserved, Settled;
      Invalidate(a, k);
      enough := Scan();
    }

    /**
     * `combine`: the first acq takes what the other owns, and the other one is dead. With itself, an
     * acq that owns something is lost to the semaphore.
     */
    method Combine(a: Acq, other: Acq, ghost i: nat, ghost j: nat)
      requires Valid() && i < |acqs| && acqs[i] == a && j < |acqs| && acqs[j] == other
      requires a.parent == this && other.parent == this
      modifies a, other
      ensures Lists() && Settled()
      ensures Conserved() <==> (a != other || old(a.owned) == 0)
      ensures a.owned == old(a.owned) + old(other.owned) && other.parent == null
      ensures a != other ==> a.parent == this && other.owned == old(other.owned)
    {
      hide Sum, Distinct, Shares;
      ghost var before := Shares(acqs, this);
      SharesAre(acqs, this);
      GrantedApart(i);
      GrantedApart(j);
      a.owned := a.owned + other.owned;
      other.parent := null;
      var told := other.waiters;
      other.waiters := [];
      a.waiters := a.waiters + told;
      SharesAre(acqs, this);
      SumUpdate(before, j, 0);
      ghost var without: seq<nat> := before[j := 0];
      if a != other {
        SumUpdate(without, i, a.owned);
        assert Shares(acqs, this) == without[i := a.owned];
      } else {
        assert Shares(acqs, this) == without;
      }
    }

    /** `add_wait`. */
    method AddWait(a: Acq, callback: nat, ghost k: nat)
      requires Valid()
      requires if a.pending == 0 then k < |acqs| && acqs[k] == a else k < |queue| && queue[k] == a
      modifies this`woken, a`waiters
      ensures Valid()
      ensures if a.pending == 0 then
          woken == old(woken) + [Wake(callback, Success)] && a.waiters == old(a.waiters)
        else
          woken == old(woken) && a.waiters == old(a.waiters) + [callback]
    {
      hide Sum, Distinct, Shares;
      ghost var before := Shares(acqs, this);
      if a.pending == 0 {
        woken := woken + [Wake(callback, Success)];
      } else {
        QueuedApart(k);
        a.waiters := a.waiters + [callback];
        assert Shares(acqs, this) == before;
      }
    }

    /** The loops of the move constructor: they also reach the dead acqs. */
    method SetParents(list: seq<Acq>)
      modifies list`parent
      ensures forall i | 0 <= i < |list| :: list[i].parent == this
    {
      for i := 0 to |list|
        invariant forall j | 0 <= j < i :: list[j].parent == this
      {
        list[i].parent := this;
      }
    }

    /** These lists are those of another semaphore. */
    ghost predicate From(other: Sem)
      reads this, acqs, queue
    {
      && Distinct(acqs + queue)
      && (forall i | 0 <= i < |acqs| ::
           acqs[i].pending == 0 && acqs[i].waiters == [] && (acqs[i].parent == other || acqs[i].parent == null))
      && (forall i | 0 <= i < |queue| ::
           queue[i].parent == other && queue[i].pending > 0 && queue[i].owned == 0)
      && capacity == available + Sum(Shares(acqs, other))
      && Settled()
    }

    method Adopt(ghost other: Sem)
      requires From(other) && other != this
      modifies acqs`parent, queue`parent
      ensures Lists() && Settled()
      ensures Conserved() <==>
        forall i | 0 <= i < |acqs| :: old(acqs[i].parent) == null ==> acqs[i].owned == 0
    {
      hide Sum, Distinct, Shares, Lists, Settled;
      ghost var before, dead := Shares(acqs, other), Dead(acqs);
      SharesOf(acqs, other);
      SetParents(acqs);
      SetParents(queue);
      ghost var after := Shares(acqs, this);
      SharesOf(acqs, this);
      AdoptedSum(before, after, dead);
      AdoptedLists(other);
    }

    /** Nothing but the parents was changed. */
    twostate lemma AdoptedLists(other: Sem)
      requires old(From(other)) && acqs == old(acqs) && queue == old(queue) && available == old(available)
      requires forall i | 0 <= i < |acqs| ::
        acqs[i].parent == this && acqs[i].pending == old(acqs[i].pending) && acqs[i].waiters == old(acqs[i].waiters)
      requires forall i | 0 <= i < |queue| ::
        queue[i].parent == this && queue[i].pending == old(queue[i].pending) && queue[i].owned == old(queue[i].owned)
      ensures Lists() && Settled()
    {
      hide Sum, Distinct, Shares;
    }

    /** What is left behind. */
    method Reset()
      modifies this
      ensures Valid() && capacity == available == 0 && acqs == queue == []
    {
      capacity, available, acqs, queue := 0, 0, [], [];
    }

    /**
     * The move constructor: everything is taken over, and the sum is kept exactly if no dead acq
     * still has a count of what it once owned.
     */
    constructor Move(other: Sem)
      requires other.Valid()
      modifies other, other.acqs, other.queue
      ensures capacity == old(other.capacity) && available == old(other.available)
      ensures acqs == old(other.acqs) && queue == old(other.queue) && woken == []
      ensures Lists() && Settled()
      ensures Conserved() <==>
        forall i | 0 <= i < |acqs| :: old(other.acqs[i].parent) == null ==> acqs[i].owned == 0
      ensures forall i | 0 <= i < |acqs| :: acqs[i].owned == old(other.acqs[i].owned)
      ensures other.Valid() && other.capacity == 0 && other.acqs == [] && other.queue == []
    {
      hide *;
      capacity, available, acqs, queue, woken := other.capacity, other.available, other.acqs, other.queue, [];
      new;
      TakenOver(other);
      other.Reset();
      Adopt(other);
    }

    lemma TakenOver(other: Sem)
      requires other.Valid() && capacity == other.capacity && available == other.available
      requires acqs == other.acqs && queue == other.queue
      ensures From(other)
    {
      hide Sum, Distinct, Shares;
    }
  }

  lemma ToldNothing(lines: seq<seq<nat>>)
    ensures Told(lines[..0]) == []
  {
  }

  /** After `m` grants, as the loop of `pump_waiters` counts them. */
  ghost predicate Pumping(wants: seq<nat>, most: nat, m: nat, available: nat) {
    m <= |wants| && available == most - Sum(wants[..m]) && Fit(wants, most) == m + Fit(wants[m..], available)
  }

  lemma FitNothing(wants: seq<nat>, available: nat)
    requires wants == [] || wants[0] > available
    ensures Fit(wants, available) == 0 && Sum(wants[..0]) == 0
  {
  }

  lemma PumpStarts(wants: seq<nat>, most: nat)
    ensures Pumping(wants, most, 0, most)
  {
    assert wants[0..] == wants && wants[..0] == [];
  }

  lemma PumpStep(wants: seq<nat>, most: nat, m: nat, available: nat)
    requires Pumping(wants, most, m, available) && m < |wants| && wants[m] <= available
    ensures Pumping(wants, most, m + 1, available - wants[m])
  {
    PrefixSum(wants, m + 1);
    assert wants[m..][0] == wants[m] && wants[m..][1..] == wants[m + 1..];
  }

  lemma PumpEnds(wants: seq<nat>, most: nat, m: nat, available: nat)
    requires Pumping(wants, most, m, available) && (m < |wants| ==> wants[m] > available)
    ensures Fit(wants, most) == m && available == most - Sum(wants[..m])
  {
    assert m < |wants| ==> wants[m..][0] == wants[m];
  }

  lemma OnlyAt(s: seq<Acq>, k: nat)
    requires Distinct(s) && k < |s|
    ensures forall i | 0 <= i < |s| :: s[i] == s[k] <==> i == k
  {
  }

  lemma PrefixSum(s: seq<nat>, n: nat)
    requires n <= |s|
    ensures n > 0 ==> Sum(s[..n]) == Sum(s[..n - 1]) + s[n - 1]
  {
    if n > 0 {
      assert s[..n] == s[..n - 1] + [s[n - 1]];
      SumAppend(s[..n - 1], [s[n - 1]]);
      SumOne(s[n - 1]);
    }
  }

  lemma FrontIsApart(acqs: seq<Acq>, queue: seq<Acq>)
    requires Distinct(acqs + queue) && queue != []
    ensures queue[0] !in acqs && queue[0] !in queue[1..]
  {
    var all, k := acqs + queue, |acqs|;
    assert all[k] == queue[0];
    assert forall i | 0 <= i < |acqs| :: acqs[i] == all[i];
    assert forall i | 1 <= i < |queue| :: queue[i] == all[k + i];
  }

  function Dead(acqs: seq<Acq>): (s: seq<bool>)
    reads acqs
    ensures |s| == |acqs|
    ensures forall i | 0 <= i < |acqs| :: s[i] == (acqs[i].parent == null)
  {
    if acqs == [] then [] else Dead(acqs[..|acqs| - 1]) + [acqs[|acqs| - 1].parent == null]
  }

  lemma SharesOf(acqs: seq<Acq>, sem: Sem)
    requires forall i | 0 <= i < |acqs| :: acqs[i].parent == sem || acqs[i].parent == null
    ensures forall i | 0 <= i < |acqs| :: Shares(acqs, sem)[i] == if acqs[i].parent == null then 0 else acqs[i].owned
  {
  }

  lemma AdoptedSum(before: seq<nat>, after: seq<nat>, dead: seq<bool>)
    requires |before| == |after| == |dead|
    requires forall i | 0 <= i < |dead| :: before[i] == if dead[i] then 0 else after[i]
    ensures Sum(before) == Sum(after) <==> forall i | 0 <= i < |dead| :: dead[i] ==> after[i] == 0
  {
    SumCompare(before, after);
  }

  lemma SharesAre(acqs: seq<Acq>, sem: Sem)
    ensures forall i | 0 <= i < |acqs| :: Shares(acqs, sem)[i] == Share(acqs[i], sem)
  {
  }

  lemma SharesAppend(acqs: seq<Acq>, a: Acq, sem: Sem)
    ensures Shares(acqs + [a], sem) == Shares(acqs, sem) + [Share(a, sem)]
    ensures Sum(Shares(acqs + [a], sem)) == Sum(Shares(acqs, sem)) + Share(a, sem)
  {
    hide Sum;
    assert (acqs + [a])[..|acqs|] == acqs;
    SumAppend(Shares(acqs, sem), [Share(a, sem)]);
    SumOne(Share(a, sem));
  }

  lemma NewIsApart(acqs: seq<Acq>, queue: seq<Acq>, a: Acq)
    requires Distinct(acqs + queue) && a !in acqs && a !in queue
    ensures Distinct(acqs + [a] + queue) && Distinct(acqs + (queue + [a]))
  {
    var all := acqs + queue;
    assert forall i | 0 <= i < |all| :: all[i] != a by {
      assert forall i | 0 <= i < |acqs| :: acqs[i] != a;
      assert forall i | 0 <= i < |queue| :: queue[i] != a;
    }
    var first, last := acqs + [a] + queue, acqs + (queue + [a]);
    forall i, j | 0 <= i < j < |first|
      ensures first[i] != first[j]
    {
      assert i < |acqs| ==> first[i] == all[i];
      assert i > |acqs| ==> first[i] == all[i - 1];
      assert j < |acqs| ==> first[j] == all[j];
      assert j > |acqs| ==> first[j] == all[j - 1];
    }
    forall i, j | 0 <= i < j < |last|
      ensures last[i] != last[j]
    {
      assert last[i] == all[i];
      assert j < |all| ==> last[j] == all[j];
    }
  }

  lemma ReplaceDistinct(acqs: seq<Acq>, queue: seq<Acq>, k: nat, a: Acq)
    requires Distinct(acqs + queue) && k < |acqs| && a !in acqs && a !in queue
    ensures Distinct(acqs[k := a] + queue)
  {
    var all := acqs + queue;
    assert acqs[k := a] + queue == all[k := a];
    assert forall i | 0 <= i < |all| :: all[i] in acqs || all[i] in queue;
  }

  lemma ReplaceQueuedDistinct(acqs: seq<Acq>, queue: seq<Acq>, k: nat, a: Acq)
    requires Distinct(acqs + queue) && k < |queue| && a !in acqs && a !in queue
    ensures Distinct(acqs + queue[k := a])
  {
    var all := acqs + queue;
    assert acqs + queue[k := a] == all[|acqs| + k := a];
    assert forall i | 0 <= i < |all| :: all[i] in acqs || all[i] in queue;
  }

  lemma RemoveDistinct(acqs: seq<Acq>, queue: seq<Acq>, k: nat)
    requires Distinct(acqs + queue) && k < |acqs|
    ensures Distinct(Without(acqs, k) + queue)
  {
    assert Without(acqs, k) + queue == Without(acqs + queue, k);
  }

  lemma RemoveQueuedDistinct(acqs: seq<Acq>, queue: seq<Acq>, k: nat)
    requires Distinct(acqs + queue) && k < |queue|
    ensures Distinct(acqs + Without(queue, k))
  {
    assert acqs + Without(queue, k) == Without(acqs + queue, |acqs| + k);
  }

  /** The queue is overtaken: the third acq is granted although the second one waits. */
  method Overtake() returns (sem: Sem, first: Acq, second: Acq, third: Acq)
    ensures sem.Valid() && sem.acqs == [first, third] && sem.queue == [second]
    ensures second.pending == 2 && second.owned == 0 && third.pending == 0 && third.owned == 1
  {
    hide Sum, Distinct, Shares, Sem.Conserved, Sem.Lists, Sem.Settled, Fit;
    sem := new Sem(2);
    first := sem.Acquire(1);
    second := sem.Acquire(2);
    third := sem.Acquire(1);
  }

  /** The debug assertion of `remove` fails: the waiting acq asks for more than there will ever be. */
  method RemoveTooMuch() returns (sem: Sem, enough: bool)
    ensures sem.Valid() && sem.capacity == 1 && |sem.queue| == 1 && sem.queue[0].pending == 2 && !enough
  {
    hide Sum, Distinct, Shares, Sem.Conserved, Sem.Lists, Sem.Settled, Fit;
    sem := new Sem(2);
    var a := sem.Acquire(1);
    var b := sem.Acquire(2);
    enough := sem.Remove(a, 0);
  }

  /** A move after a combination loses count: what the dead acq once owned is added again. */
  method CombineThenMove() returns (sem: Sem)
    ensures sem.Lists() && !sem.Conserved()
  {
    hide Sum, Distinct, Shares, Sem.Conserved, Sem.Lists, Sem.Settled, Fit;
    var first := new Sem(2);
    var a := first.Acquire(1);
    var b := first.Acquire(1);
    first.Combine(a, b, 0, 1);
    assert first.acqs[1] == b && b.parent == null && b.owned == 1;
    sem := new Sem.Move(first);
  }
}

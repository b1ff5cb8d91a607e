/** `thread_barrier_t`: a reusable barrier with two sides, used in alternate rounds.  Each side has
    a counter; a thread waits until the counter of the side it entered reaches the total.  The
    counter of a side is reset by the thread that completes the other side. */
module ThreadBarrier {

  datatype Side = A | B

  /** A thread that has left `rounds` rounds, or that waits, in round `round`, on `side`. */
  datatype Status = Outside(rounds: nat) | Inside(round: nat, side: Side)

  /** `completed` is the number of rounds that all threads have entered. */
  datatype State = State(side: Side, countA: nat, countB: nat, threads: seq<Status>, completed: nat)

  datatype Label = Enter(thread: nat) | Leave(thread: nat)

  function Initial(total: nat): State {
    State(A, 0, 0, seq(total, _ => Outside(0)), 0)
  }

  function Other(side: Side): Side {
    if side == A then B else A
  }

  function Count(s: State, side: Side): nat {
    if side == A then s.countA else s.countB
  }

  function SetCount(s: State, side: Side, n: nat): State {
    if side == A then s.(countA := n) else s.(countB := n)
  }

  predicate Enabled(s: State, l: Label) {
    && l.thread < |s.threads|
    && var t := s.threads[l.thread];
       match l
       case Enter(_) => t.Outside?
       case Leave(_) => t.Inside? && Count(s, t.side) == |s.threads|
  }

  /** Both steps run under the barrier's lock; the thread that completes a round does not wait. */
  function Apply(s: State, l: Label): State
    requires Enabled(s, l)
  {
    var t := s.threads[l.thread];
    match l
    case Enter(i) =>
      var n := Count(s, s.side) + 1;
      var u := SetCount(s, s.side, n);
      if n == |s.threads|
      then SetCount(u, Other(s.side), 0)
           .(side := Other(s.side),
             threads := s.threads[i := Outside(t.rounds + 1)],
             completed := s.completed + 1)
      else u.(threads := s.threads[i := Inside(t.rounds, s.side)])
    case Leave(i) =>
      s.(side := Other(t.side), threads := s.threads[i := Outside(t.round + 1)])
  }

  // ----- the invariant

  function SideOf(round: nat): Side {
    if round % 2 == 0 then A else B
  }

  /** The threads that wait in round `round`. */
  function Waiting(threads: seq<Status>, round: nat): nat {
    if threads == [] then 0
    else (if threads[0].Inside? && threads[0].round == round then 1 else 0)
         + Waiting(threads[1..], round)
  }

  /** A thread has not entered the current round, waits in it, or has not left the last one. */
  predicate InStep(t: Status, completed: nat) {
    match t
    case Outside(r) => r == completed
    case Inside(r, side) => (r == completed || r + 1 == completed) && side == SideOf(r)
  }

  ghost predicate Inv(s: State) {
    && |s.threads| >= 1
    && s.side == SideOf(s.completed)
    && Count(s, s.side) == Waiting(s.threads, s.completed) < |s.threads|
    && Count(s, Other(s.side)) == (if s.completed == 0 then 0 else |s.threads|)
    && forall i | 0 <= i < |s.threads| :: InStep(s.threads[i], s.completed)
  }

  lemma {:induction false} WaitingUpdate(threads: seq<Status>, i: nat, t: Status, round: nat)
    requires i < |threads|
    ensures Waiting(threads[i := t], round)
         == Waiting(threads, round)
            - (if threads[i].Inside? && threads[i].round == round then 1 else 0)
            + (if t.Inside? && t.round == round then 1 else 0)
  {
    if i == 0 {
      assert threads[i := t][1..] == threads[1..];
    } else {
      assert threads[i := t][1..] == threads[1..][i - 1 := t];
      WaitingUpdate(threads[1..], i - 1, t, round);
    }
  }

  lemma {:induction false} WaitingBound(threads: seq<Status>, round: nat)
    ensures Waiting(threads, round) <= |threads|
    ensures Waiting(threads, round) == |threads| ==>
      forall i | 0 <= i < |threads| :: threads[i].Inside? && threads[i].round == round
  {
    if threads != [] {
      WaitingBound(threads[1..], round);
      forall i | 0 <= i < |threads| && Waiting(threads, round) == |threads|
        ensures threads[i].Inside? && threads[i].round == round
      {
        if i > 0 {
          assert threads[i] == threads[1..][i - 1];
        }
      }
    }
  }

  lemma {:induction false} NoneWaiting(threads: seq<Status>, round: nat)
    requires forall i | 0 <= i < |threads| :: threads[i].Inside? ==> threads[i].round != round
    ensures Waiting(threads, round) == 0
  {
    if threads != [] {
      NoneWaiting(threads[1..], round);
    }
  }

  /** When one thread is missing and it enters, all the others wait in this very round. */
  lemma LastToEnter(s: State, i: nat)
    requires Inv(s) && Enabled(s, Enter(i)) && Count(s, s.side) + 1 == |s.threads|
    ensures forall j | 0 <= j < |s.threads| && j != i :: s.threads[j] == Inside(s.completed, s.side)
  {
    var all := s.threads[i := Inside(s.completed, s.side)];
    WaitingUpdate(s.threads, i, all[i], s.completed);
    WaitingBound(all, s.completed);
    hide Waiting;
    forall j | 0 <= j < |s.threads| && j != i
      ensures s.threads[j] == Inside(s.completed, s.side)
    {
      assert all[j] == s.threads[j];
      assert InStep(s.threads[j], s.completed);
    }
  }

  lemma EnterKeepsInv(s: State, i: nat)
    requires Inv(s) && Enabled(s, Enter(i))
    ensures Inv(Apply(s, Enter(i)))
  {
    var u := Apply(s, Enter(i));
    assert InStep(s.threads[i], s.completed);
    if Count(s, s.side) + 1 == |s.threads| {
      LastToEnter(s, i);
      NoneWaiting(u.threads, u.completed);
      hide Waiting;
    } else {
      WaitingUpdate(s.threads, i, u.threads[i], s.completed);
      hide Waiting;
    }
  }

  lemma LeaveKeepsInv(s: State, i: nat)
    requires Inv(s) && Enabled(s, Leave(i))
    ensures Inv(Apply(s, Leave(i)))
  {
    var u := Apply(s, Leave(i));
    assert InStep(s.threads[i], s.completed);
    WaitingUpdate(s.threads, i, u.threads[i], s.completed);
    hide Waiting;
  }

  lemma StepKeepsInv(s: State, l: Label)
    requires Inv(s) && Enabled(s, l)
    ensures Inv(Apply(s, l)) && |Apply(s, l).threads| == |s.threads|
  {
    hide Inv;
    match l
    case Enter(i) => EnterKeepsInv(s, i);
    case Leave(i) => LeaveKeepsInv(s, i);
  }

  // ----- what the barrier promises

  /** How many rounds a thread has completed. */
  function Rounds(t: Status): nat {
    if t.Outside? then t.rounds else t.round
  }

  predicate HasEntered(t: Status, round: nat) {
    if t.Outside? then t.rounds > round else t.round >= round
  }

  predicate HasLeft(t: Status, round: nat) {
    Rounds(t) > round
  }

  /** A side's counter is reset only when no thread waits on that side. */
  lemma ResetIsSafe(s: State, l: Label, side: Side, i: nat)
    requires Inv(s) && Enabled(s, l) && i < |s.threads|
    requires Count(Apply(s, l), side) < Count(s, side)
    ensures !(s.threads[i].Inside? && s.threads[i].side == side)
  {
    if l.Enter? && Count(s, s.side) + 1 == |s.threads| {
      LastToEnter(s, l.thread);
    }
  }

  /** A thread whose wait is over can leave until it does, whatever the others do meanwhile. */
  lemma WaitStaysOver(s: State, l: Label, i: nat)
    requires Inv(s) && Enabled(s, l) && Enabled(s, Leave(i)) && l != Leave(i)
    ensures Enabled(Apply(s, l), Leave(i))
  {
    StepKeepsInv(s, l);
    assert InStep(s.threads[i], s.completed);
    var u := Apply(s, l);
    assert InStep(u.threads[i], u.completed);
  }

  /** A waiting thread's wait is over exactly when every thread has entered its round. */
  lemma WaitIsOverIff(s: State, i: nat)
    requires Inv(s) && i < |s.threads| && s.threads[i].Inside?
    ensures Enabled(s, Leave(i)) <==>
      forall j | 0 <= j < |s.threads| :: HasEntered(s.threads[j], s.threads[i].round)
  {
    var r := s.threads[i].round;
    assert InStep(s.threads[i], s.completed);
    if r == s.completed {
      if forall j | 0 <= j < |s.threads| :: HasEntered(s.threads[j], r) {
        EveryoneWaits(s.threads, s.completed);
      }
    } else {
      assert forall j | 0 <= j < |s.threads| :: InStep(s.threads[j], s.completed);
    }
  }

  lemma {:induction false} EveryoneWaits(threads: seq<Status>, round: nat)
    requires forall j | 0 <= j < |threads| :: HasEntered(threads[j], round) && InStep(threads[j], round)
    ensures Waiting(threads, round) == |threads|
  {
    if threads != [] {
      assert InStep(threads[0], round) && HasEntered(threads[0], round);
      EveryoneWaits(threads[1..], round);
    }
  }

  predicate Runs(s: State, labels: seq<Label>)
    decreases labels
  {
    labels == [] || (Enabled(s, labels[0]) && Runs(Apply(s, labels[0]), labels[1..]))
  }

  function After(s: State, labels: seq<Label>): State
    requires Runs(s, labels)
    decreases labels
  {
    if labels == [] then s else After(Apply(s, labels[0]), labels[1..])
  }

  lemma {:induction false} RunKeepsInv(s: State, labels: seq<Label>)
    requires Inv(s) && Runs(s, labels)
    ensures Inv(After(s, labels)) && |After(s, labels).threads| == |s.threads|
    decreases labels
  {
    hide Inv, Enabled, Apply;
    if labels != [] {
      StepKeepsInv(s, labels[0]);
      RunKeepsInv(Apply(s, labels[0]), labels[1..]);
    }
  }

  /** For any number of threads and rounds: no thread leaves a round before all have entered it,
      and no two threads are ever more than one round apart. */
  lemma Lockstep(total: nat, labels: seq<Label>, i: nat, j: nat, round: nat)
    requires total >= 1 && Runs(Initial(total), labels)
    requires i < total && j < total
    ensures var s := After(Initial(total), labels);
      && |s.threads| == total
      && (HasLeft(s.threads[i], round) ==> HasEntered(s.threads[j], round))
      && Rounds(s.threads[i]) <= Rounds(s.threads[j]) + 1
  {
    NoneWaiting(Initial(total).threads, 0);
    RunKeepsInv(Initial(total), labels);
    var s := After(Initial(total), labels);
    assert InStep(s.threads[i], s.completed) && InStep(s.threads[j], s.completed);
  }

  // ----- the code

  /** The barrier object.  `Arrive` is `wait` up to the point where the thread blocks, if it has
      to; `Depart` is what a blocked thread does when its predicate holds. */
  class Barrier {
    const total: nat
    var side: Side
    var countA: nat
    var countB: nat

    ghost predicate Matches(s: State)
      reads this
    {
      total == |s.threads| && side == s.side && countA == s.countA && countB == s.countB
    }

    constructor (total: nat)
      ensures Matches(Initial(total))
    {
      this.total := total;
      side, countA, countB := A, 0, 0;
    }

    method Arrive(ghost s: State, ghost i: nat) returns (waits: bool)
      requires Inv(s) && Enabled(s, Enter(i)) && Matches(s)
      modifies this
      ensures Matches(Apply(s, Enter(i)))
      ensures waits <==> Apply(s, Enter(i)).threads[i].Inside?
    {
      waits := true;
      if side == A {
        countA := countA + 1;
        if countA == total {
          countB := 0;
          waits := false;
          side := B;
        }
      } else {
        countB := countB + 1;
        if countB == total {
          countA := 0;
          waits := false;
          side := A;
        }
      }
    }

    method Depart(entered: Side, ghost s: State, ghost i: nat) returns (left: bool)
      requires Inv(s) && i < |s.threads| && s.threads[i].Inside? && s.threads[i].side == entered
      requires Matches(s)
      modifies this
      ensures left <==> Enabled(s, Leave(i))
      ensures Matches(if left then Apply(s, Leave(i)) else s)
    {
      left := (if entered == A then countA else countB) == total;
      if left {
        side := if entered == A then B else A;
      }
    }
  }
}

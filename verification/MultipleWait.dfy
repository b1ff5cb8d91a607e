/** A wait for any or for all of several objects, which an interruptor may end. */
module MultipleWait {
  import opened Sequences

  datatype Result = Success | Interrupted | ObjectLost

  /** The largest `size_t`. */
  const MAX_SIZE: nat := 0xFFFF_FFFF_FFFF_FFFF

  // -------------------------------------------------------------------------
  // The waiter's state, and what each call does to it
  // -------------------------------------------------------------------------

  /**
   * `items` is the list of callbacks, `registered` those that are in the list of their object,
   * `hooked` says whether the waiter is in the interruptor's list, and `resumed` records the calls
   * that resume the owner.
   */
  datatype State = State(
    ready: bool, waiting: bool, needed: nat, result: Result,
    items: seq<nat>, registered: set<nat>, hooked: bool, resumed: seq<Result>)

  function Elements(items: seq<nat>): set<nat> {
    set k | k in items
  }

  /** `m_items.clear` with `cancel_wait`. */
  function Cancelled(st: State): State {
    st.(items := [], registered := st.registered - Elements(st.items))
  }

  /** `ready`. */
  function Readied(st: State, result: Result): State {
    var st1 := st.(ready := true, result := result);
    if st.waiting then Cancelled(st1).(resumed := st.resumed + [result], waiting := false) else st1
  }

  /** `--m_needed`, which wraps around. */
  function OneLess(needed: nat): nat {
    if needed == 0 then MAX_SIZE else needed - 1
  }

  /** `item_finished`. */
  function Finish(st: State, result: Result): State {
    if !st.ready then
      if result != Success then Readied(st, result)
      else
        var st1 := st.(needed := OneLess(st.needed));
        if st1.needed == 0 then Readied(st1, Success) else st1
    else if result != Success then st.(result := result)
    else st
  }

  /** What the interruptor's result means for the wait. */
  function Interruption(result: Result): Result {
    if result == Success then Interrupted else result
  }

  /** `wait_done`, called by the interruptor. */
  function Hook(st: State, result: Result): State {
    if st.ready then st else Readied(st, Interruption(result))
  }

  // -------------------------------------------------------------------------
  // Runs of a suspended wait
  // -------------------------------------------------------------------------

  /** An object tells its callback `k`, or the interruptor tells the waiter; both take it off their list first. */
  datatype Event = Item(k: nat, result: Result) | Hooked(result: Result)

  predicate CanStep(st: State, e: Event) {
    if e.Item? then e.k in st.registered else st.hooked
  }

  function Step(st: State, e: Event): State {
    if e.Item? then Finish(st.(registered := st.registered - {e.k}), e.result)
    else Hook(st.(hooked := false), e.result)
  }

  predicate CanRun(st: State, run: seq<Event>)
    decreases |run|
  {
    run == [] || (CanStep(st, run[0]) && CanRun(Step(st, run[0]), run[1..]))
  }

  function After(st: State, run: seq<Event>): State
    decreases |run|
  {
    if run == [] then st else After(Step(st, run[0]), run[1..])
  }

  /** What the events decide: the first failure, the interruption, or the last success that is needed. */
  function Decide(needed: nat, run: seq<Event>): Option<Result>
    decreases |run|
  {
    if run == [] then None
    else
      match run[0]
      case Hooked(result) => Some(Interruption(result))
      case Item(_, result) =>
        if result != Success then Some(result)
        else if needed == 1 then Some(Success)
        else Decide(OneLess(needed), run[1..])
  }

  predicate Suspended(st: State) {
    && !st.ready && st.waiting && st.resumed == []
    && st.registered <= Elements(st.items)
    && (st.registered != {} ==> st.needed > 0)
  }

  predicate Over(st: State, result: Result) {
    st.ready && !st.waiting && st.items == [] && st.registered == {} && st.resumed == [result] && st.result == result
  }

  lemma SuspendedStep(st: State, e: Event)
    requires Suspended(st) && CanStep(st, e)
    ensures var st2 := Step(st, e);
      match Decide(st.needed, [e])
      case Some(result) => Over(st2, result)
      case None =>
        && Suspended(st2) && st.needed > 1 && st2.needed == st.needed - 1 && st2.hooked == st.hooked
        && |st2.registered| == |st.registered| - 1
  {
    assert [e][1..] == [];
    if e.Item? {
      assert |st.registered - {e.k}| == |st.registered| - 1;
    }
  }

  lemma OverStep(st: State, e: Event, result: Result)
    requires Over(st, result) && CanStep(st, e)
    ensures Over(Step(st, e), result)
  {
  }

  lemma {:induction false} OverStays(st: State, run: seq<Event>, result: Result)
    requires Over(st, result) && CanRun(st, run)
    ensures Over(After(st, run), result)
    decreases |run|
  {
    hide Over, Step;
    if run != [] {
      OverStep(st, run[0], result);
      OverStays(Step(st, run[0]), run[1..], result);
    }
  }

  lemma DecideStep(needed: nat, run: seq<Event>)
    requires run != []
    ensures Decide(needed, [run[0]]).Some? ==> Decide(needed, run) == Decide(needed, [run[0]])
    ensures Decide(needed, [run[0]]).None? && needed > 0 ==> Decide(needed, run) == Decide(needed - 1, run[1..])
  {
    assert [run[0]][1..] == [];
  }

  /**
   * In every run of a suspended wait, the owner is resumed exactly once if the events decide the
   * wait, with what they decide, and then nothing is registered any more; until then it is not resumed.
   */
  lemma {:induction false} ResumedOnce(st: State, run: seq<Event>)
    requires Suspended(st) && CanRun(st, run)
    ensures match Decide(st.needed, run)
      case Some(result) => Over(After(st, run), result)
      case None => Suspended(After(st, run))
    decreases |run|
  {
    hide Over, Step, Suspended, Decide;
    if run == [] {
      DecidesNothing(st.needed);
    } else {
      var e, st2 := run[0], Step(st, run[0]);
      SuspendedStep(st, e);
      DecideStep(st.needed, run);
      if Decide(st.needed, [e]).Some? {
        OverStays(st2, run[1..], Decide(st.needed, [e]).value);
      } else {
        ResumedOnce(st2, run[1..]);
      }
    }
  }

  lemma DecidesNothing(needed: nat)
    ensures Decide(needed, []) == None
  {
  }

  predicate Clean(run: seq<Event>) {
    forall i | 0 <= i < |run| :: run[i].Item? && run[i].result == Success
  }

  /** The wait is over without an error exactly when the needed items succeeded before anything failed. */
  lemma {:induction false} SuccessIff(needed: nat, run: seq<Event>)
    requires needed > 0
    ensures Decide(needed, run) == Some(Success) <==> needed <= |run| && Clean(run[..needed])
    decreases |run|
  {
    if run != [] && run[0].Item? && run[0].result == Success {
      if needed == 1 {
        assert run[..1] == [run[0]];
      } else {
        SuccessIff(needed - 1, run[1..]);
        if needed <= |run| {
          assert run[..needed][1..] == run[1..][..needed - 1];
          CleanTail(run[..needed]);
        }
      }
    } else if run != [] && needed <= |run| {
      assert run[..needed][0] == run[0];
    }
  }

  lemma CleanTail(run: seq<Event>)
    requires run != [] && run[0].Item? && run[0].result == Success
    ensures Clean(run) <==> Clean(run[1..])
  {
    if Clean(run[1..]) {
      forall i | 0 <= i < |run| ensures run[i].Item? && run[i].result == Success {
        assert i > 0 ==> run[i] == run[1..][i - 1];
      }
    }
  }

  /**
   * Everything that the events can decide: after fewer good items than are needed, an item that fails
   * ends the wait with its failure, and the interruptor ends it as interrupted, or with its own failure;
   * as many good items as are needed end it well; and nothing else ends it.
   */
  lemma {:induction false} DecideMeans(needed: nat, run: seq<Event>, n: nat)
    requires 0 < needed <= MAX_SIZE && n <= |run| && Clean(run[..n])
    ensures n >= needed ==> Decide(needed, run) == Some(Success)
    ensures n < needed && n < |run| && run[n].Hooked? ==>
      Decide(needed, run) == Some(if run[n].result == Success then Interrupted else run[n].result)
    ensures n < needed && n < |run| && run[n].Item? && run[n].result != Success ==>
      Decide(needed, run) == Some(run[n].result)
    ensures n < needed && n == |run| ==> Decide(needed, run) == None
    decreases |run|
  {
    if n > 0 {
      assert run[..n][0] == run[0];
      assert run[..n][1..] == run[1..][..n - 1];
      CleanTail(run[..n]);
      if needed > 1 {
        DecideMeans(needed - 1, run[1..], n - 1);
      }
    }
  }

  lemma {:induction false} RunPrefix(st: State, run: seq<Event>, i: nat)
    requires CanRun(st, run) && i < |run|
    ensures CanRun(st, run[..i]) && CanStep(After(st, run[..i]), run[i])
    decreases i
  {
    hide Step, CanStep;
    if i > 0 {
      RunPrefix(Step(st, run[0]), run[1..], i - 1);
      assert run[..i][1..] == run[1..][..i - 1];
    }
  }

  /** Once the owner is suspended, no item tells its result to a waiter that is ready or needs nothing. */
  lemma ItemFindsNeeded(st: State, run: seq<Event>, i: nat)
    requires Suspended(st) && CanRun(st, run) && i < |run| && run[i].Item?
    ensures var found := After(st, run[..i]);
      found.needed > 0 && !found.ready
  {
    hide After, CanRun, Decide;
    RunPrefix(st, run, i);
    ResumedOnce(st, run[..i]);
  }

  /** A wait in which nothing is registered goes on until the interruptor ends it, and forever if there is none. */
  lemma NothingRegistered(st: State, run: seq<Event>)
    requires Suspended(st) && st.registered == {} && CanRun(st, run) && run != []
    ensures st.hooked && |run| == 1 && run[0].Hooked?
    ensures Over(After(st, run), Interruption(run[0].result))
  {
    SuspendedStep(st, run[0]);
    assert [run[0]][1..] == [];
  }

  /** As long as the wait goes on, enough items are registered to end it. */
  lemma {:induction false} EnoughRegistered(st: State, run: seq<Event>)
    requires Suspended(st) && st.needed <= |st.registered| && CanRun(st, run)
    requires Decide(st.needed, run).None?
    ensures var st2 := After(st, run);
      Suspended(st2) && st2.needed <= |st2.registered|
    decreases |run|
  {
    hide Step, Suspended, Decide;
    if run != [] {
      SuspendedStep(st, run[0]);
      DecideStep(st.needed, run);
      EnoughRegistered(Step(st, run[0]), run[1..]);
    }
  }

  // -------------------------------------------------------------------------
  // The start of a wait
  // -------------------------------------------------------------------------

  /** What `add_wait` of an object does: it calls back at once, or it puts the callback on its list. */
  datatype Arrival = Now(result: Result) | Later

  function Good(arrivals: seq<Arrival>): nat {
    if arrivals == [] then 0
    else Good(arrivals[..|arrivals| - 1]) + if arrivals[|arrivals| - 1] == Now(Success) then 1 else 0
  }

  /** The last failure of those that were told at once. */
  function Failed(arrivals: seq<Arrival>): Option<Result> {
    if arrivals == [] then None
    else
      var last := arrivals[|arrivals| - 1];
      if last.Now? && last.result != Success then Some(last.result) else Failed(arrivals[..|arrivals| - 1])
  }

  /** The callbacks that stay registered; callback `k` belongs to arrival `k`. */
  function Waiting(arrivals: seq<Arrival>): set<nat> {
    if arrivals == [] then {}
    else
      Waiting(arrivals[..|arrivals| - 1]) + if arrivals[|arrivals| - 1].Later? then {|arrivals| - 1} else {}
  }

  /** The objects alone end the wait at once. */
  predicate AtOnce(needed: nat, arrivals: seq<Arrival>) {
    Failed(arrivals).Some? || (needed > 0 && Good(arrivals) >= needed)
  }

  function ResultAtOnce(arrivals: seq<Arrival>): Result {
    if Failed(arrivals).Some? then Failed(arrivals).value else Success
  }

  function UpTo(n: nat): (s: seq<nat>)
    ensures |s| == n
    ensures forall i | 0 <= i < n :: s[i] == i
  {
    if n == 0 then [] else UpTo(n - 1) + [n - 1]
  }

  /** A failure that is told later replaces the one before. */
  lemma {:induction false} FailedMeans(arrivals: seq<Arrival>)
    ensures Failed(arrivals).None? <==>
            forall i | 0 <= i < |arrivals| :: arrivals[i].Later? || arrivals[i].result == Success
    ensures forall i | 0 <= i < |arrivals| && arrivals[i].Now? && arrivals[i].result != Success ::
      (forall j | i < j < |arrivals| :: arrivals[j].Later? || arrivals[j].result == Success) ==>
        Failed(arrivals) == Some(arrivals[i].result)
  {
    if arrivals != [] {
      var before := arrivals[..|arrivals| - 1];
      FailedMeans(before);
      assert forall i | 0 <= i < |before| :: before[i] == arrivals[i];
    }
  }

  lemma {:induction false} GoodMeans(arrivals: seq<Arrival>)
    ensures Good(arrivals) == |set i | 0 <= i < |arrivals| && arrivals[i] == Now(Success)|
  {
    if arrivals != [] {
      var n := |arrivals| - 1;
      var before := arrivals[..n];
      GoodMeans(before);
      var some := set i | 0 <= i < n && before[i] == Now(Success);
      var all := set i | 0 <= i < |arrivals| && arrivals[i] == Now(Success);
      assert all == some + if arrivals[n] == Now(Success) then {n} else {};
    }
  }

  lemma {:induction false} WaitingMeans(arrivals: seq<Arrival>)
    ensures forall k: nat :: k in Waiting(arrivals) <==> k < |arrivals| && arrivals[k].Later?
  {
    if arrivals != [] {
      var before := arrivals[..|arrivals| - 1];
      WaitingMeans(before);
      assert forall k | 0 <= k < |before| :: before[k] == arrivals[k];
    }
  }

  lemma {:induction false} WaitingCounts(arrivals: seq<Arrival>)
    ensures forall k | k in Waiting(arrivals) :: k < |arrivals|
    ensures Failed(arrivals).None? ==> |Waiting(arrivals)| + Good(arrivals) == |arrivals|
  {
    if arrivals != [] {
      WaitingCounts(arrivals[..|arrivals| - 1]);
    }
  }

  lemma BegunNothing(st: State)
    ensures Begun(st, []) == st
  {
  }

  lemma WaitingListed(arrivals: seq<Arrival>)
    ensures Waiting(arrivals) <= Elements(UpTo(|arrivals|))
  {
    WaitingCounts(arrivals);
    forall k | k in Waiting(arrivals)
      ensures k in UpTo(|arrivals|)
    {
      assert UpTo(|arrivals|)[k] == k;
    }
  }

  /** The loop of `begin_wait` calls. */
  function Begun(st: State, arrivals: seq<Arrival>): State {
    if arrivals == [] then st
    else
      var n := |arrivals| - 1;
      var st1 := Begun(st, arrivals[..n]);
      if arrivals[n].Later? then st1.(registered := st1.registered + {n}) else Finish(st1, arrivals[n].result)
  }

  lemma BegunStep(st: State, arrivals: seq<Arrival>, i: nat)
    requires i < |arrivals|
    ensures Begun(st, arrivals[..i + 1]) ==
      var st1 := Begun(st, arrivals[..i]);
      if arrivals[i].Later? then st1.(registered := st1.registered + {i}) else Finish(st1, arrivals[i].result)
  {
    assert arrivals[..i + 1][..i] == arrivals[..i];
  }

  /** At some point of the loop the needed items had succeeded and none had failed. */
  ghost predicate Succeeded(needed: nat, arrivals: seq<Arrival>) {
    exists j | 0 <= j <= |arrivals| :: SucceededAt(needed, arrivals, j)
  }

  predicate SucceededAt(needed: nat, arrivals: seq<Arrival>, j: nat)
    requires j <= |arrivals|
  {
    Failed(arrivals[..j]).None? && Good(arrivals[..j]) >= needed
  }

  lemma SucceededStep(needed: nat, arrivals: seq<Arrival>)
    requires arrivals != []
    ensures var before := arrivals[..|arrivals| - 1];
      Succeeded(needed, arrivals) <==>
      Succeeded(needed, before) || (Failed(arrivals).None? && Good(arrivals) >= needed)
  {
    hide Failed, Good;
    var before := arrivals[..|arrivals| - 1];
    forall j: nat | j <= |before| ensures SucceededAt(needed, before, j) == SucceededAt(needed, arrivals, j) {
      assert before[..j] == arrivals[..j];
    }
    assert arrivals[..|arrivals|] == arrivals;
    assert SucceededAt(needed, arrivals, |arrivals|) == (Failed(arrivals).None? && Good(arrivals) >= needed);
    if j: nat :| j <= |before| && SucceededAt(needed, before, j) {
      assert SucceededAt(needed, arrivals, j);
    }
  }

  lemma SucceededNow(needed: nat, arrivals: seq<Arrival>)
    ensures Failed(arrivals).None? && Good(arrivals) >= needed ==> Succeeded(needed, arrivals)
  {
    assert arrivals[..|arrivals|] == arrivals;
    assert SucceededAt(needed, arrivals, |arrivals|) == (Failed(arrivals).None? && Good(arrivals) >= needed);
  }

  predicate AtStart(st: State) {
    !st.ready && !st.waiting && st.registered == {} && st.resumed == []
  }

  /** What the loop leaves: the answers given at once decide by their successes and their last failure. */
  lemma {:induction false} BegunMeans(st: State, arrivals: seq<Arrival>)
    requires AtStart(st) && (arrivals != [] ==> st.needed > 0)
    ensures var st2 := Begun(st, arrivals);
      && st2.items == st.items && !st2.waiting && st2.resumed == [] && st2.hooked == st.hooked
      && st2.registered == Waiting(arrivals)
      && st2.ready == AtOnce(st.needed, arrivals)
      && (st2.ready ==> st2.result == ResultAtOnce(arrivals))
      && (!st2.ready ==> st2.needed == st.needed - Good(arrivals))
  {
    if arrivals != [] {
      BegunMeans(st, arrivals[..|arrivals| - 1]);
    }
  }

  /** The loop leaves nothing needed exactly if at some point the needed items had succeeded and none had failed. */
  lemma {:induction false} BegunNeeded(st: State, arrivals: seq<Arrival>)
    requires AtStart(st) && st.needed > 0
    ensures Begun(st, arrivals).needed == 0 <==> Succeeded(st.needed, arrivals)
  {
    hide Succeeded;
    if arrivals == [] {
      assert !Succeeded(st.needed, arrivals) by { NotYet(st.needed); }
    } else {
      var before := arrivals[..|arrivals| - 1];
      BegunNeeded(st, before);
      BegunMeans(st, before);
      SucceededStep(st.needed, arrivals);
      SucceededNow(st.needed, before);
    }
  }

  lemma NotYet(needed: nat)
    requires needed > 0
    ensures !Succeeded(needed, [])
  {
    var none: seq<Arrival> := [];
    assert none[..0] == none;
  }

  /**
   * `item_finished` asserts that something is still needed. While a wait begins, the call for arrival
   * `i` meets that assertion exactly if at no point before it the needed items had succeeded without a failure.
   */
  lemma CallFindsNeededIff(st: State, arrivals: seq<Arrival>, i: nat)
    requires AtStart(st) && st.needed > 0 && i < |arrivals| && arrivals[i].Now?
    ensures Begun(st, arrivals[..i]).needed > 0 <==>
      !exists j | 0 <= j <= i :: Failed(arrivals[..j]).None? && Good(arrivals[..j]) >= st.needed
  {
    hide Failed, Good, Begun;
    BegunNeeded(st, arrivals[..i]);
    forall j | 0 <= j <= i ensures arrivals[..i][..j] == arrivals[..j] {
    }
    if j :| 0 <= j <= i && Failed(arrivals[..j]).None? && Good(arrivals[..j]) >= st.needed {
      assert SucceededAt(st.needed, arrivals[..i], j);
    }
  }

  /** The assertion fails at once in a wait for any of two objects that both answer at once. */
  lemma SecondAnswerFindsNothingNeeded(items: seq<nat>)
    ensures var st := State(false, false, 1, Success, items, {}, false, []);
      var arrivals := [Now(Success), Now(Success)];
      AtStart(st) && Begun(st, arrivals[..1]).needed == 0 && arrivals[1].Now?
  {
    var arrivals := [Now(Success), Now(Success)];
    assert arrivals[..1] == [Now(Success)] && [Now(Success)][..0] == [];
    assert Begun(State(false, false, 1, Success, items, {}, false, []), []).needed == 1;
  }

  // -------------------------------------------------------------------------
  // A whole wait
  // -------------------------------------------------------------------------

  /** What the constructors of the waiter and of its callbacks leave. */
  function Created(all: bool, total: nat): State {
    State(false, false, if all then total else 1, Success, UpTo(total), {}, false, [])
  }

  /** `wait`, up to where it returns or the owner is suspended. */
  function Waited(st: State, interruptible: bool, arrivals: seq<Arrival>, hook: Arrival): State {
    var st1 := Begun(st, arrivals);
    var st2 :=
      if !interruptible then st1
      else if hook.Later? then st1.(hooked := true)
      else Hook(st1, hook.result);
    if st2.ready then Cancelled(st2) else st2.(waiting := true)
  }

  /** What `wait` returns at once, if anything does. */
  function Returned(needed: nat, interruptible: bool, arrivals: seq<Arrival>, hook: Arrival): Option<Result> {
    if AtOnce(needed, arrivals) then Some(ResultAtOnce(arrivals))
    else if interruptible && hook.Now? then Some(Interruption(hook.result))
    else None
  }

  lemma WaitedMeans(st: State, interruptible: bool, arrivals: seq<Arrival>, hook: Arrival)
    requires AtStart(st) && st.items == UpTo(|arrivals|) && !st.hooked
    requires st.needed == 1 || st.needed == |arrivals|
    ensures var st2 := Waited(st, interruptible, arrivals, hook);
      var returned := Returned(st.needed, interruptible, arrivals, hook);
      && st2.hooked == (interruptible && hook.Later?)
      && st2.ready == returned.Some?
      && (returned.Some? ==>
        !st2.waiting && st2.registered == {} && st2.items == [] && st2.resumed == [] && st2.result == returned.value)
      && (returned.None? ==>
        && Suspended(st2) && st2.registered == Waiting(arrivals)
        && st2.needed == st.needed - Good(arrivals)
        && (|arrivals| > 0 || st.needed == 0 ==> st2.needed <= |st2.registered|))
  {
    hide Waiting, Good, Failed, Begun;
    BegunMeans(st, arrivals);
    WaitingCounts(arrivals);
    WaitingListed(arrivals);
  }

  /**
   * A started wait over at least one object: either it returned at once and the owner is never resumed,
   * or the owner is resumed exactly once; and in either case no callback is left in a list.
   */
  lemma WaitEndsOnce(st: State, run: seq<Event>)
    requires CanRun(st, run)
    requires Suspended(st) || (st.ready && !st.waiting && st.items == [] && st.registered == {} && st.resumed == [])
    ensures var st2 := After(st, run);
      && |st2.resumed| <= 1
      && (st2.ready ==> st2.registered == {} && st2.items == [] && !st2.waiting)
      && (st.ready ==> st2.resumed == [] && st2.result == st.result)
      && (!st.ready ==> (st2.ready <==> Decide(st.needed, run).Some?) && (st2.ready <==> |st2.resumed| == 1))
  {
    hide Decide, Step;
    if Suspended(st) {
      ResumedOnce(st, run);
    } else {
      ReturnedStays(st, run);
    }
  }

  lemma {:induction false} ReturnedStays(st: State, run: seq<Event>)
    requires CanRun(st, run) && st.ready && !st.waiting && st.registered == {}
    ensures After(st, run) == st.(hooked := After(st, run).hooked)
    decreases |run|
  {
    if run != [] {
      ReturnedStays(Step(st, run[0]), run[1..]);
    }
  }

  lemma ElementsStep(items: seq<nat>)
    requires items != []
    ensures Elements(items) == {items[0]} + Elements(items[1..])
  {
    assert items == [items[0]] + items[1..];
  }

  class Waiter {
    var ready: bool
    var waiting: bool
    var needed: nat
    var result: Result
    var items: seq<nat>
    var registered: set<nat>
    var hooked: bool
    var resumed: seq<Result>
    const interruptible: bool

    constructor (all: bool, total: nat, interruptible: bool)
      ensures View() == State.State(false, false, if all then total else 1, Success, [], {}, false, [])
      ensures this.interruptible == interruptible
    {
      ready, waiting, needed, result := false, false, if all then total else 1, Success;
      items, registered, hooked, resumed := [], {}, false, [];
      this.interruptible := interruptible;
    }

    function View(): State
      reads this
    {
      State.State(ready, waiting, needed, result, items, registered, hooked, resumed)
    }

    /** `add_item`, for the next callback. */
    method AddItem()
      modifies this`items
      ensures items == old(items) + [|old(items)|]
      ensures forall n: nat | old(items) == UpTo(n) :: items == UpTo(n + 1)
    {
      items := items + [|items|];
    }

    /** `m_items.clear`, with `cancel_wait` on each callback. */
    method CancelAll()
      modifies this`items, this`registered
      ensures View() == Cancelled(old(View()))
      ensures items == [] && forall k :: k in registered <==> k in old(registered) && k !in old(items)
    {
      ghost var all, before := items, registered;
      ghost var done: set<nat> := {};
      while items != []
        invariant done + Elements(items) == Elements(all)
        invariant registered == before - done
        decreases |items|
      {
        var k := items[0];
        ElementsStep(items);
        items := items[1..];
        done := done + {k};
        if k in registered {
          registered := registered - {k};
        }
      }
    }

    /** `ready`. */
    method MakeReady(r: Result)
      requires !ready
      modifies this
      ensures View() == Readied(old(View()), r)
      ensures ready && result == r && resumed == old(resumed) + if old(waiting) then [r] else []
    {
      ready := true;
      result := r;
      if waiting {
        CancelAll();
        resumed := resumed + [r];
        waiting := false;
      }
    }

    /** `item_finished`; the count wraps around where nothing is needed any more. */
    method ItemFinished(r: Result)
      modifies this
      ensures View() == Finish(old(View()), r)
      ensures ready <==> old(ready) || r != Success || old(needed) == 1
      ensures needed ==
              if old(ready) || r != Success then old(needed) else if old(needed) == 0 then MAX_SIZE else old(needed) - 1
      ensures result == if r != Success then r else if !old(ready) && old(needed) == 1 then Success else old(result)
    {
      if !ready {
        if r != Success {
          MakeReady(r);
        } else {
          needed := OneLess(needed);
          if needed == 0 {
            MakeReady(Success);
          }
        }
      } else if r != Success {
        result := r;
      }
    }

    /** `wait_done`. */
    method WaitDone(r: Result)
      modifies this
      ensures View() == Hook(old(View()), r)
      ensures ready && result == if old(ready) then old(result) else if r == Success then Interrupted else r
    {
      if !ready {
        if r == Success {
          MakeReady(Interrupted);
        } else {
          MakeReady(r);
        }
      }
    }

    /** The first line of `wait`: `begin_wait` on each callback. */
    method BeginAll(arrivals: seq<Arrival>)
      requires items == UpTo(|arrivals|) && !waiting
      modifies this
      ensures View() == Begun(old(View()), arrivals)
      ensures old(AtStart(View())) && (|arrivals| > 0 ==> old(needed) > 0) ==>
        && items == old(items) && !waiting && resumed == [] && hooked == old(hooked)
        && registered == Waiting(arrivals)
        && ready == AtOnce(old(needed), arrivals)
        && (ready ==> result == ResultAtOnce(arrivals))
        && (!ready ==> needed == old(needed) - Good(arrivals))
    {
      hide AtOnce, Waiting, Good, Failed, ResultAtOnce, Begun;
      ghost var st := View();
      assert arrivals[..0] == [];
      BegunNothing(st);
      for i := 0 to |arrivals|
        invariant items == UpTo(|arrivals|) && !waiting
        invariant View() == Begun(st, arrivals[..i])
      {
        BegunStep(st, arrivals, i);
        if arrivals[i].Later? {
          registered := registered + {items[i]};
        } else {
          ItemFinished(arrivals[i].result);
        }
      }
      assert arrivals[..|arrivals|] == arrivals;
      if AtStart(st) && (|arrivals| > 0 ==> st.needed > 0) {
        BegunMeans(st, arrivals);
      }
    }

    /**
     * `wait`: `arrivals` is what the objects do, `hook` what the interruptor does. It returns at once
     * with a result, or it leaves the owner suspended.
     */
    method Wait(arrivals: seq<Arrival>, hook: Arrival) returns (returned: Option<Result>)
      requires AtStart(View()) && items == UpTo(|arrivals|) && !hooked
      requires needed == 1 || needed == |arrivals|
      modifies this
      ensures View() == Waited(old(View()), interruptible, arrivals, hook)
      ensures returned == Returned(old(needed), interruptible, arrivals, hook)
      ensures hooked == (interruptible && hook.Later?)
      ensures returned.Some? ==>
        ready && !waiting && registered == {} && items == [] && resumed == [] && result == returned.value
      ensures returned.None? ==>
        && Suspended(View()) && registered == Waiting(arrivals)
        && needed == old(needed) - Good(arrivals)
        && (|arrivals| > 0 || old(needed) == 0 ==> needed <= |registered|)
    {
      hide AtOnce, ResultAtOnce, Waiting, Good, Failed, Begun, Returned, Suspended;
      WaitedMeans(View(), interruptible, arrivals, hook);
      BeginAll(arrivals);
      if interruptible {
        if hook.Later? {
          hooked := true;
        } else {
          WaitDone(hook.result);
        }
      }
      if !ready {
        waiting := true;
        return None;
      } else {
        CancelAll();
        return Some(result);
      }
    }

    /** An object takes callback `k` off its list and tells it the result. */
    method Fire(k: nat, r: Result)
      requires CanStep(View(), Item(k, r))
      modifies this
      ensures View() == Step(old(View()), Item(k, r))
    {
      registered := registered - {k};
      ItemFinished(r);
    }

    /** The interruptor takes the waiter off its list and tells it the result. */
    method Interrupt(r: Result)
      requires CanStep(View(), Hooked(r))
      modifies this
      ensures View() == Step(old(View()), Hooked(r))
    {
      hooked := false;
      WaitDone(r);
    }

    /** What the objects and the interruptor do while the owner is suspended. */
    method Play(run: seq<Event>)
      requires CanRun(View(), run)
      modifies this
      ensures View() == After(old(View()), run)
    {
      hide Step, CanStep;
      ghost var st := View();
      var rest := run;
      while rest != []
        invariant CanRun(View(), rest)
        invariant After(View(), rest) == After(st, run)
        decreases |rest|
      {
        match rest[0] {
          case Item(k, r) => Fire(k, r);
          case Hooked(r) => Interrupt(r);
        }
        rest := rest[1..];
      }
    }

    /** The destructor asserts that the wait is over, and leaves the interruptor's list. */
    method Destroy()
      requires ready
      modifies this`hooked
      ensures View() == old(View()).(hooked := false)
    {
      if hooked {
        hooked := false;
      }
    }
  }

  /**
   * A whole wait for any or for all of the objects, in which `run` is what happens until the owner goes
   * on and destroys the waiter: it ends with what the objects or the interruptor decide, the owner is
   * resumed at most once, and no callback and no waiter is left in any list.
   */
  method WaitGeneric(all: bool, interruptible: bool, arrivals: seq<Arrival>, hook: Arrival, run: seq<Event>)
    returns (waiter: Waiter, r: Result)
    requires var st := Waited(Created(all, |arrivals|), interruptible, arrivals, hook);
      CanRun(st, run) && After(st, run).ready
    ensures var needed := if all then |arrivals| else 1;
      var returned := Returned(needed, interruptible, arrivals, hook);
      && Some(r) == (if returned.Some? then returned else Decide(needed - Good(arrivals), run))
      && waiter.resumed == (if returned.Some? then [] else [r])
    ensures Explained(if all then |arrivals| else 1, interruptible, arrivals, hook, run, r)
    ensures waiter.registered == {} && waiter.items == [] && !waiter.hooked && !waiter.waiting
    ensures fresh(waiter)
  {
    hide Decide, After, Step, CanRun, CanStep, Waited, Begun, Returned, Good, Waiting, Explained;
    waiter := new Waiter(all, |arrivals|, interruptible);
    for i := 0 to |arrivals|
      invariant waiter.View() == Created(all, i).(needed := waiter.needed)
      invariant waiter.needed == Created(all, |arrivals|).needed && waiter.interruptible == interruptible
    {
      waiter.AddItem();
    }
    ghost var needed := waiter.needed;
    var returned := waiter.Wait(arrivals, hook);
    ghost var st := waiter.View();
    waiter.Play(run);
    if returned.None? {
      ResumedOnce(st, run);
    } else {
      ReturnedStays(st, run);
    }
    r := waiter.result;
    waiter.Destroy();
    WholeMeans(needed, interruptible, arrivals, hook, run, r);
  }

  /**
   * The result of a whole wait: the last failure that is told at once, or success if enough is ready; or
   * else what the interruptor says, at once or before enough is ready, where a mere interruption is
   * reported as such.
   */
  ghost predicate Explained(
      needed: nat, interruptible: bool, arrivals: seq<Arrival>, hook: Arrival, run: seq<Event>, r: Result) {
    var undecided := Failed(arrivals).None? && (needed == 0 || Good(arrivals) < needed);
    && (Failed(arrivals).Some? ==> r == Failed(arrivals).value)
    && (Failed(arrivals).None? && !undecided ==> r == Success)
    && (undecided && interruptible && hook.Now? ==> r == if hook.result == Success then Interrupted else hook.result)
    && (undecided && !(interruptible && hook.Now?) && 0 < needed <= MAX_SIZE ==>
          forall n: nat | n < |run| && n < needed - Good(arrivals) && Clean(run[..n]) && run[n].Hooked? ::
            r == if run[n].result == Success then Interrupted else run[n].result)
  }

  lemma WholeMeans(needed: nat, interruptible: bool, arrivals: seq<Arrival>, hook: Arrival, run: seq<Event>, r: Result)
    requires needed == 1 || needed == |arrivals|
    requires var returned := Returned(needed, interruptible, arrivals, hook);
      returned.None? ==> Good(arrivals) <= needed
    requires var returned := Returned(needed, interruptible, arrivals, hook);
      Some(r) == if returned.Some? then returned else Decide(needed - Good(arrivals), run)
    ensures Explained(needed, interruptible, arrivals, hook, run, r)
  {
    hide Good, Failed, Decide, Clean;
    var undecided := Failed(arrivals).None? && (needed == 0 || Good(arrivals) < needed);
    if undecided && !(interruptible && hook.Now?) && 0 < needed <= MAX_SIZE {
      forall n: nat | n < |run| && n < needed - Good(arrivals) && Clean(run[..n]) && run[n].Hooked?
        ensures r == if run[n].result == Success then Interrupted else run[n].result
      {
        DecideMeans(needed - Good(arrivals), run, n);
      }
    }
  }
}

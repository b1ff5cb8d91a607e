/** `local_stream_t`: the queue of MpscQueue plus an eventfd.  A writer pushes its message and then
    adds one to the eventfd; the thread's main coroutine pops until it gets null, then sleeps
    until the eventfd is readable, clears it, and pops again. */
module LocalStream {
  import opened MpscQueue

  /** The main coroutine reads, sleeps in `wait`, or has been woken and not cleared the fd yet. */
  datatype Phase = Reading | Sleeping | Woken

  datatype Stream = Stream(queue: State, fd: nat, signalling: set<nat>, phase: Phase)

  datatype Action =
    | Write(step: Label)
    | Signal(writer: nat)
    | Read
    | Wake
    | ClearFd

  const START: Stream := Stream(INITIAL, 0, {}, Reading)

  predicate Can(s: Stream, a: Action) {
    match a
    case Write(l) =>
      !l.Consume? && Enabled(s.queue, l) && l.producer !in s.signalling
    case Signal(p) => p in s.signalling
    case Read => s.phase == Reading
    case Wake => s.phase == Sleeping && s.fd > 0
    case ClearFd => s.phase == Woken
  }

  function Do(s: Stream, a: Action): Stream
    requires Can(s, a)
  {
    match a
    case Write(l) =>
      s.(queue := Apply(s.queue, l),
         signalling := if l.Link? then s.signalling + {l.producer} else s.signalling)
    case Signal(p) => s.(fd := s.fd + 1, signalling := s.signalling - {p})
    case Read =>
      s.(queue := Apply(s.queue, Consume),
         phase := if ConsumerOutcome(s.queue) == Nothing then Sleeping else Reading)
    case Wake => s.(phase := Woken)
    case ClearFd => s.(fd := 0, phase := Reading)
  }

  /** Some writer is between its exchange and its eventfd write. */
  ghost predicate InFlight(s: Stream) {
    s.signalling != {} || exists p | p in s.queue.producers :: s.queue.producers[p].Linking?
  }

  /** A wakeup is due or will be: the fd is readable, or a writer has yet to make it so. */
  ghost predicate Alarmed(s: Stream) {
    s.fd > 0 || InFlight(s)
  }

  ghost predicate StreamInv(s: Stream) {
    && Inv(s.queue)
    && (s.phase != Reading ==> s.queue.consumer == Resting)
    && (s.phase == Woken ==> s.fd > 0)
    && (s.phase == Sleeping && Contents(s.queue) != [] ==> Alarmed(s))
    && (s.queue.consumer == CheckBack && s.queue.front != s.queue.back ==> Alarmed(s))
  }

  lemma LinkingIsInFlight(s: Stream, p: nat)
    requires p in s.queue.producers && s.queue.producers[p].Linking?
    ensures InFlight(s)
  {
  }

  /** An unlinked front has a writer in flight behind it. */
  lemma UnlinkedFrontAlarms(s: Stream)
    requires Inv(s.queue) && !s.queue.consumer.LinkSelf?
    requires Load(s.queue.next, s.queue.front) == NULL && s.queue.front != s.queue.back
    ensures InFlight(s)
  {
    FrontUnlinked(s.queue);
    LinkingIsInFlight(s, s.queue.owner[s.queue.front].id);
  }

  lemma WriteKeepsAlarm(s: Stream, l: Label)
    requires StreamInv(s) && Can(s, Write(l))
    ensures Alarmed(s) || l.Exchange? ==> Alarmed(Do(s, Write(l)))
    ensures !l.Exchange? ==> Contents(Do(s, Write(l)).queue) == Contents(s.queue)
    ensures !l.Exchange? ==> Do(s, Write(l)).queue.back == s.queue.back
    ensures Do(s, Write(l)).queue.front == s.queue.front
    ensures Do(s, Write(l)).queue.consumer == s.queue.consumer
  {
    hide Inv, Items;
    var t := Do(s, Write(l));
    if l.Exchange? {
      LinkingIsInFlight(t, l.producer);
    } else if InFlight(s) && s.signalling == {} {
      var p :| p in s.queue.producers && s.queue.producers[p].Linking?;
      if !(l.Link? && l.producer == p) {
        LinkingIsInFlight(t, p);
      }
    }
  }

  lemma WriteKeepsStream(s: Stream, l: Label)
    requires StreamInv(s) && Can(s, Write(l))
    ensures StreamInv(Do(s, Write(l)))
  {
    hide Inv, Contents;
    StepKeepsInv(s.queue, l);
    WriteKeepsAlarm(s, l);
  }

  lemma SignalKeepsStream(s: Stream, p: nat)
    requires StreamInv(s) && Can(s, Signal(p))
    ensures StreamInv(Do(s, Signal(p)))
  {
    hide Inv, Contents;
  }

  /** A `pop` that returns null leaves an empty queue or an alarm. */
  lemma NothingIsAlarmed(s: Stream)
    requires StreamInv(s) && ConsumerOutcome(s.queue) == Nothing
    ensures Contents(s.queue) == [] || Alarmed(s)
  {
    var q := s.queue;
    if !q.consumer.CheckBack? {
      if q.front == q.back {
        EmptyMeans(q);
      } else {
        UnlinkedFrontAlarms(s);
      }
    }
  }

  lemma ConsumeEffect(q: State, r: State)
    requires r == Apply(q, Consume)
    ensures r.producers == q.producers
    ensures ConsumerOutcome(q) == Nothing ==> r.chain == q.chain && r.consumer == Resting
  {
    hide Blocked;
    if ConsumerOutcome(q) != Nothing {
      hide *;
      ConsumeSparesProducers(q);
    }
  }

  lemma BeforeCheckBack(q: State, r: State)
    requires r == Apply(q, Consume) && r.consumer == CheckBack
    ensures q.consumer == ReadNext && Load(q.next, q.front) == NULL
    ensures r.front == q.front && r.back == q.back
  {
    hide Blocked;
  }

  lemma ReadKeepsAlarm(s: Stream)
    requires Can(s, Read) && Alarmed(s)
    ensures Alarmed(Do(s, Read))
  {
    var t := Do(s, Read);
    ConsumeEffect(s.queue, t.queue);
    hide Apply, ConsumerOutcome;
    if InFlight(s) && s.signalling == {} {
      var p :| p in s.queue.producers && s.queue.producers[p].Linking?;
      LinkingIsInFlight(t, p);
    }
  }

  lemma ReadKeepsStream(s: Stream)
    requires StreamInv(s) && Can(s, Read)
    ensures StreamInv(Do(s, Read))
  {
    hide Inv, Items, Alarmed;
    var q, t := s.queue, Do(s, Read);
    StepKeepsInv(q, Consume);
    ConsumeEffect(q, t.queue);
    if t.queue.consumer == CheckBack {
      BeforeCheckBack(q, t.queue);
    }
    if Alarmed(s) {
      ReadKeepsAlarm(s);
    }
    if ConsumerOutcome(q) == Nothing {
      NothingIsAlarmed(s);
    } else if t.queue.consumer == CheckBack && q.front != q.back {
      UnlinkedFrontAlarms(s);
      InFlightAlarms(s);
      ReadKeepsAlarm(s);
    }
  }

  lemma InFlightAlarms(s: Stream)
    requires InFlight(s)
    ensures Alarmed(s)
  {
  }

  lemma WakeKeepsStream(s: Stream, a: Action)
    requires StreamInv(s) && Can(s, a) && (a.Wake? || a.ClearFd?)
    ensures StreamInv(Do(s, a))
  {
    hide Inv, Items;
  }

  lemma DoKeepsStream(s: Stream, a: Action)
    requires StreamInv(s) && Can(s, a)
    ensures StreamInv(Do(s, a))
  {
    hide *;
    match a
    case Write(l) => WriteKeepsStream(s, l);
    case Signal(p) => SignalKeepsStream(s, p);
    case Read => ReadKeepsStream(s);
    case Wake => WakeKeepsStream(s, a);
    case ClearFd => WakeKeepsStream(s, a);
  }

  // ----- whole runs

  predicate Plays(s: Stream, actions: seq<Action>)
    decreases actions
  {
    actions == [] || (Can(s, actions[0]) && Plays(Do(s, actions[0]), actions[1..]))
  }

  function Ending(s: Stream, actions: seq<Action>): Stream
    requires Plays(s, actions)
    decreases actions
  {
    if actions == [] then s else Ending(Do(s, actions[0]), actions[1..])
  }

  lemma {:induction false} PlaysKeepsStream(s: Stream, actions: seq<Action>)
    requires StreamInv(s) && Plays(s, actions)
    ensures StreamInv(Ending(s, actions))
    decreases actions
  {
    if actions != [] {
      DoKeepsStream(s, actions[0]);
      PlaysKeepsStream(Do(s, actions[0]), actions[1..]);
    }
  }

  /** No wakeup is lost: in every reachable state, a consumer asleep over a non-empty queue has a
      readable eventfd or a writer that is about to make it readable; and clearing the eventfd
      after a wakeup always reads a positive value. */
  lemma NoLostWakeup(actions: seq<Action>)
    requires Plays(START, actions)
    ensures var s := Ending(START, actions);
      && (s.phase == Sleeping && Contents(s.queue) != [] ==> s.fd > 0 || InFlight(s))
      && (s.phase == Woken ==> s.fd > 0)
  {
    InitialInv();
    PlaysKeepsStream(START, actions);
  }

  /** Nobody stands between an exchange and its eventfd write: then no link is owed to the queue. */
  lemma QuietOwesNothing(s: Stream, node: Addr)
    requires Inv(s.queue) && !InFlight(s)
    ensures !Owed(s.queue, node)
  {
    if Owed(s.queue, node) {
      LinkingIsInFlight(s, s.queue.owner[node].id);
    }
  }

  /**
   * Once all writers are done, every message is read: a consumer asleep over a message can be woken,
   * then reads again, and what it reads between two calls is the first message.
   */
  lemma QuietReadFindsMessage(actions: seq<Action>)
    requires Plays(START, actions)
    ensures var s := Ending(START, actions);
      Contents(s.queue) != [] && !InFlight(s) ==>
        && (s.phase == Sleeping ==>
              Can(s, Wake) && Can(Do(s, Wake), ClearFd) && Do(Do(s, Wake), ClearFd) == s.(fd := 0, phase := Reading))
        && (s.phase == Woken ==> Can(s, ClearFd) && Do(s, ClearFd) == s.(fd := 0, phase := Reading))
        && (s.queue.consumer == Resting ==> Alone(s.queue, 12) == Node(Contents(s.queue)[0]))
  {
    hide Inv, Alone, Contents, Owed;
    InitialInv();
    PlaysKeepsStream(START, actions);
    var s := Ending(START, actions);
    if Contents(s.queue) != [] && !InFlight(s) && s.queue.consumer == Resting {
      QuietOwesNothing(s, s.queue.front);
      QuietOwesNothing(s, Contents(s.queue)[0]);
      AloneIsNothingIff(s.queue);
    }
  }

  /** The consumer sleeps exactly after a read that returned nothing. */
  lemma SleepsIff(s: Stream, a: Action)
    requires Can(s, a) && s.phase != Sleeping
    ensures Do(s, a).phase == Sleeping <==> a.Read? && ConsumerOutcome(s.queue) == Nothing
  {
    hide Apply, Enabled;
  }

  /** Once all writers are done, a sleeping consumer can be woken exactly if it must be, except
      for the spurious wakeups of messages already popped. */
  lemma QuietSleepIsEmpty(actions: seq<Action>)
    requires Plays(START, actions)
    ensures var s := Ending(START, actions);
      s.phase == Sleeping && !InFlight(s) && !Can(s, Wake) ==> Contents(s.queue) == []
  {
    NoLostWakeup(actions);
  }
}

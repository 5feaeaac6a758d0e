/** The calls that the producer and the consumer make on the ring, and what each of them returns. */
module SpscCalls {
  import opened Fifo
  import opened SpscQueue

  // ---- Calls and events ----

  predicate ByProducer<T>(e: Event<T>) { e.Pushed? || e.PushFull? }

  /** The elements of all calls of `push` in a schedule, in order. A thread calls only when its last call has
    returned. */
  function PushCalls<T>(n: nat, blank: T, schedule: seq<Step<T>>): seq<T>
    requires n > 0
  {
    if schedule == [] then []
    else
      var init, last := schedule[..|schedule| - 1], schedule[|schedule| - 1];
      PushCalls(n, blank, init)
      + if last.CallPush? && Exec(n, blank, init).producer.Resting? then [last.element] else []
  }

  /** How many times `pop` is called. */
  function PopCalls<T>(n: nat, blank: T, schedule: seq<Step<T>>): nat
    requires n > 0
  {
    if schedule == [] then 0
    else
      var init, last := schedule[..|schedule| - 1], schedule[|schedule| - 1];
      PopCalls(n, blank, init) + if last.CallPop? && Exec(n, blank, init).consumer.Waiting? then 1 else 0
  }

  /** The events of one of the two threads, in order. */
  function EventsOf<T>(log: seq<Event<T>>, producer: bool): seq<Event<T>> {
    if log == [] then []
    else
      var last := log[|log| - 1];
      EventsOf(log[..|log| - 1], producer) + if ByProducer(last) == producer then [last] else []
  }

  lemma EventsOneMore<T>(log: seq<Event<T>>, e: Event<T>, producer: bool)
    ensures EventsOf(log + [e], producer) == EventsOf(log, producer) + if ByProducer(e) == producer then [e] else []
  {
    assert (log + [e])[..|log|] == log;
  }

  function Element<T>(p: Producer<T>): T
    requires !p.Resting?
  {
    p.element
  }

  /** A step of one thread leaves the other alone. `push` goes on with its element until it logs that, or
    that the ring was full. */
  lemma ProducerStep<T>(s: State<T>, step: Step<T>)
    requires Shape(s)
    ensures var s', p := Next(s, step), s.producer;
      match step
      case CallPush(element) =>
        && s'.log == s.log
        && if p.Resting? then !s'.producer.Resting? && Element(s'.producer) == element else s'.producer == p
      case GoProducer =>
        if p.Resting? then s' == s
        else if s'.producer.Resting? then s'.log == s.log + [Pushed(Element(p))] || s'.log == s.log + [PushFull]
        else s'.log == s.log && Element(s'.producer) == Element(p)
      case _ => s'.producer == p
  {
  }

  lemma ConsumerStep<T>(s: State<T>, step: Step<T>)
    requires Shape(s)
    ensures var s', c := Next(s, step), s.consumer;
      match step
      case CallPop => s'.log == s.log && !s'.consumer.Waiting?
      case GoConsumer =>
        if c.Waiting? then s' == s
        else if s'.consumer.Waiting? then
          |s'.log| == |s.log| + 1 && s'.log[..|s.log|] == s.log && !ByProducer(s'.log[|s.log|])
        else s'.log == s.log
      case _ => s'.consumer == c
  {
  }

  lemma ExecLast<T>(n: nat, blank: T, schedule: seq<Step<T>>)
    requires n > 0
    ensures if schedule == [] then Exec(n, blank, schedule) == Init(n, blank)
      else Exec(n, blank, schedule) == Next(Exec(n, blank, schedule[..|schedule| - 1]), schedule[|schedule| - 1])
  {
  }

  lemma LogGrows<T>(s: State<T>, step: Step<T>)
    requires Shape(s)
    ensures var s' := Next(s, step);
      s'.log == s.log || (|s'.log| == |s.log| + 1 && s'.log == s.log + [s'.log[|s.log|]])
  {
  }

  /** In every interleaving: the i-th event of the producer says that the element of the i-th call of `push` was
    pushed, or that the ring was full; only the last call may have no event yet. */
  lemma {:induction false} PushesAnswered<T>(n: nat, blank: T, schedule: seq<Step<T>>)
    requires n > 0
    ensures var s := Exec(n, blank, schedule);
      var calls, events := PushCalls(n, blank, schedule), EventsOf(s.log, true);
      && |calls| == |events| + (if s.producer.Resting? then 0 else 1)
      && (!s.producer.Resting? ==> Element(s.producer) == calls[|events|])
      && (forall i :: 0 <= i < |events| ==> events[i] == Pushed(calls[i]) || events[i] == PushFull)
  {
    hide Exec, Next, Inv, Element;
    ExecLast(n, blank, schedule);
    if schedule != [] {
      var init, last := schedule[..|schedule| - 1], schedule[|schedule| - 1];
      PushesAnswered(n, blank, init);
      var s, s' := Exec(n, blank, init), Exec(n, blank, schedule);
      ExecSound(n, blank, init);
      ProducerStep(s, last);
      ConsumerStep(s, last);
      LogGrows(s, last);
      if s'.log != s.log {
        EventsOneMore(s.log, s'.log[|s.log|], true);
      }
    }
  }

  lemma ExecSound<T>(n: nat, blank: T, schedule: seq<Step<T>>)
    requires n > 0
    ensures Inv(Exec(n, blank, schedule)) && Shape(Exec(n, blank, schedule))
  {
  }

  /** And each call of `pop` has its one event, except that the last may have none yet. */
  lemma {:induction false} PopsAnswered<T>(n: nat, blank: T, schedule: seq<Step<T>>)
    requires n > 0
    ensures var s := Exec(n, blank, schedule);
      PopCalls(n, blank, schedule) == |EventsOf(s.log, false)| + (if s.consumer.Waiting? then 0 else 1)
  {
    hide Exec, Next, Inv, Element;
    ExecLast(n, blank, schedule);
    if schedule != [] {
      var init, last := schedule[..|schedule| - 1], schedule[|schedule| - 1];
      PopsAnswered(n, blank, init);
      var s, s' := Exec(n, blank, init), Exec(n, blank, schedule);
      ExecSound(n, blank, init);
      ProducerStep(s, last);
      ConsumerStep(s, last);
      LogGrows(s, last);
      if s'.log != s.log {
        EventsOneMore(s.log, s'.log[|s.log|], false);
      }
    }
  }

  /** The elements given to those calls of `push` that returned true. */
  function Accepted<T>(calls: seq<T>, events: seq<Event<T>>): seq<T>
    requires |events| <= |calls|
  {
    if events == [] then []
    else
      var k := |events| - 1;
      Accepted(calls[..k], events[..k]) + if events[k].Pushed? then [calls[k]] else []
  }

  /** Each event answers the call of the same number. */
  ghost predicate Answered<T>(calls: seq<T>, events: seq<Event<T>>) {
    && |events| <= |calls|
    && forall i :: 0 <= i < |events| ==> events[i] == Pushed(calls[i]) || events[i] == PushFull
  }

  lemma AnsweredInit<T>(calls: seq<T>, events: seq<Event<T>>, e: Event<T>)
    requires Answered(calls, events + [e])
    ensures |events| < |calls| && Answered(calls[..|events|], events)
    ensures e == Pushed(calls[|events|]) || e == PushFull
  {
    var all := events + [e];
    assert all[|events|] == e;
    forall i | 0 <= i < |events| ensures events[i] == Pushed(calls[i]) || events[i] == PushFull {
      assert all[i] == events[i];
    }
  }

  lemma AcceptedLast<T>(calls: seq<T>, events: seq<Event<T>>, e: Event<T>)
    requires |events| < |calls|
    ensures Accepted(calls, events + [e])
      == Accepted(calls[..|events|], events) + if e.Pushed? then [calls[|events|]] else []
  {
    assert (events + [e])[..|events|] == events;
  }

  lemma {:induction false} PushedAreAccepted<T>(log: seq<Event<T>>, calls: seq<T>)
    requires Answered(calls, EventsOf(log, true))
    ensures PushedValues(log) == Accepted(calls, EventsOf(log, true))
  {
    hide Answered, Accepted;
    if log == [] {
      NoneAccepted(calls);
    } else {
      var init, last := log[..|log| - 1], log[|log| - 1];
      if ByProducer(last) {
        assert EventsOf(log, true) == EventsOf(init, true) + [last];
        AnsweredInit(calls, EventsOf(init, true), last);
        AcceptedLast(calls, EventsOf(init, true), last);
        PushedAreAccepted(init, calls[..|EventsOf(init, true)|]);
      } else {
        assert EventsOf(log, true) == EventsOf(init, true);
        PushedAreAccepted(init, calls);
      }
    }
  }

  lemma NoneAccepted<T>(calls: seq<T>)
    ensures Accepted(calls, []) == []
  {
  }

  /** In every interleaving: the elements popped, followed by those in the ring, are the elements given to the
    calls of `push` that returned true, in the order of these calls. */
  lemma CallsInOrder<T>(n: nat, blank: T, schedule: seq<Step<T>>)
    requires n > 0
    ensures var s := Exec(n, blank, schedule);
      var calls, events := PushCalls(n, blank, schedule), EventsOf(s.log, true);
      && |events| <= |calls|
      && PoppedValues(s.log) + Queue(s) == Accepted(calls, events)
  {
    var s := Exec(n, blank, schedule);
    PushesAnswered(n, blank, schedule);
    Linearizable(n, blank, schedule);
    PushedAreAccepted(s.log, PushCalls(n, blank, schedule));
  }

  // ---- Every call returns ----

  /** Steps of its own that an operation still has to take, at most. */
  function PushLeft<T>(p: Producer<T>): nat {
    match p
    case Resting => 0
    case LoadTail(_) => 4
    case LoadHead(_, _, _) => 3
    case WriteCell(_, _, _) => 2
    case StoreTail(_, _, _) => 1
  }

  function PopLeft<T>(c: Consumer<T>): nat {
    match c
    case Waiting => 0
    case LoadHead' => 4
    case LoadTail'(_) => 3
    case ReadCell(_) => 2
    case StoreHead(_, _) => 1
  }

  /** Whatever the other thread does, each operation returns after at most four steps of its own. */
  lemma WaitFree<T>(s: State<T>, step: Step<T>)
    requires Shape(s)
    ensures var s' := Next(s, step);
      && PushLeft(s'.producer) <= 4 && PopLeft(s'.consumer) <= 4
      && (step == GoProducer && !s.producer.Resting? ==> PushLeft(s'.producer) < PushLeft(s.producer))
      && (step == GoConsumer && !s.consumer.Waiting? ==> PopLeft(s'.consumer) < PopLeft(s.consumer))
      && (step == GoConsumer || step == CallPop ==> s'.producer == s.producer)
      && (step == GoProducer || step.CallPush? ==> s'.consumer == s.consumer)
  {
  }
}

/** Histories of a bounded first-in first-out queue. */
module Fifo {

  /** Completed operations, in the order in which they took effect. */
  datatype Event<T> = Pushed(value: T) | PushFull | Popped(value: T) | PopEmpty

  datatype Outcome<T> = Legal(queue: seq<T>) | Illegal

  /** What a sequential queue makes of an operation. */
  function Serve<T(==)>(queue: seq<T>, capacity: nat, e: Event<T>): Outcome<T> {
    match e
    case Pushed(v) => if |queue| < capacity then Legal(queue + [v]) else Illegal
    case PushFull => if |queue| == capacity then Legal(queue) else Illegal
    case Popped(v) => if queue != [] && queue[0] == v then Legal(queue[1..]) else Illegal
    case PopEmpty => if queue == [] then Legal(queue) else Illegal
  }

  /** The queue after a history, if the history is legal. */
  function Replay<T(==)>(log: seq<Event<T>>, capacity: nat): Outcome<T> {
    if log == [] then Legal([])
    else
      match Replay(log[..|log| - 1], capacity)
      case Illegal => Illegal
      case Legal(queue) => Serve(queue, capacity, log[|log| - 1])
  }

  lemma ReplayOneMore<T>(log: seq<Event<T>>, capacity: nat, e: Event<T>)
    ensures Replay(log + [e], capacity) == match Replay(log, capacity)
      case Illegal => Illegal
      case Legal(queue) => Serve(queue, capacity, e)
  {
    assert (log + [e])[..|log|] == log;
  }

  function PushedValues<T>(log: seq<Event<T>>): seq<T> {
    if log == [] then []
    else PushedValues(log[..|log| - 1]) + match log[|log| - 1] case Pushed(v) => [v] case _ => []
  }

  function PoppedValues<T>(log: seq<Event<T>>): seq<T> {
    if log == [] then []
    else PoppedValues(log[..|log| - 1]) + match log[|log| - 1] case Popped(v) => [v] case _ => []
  }

  /** A legal history loses, repeats and reorders nothing. */
  lemma {:induction false} LegalIsFifo<T>(log: seq<Event<T>>, capacity: nat)
    requires Replay(log, capacity).Legal?
    ensures PoppedValues(log) + Replay(log, capacity).queue == PushedValues(log)
    ensures |Replay(log, capacity).queue| <= capacity
  {
    if log != [] {
      var init, last := log[..|log| - 1], log[|log| - 1];
      LegalIsFifo(init, capacity);
      var queue := Replay(init, capacity).queue;
      match last
      case Pushed(v) => assert PoppedValues(init) + (queue + [v]) == (PoppedValues(init) + queue) + [v];
      case Popped(v) => assert queue == [v] + queue[1..];
      case _ =>
    }
  }
}

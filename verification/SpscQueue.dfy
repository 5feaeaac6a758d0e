/** The ring for one producer and one consumer. Each load and store is one step, and the two threads
  interleave in any order, so each works with an index of the other that may be stale.
*/
module SpscQueue {
  import opened Fifo

  datatype Producer<T> =
    | Resting
    | LoadTail(element: T)
    | LoadHead(element: T, tail: nat, tailNext: nat)
    | WriteCell(element: T, tail: nat, tailNext: nat)
    | StoreTail(element: T, tail: nat, tailNext: nat)

  datatype Consumer<T> =
    | Waiting
    | LoadHead'
    | LoadTail'(head: nat)
    | ReadCell(head: nat)
    | StoreHead(head: nat, element: T)

  datatype State<T> = State(n: nat, nHead: nat, nTail: nat, cells: seq<T>,
    producer: Producer<T>, consumer: Consumer<T>, log: seq<Event<T>>)

  function Init<T>(n: nat, blank: T): State<T> {
    State(n, 0, 0, seq(n, _ => blank), Resting, Waiting, [])
  }

  function Succ(i: nat, n: nat): nat { if i + 1 == n then 0 else i + 1 }

  datatype Step<T> = CallPush(element: T) | CallPop | GoProducer | GoConsumer

  function Next<T>(s: State<T>, step: Step<T>): State<T>
    requires Shape(s)
  {
    match step
    case CallPush(element) => if s.producer == Resting then s.(producer := LoadTail(element)) else s
    case CallPop => if s.consumer == Waiting then s.(consumer := LoadHead') else s
    case GoProducer => (
      match s.producer
      case Resting => s
      case LoadTail(element) => s.(producer := LoadHead(element, s.nTail, Succ(s.nTail, s.n)))
      case LoadHead(element, tail, tailNext) =>
        if tailNext == s.nHead then s.(producer := Resting, log := s.log + [PushFull])
        else s.(producer := WriteCell(element, tail, tailNext))
      case WriteCell(element, tail, tailNext) =>
        s.(producer := StoreTail(element, tail, tailNext), cells := s.cells[tail := element])
      case StoreTail(element, tail, tailNext) =>
        s.(producer := Resting, nTail := tailNext, log := s.log + [Pushed(element)])
    )
    case GoConsumer =>
      match s.consumer
      case Waiting => s
      case LoadHead' => s.(consumer := LoadTail'(s.nHead))
      case LoadTail'(head) =>
        if head == s.nTail then s.(consumer := Waiting, log := s.log + [PopEmpty])
        else s.(consumer := ReadCell(head))
      case ReadCell(head) => s.(consumer := StoreHead(head, s.cells[head]))
      case StoreHead(head, element) =>
        s.(consumer := Waiting, nHead := Succ(head, s.n), log := s.log + [Popped(element)])
  }

  // ---- The queue in the ring ----

  function Length<T>(s: State<T>): nat
    requires s.nHead < s.n
  {
    if s.nHead <= s.nTail then s.nTail - s.nHead else s.nTail + s.n - s.nHead
  }

  function Cell<T>(s: State<T>, k: nat): nat
    requires s.nHead < s.n && k < s.n
  {
    if s.nHead + k < s.n then s.nHead + k else s.nHead + k - s.n
  }

  /** The elements from the head index round to the tail index. */
  function Queue<T>(s: State<T>): seq<T>
    requires s.nHead < s.n && s.nTail < s.n == |s.cells|
  {
    seq(Length(s), k requires 0 <= k < Length(s) => s.cells[Cell(s, k)])
  }

  ghost predicate Shape<T>(s: State<T>) {
    && s.nHead < s.n && s.nTail < s.n == |s.cells|
    && (match s.producer
        case Resting => true
        case LoadTail(_) => true
        case LoadHead(_, tail, tailNext) => tail == s.nTail && tailNext == Succ(tail, s.n)
        case WriteCell(_, tail, tailNext) => tail == s.nTail && tailNext == Succ(tail, s.n)
        case StoreTail(_, tail, tailNext) => tail == s.nTail && tailNext == Succ(tail, s.n))
    && (match s.consumer
        case Waiting => true
        case LoadHead' => true
        case LoadTail'(head) => head == s.nHead
        case ReadCell(head) => head == s.nHead
        case StoreHead(head, _) => head == s.nHead)
  }

  // ---- Invariant ----

  /** What holds in every interleaving: each thread's stale view errs on the safe side. */
  ghost predicate Inv<T>(s: State<T>) {
    && Shape(s)
    && Length(s) <= s.n - 1
    && (s.producer.WriteCell? || s.producer.StoreTail? ==> Length(s) < s.n - 1)
    && (s.producer.StoreTail? ==> s.cells[s.nTail] == s.producer.element)
    && (s.consumer.ReadCell? ==> Length(s) > 0)
    && (s.consumer.StoreHead? ==> Length(s) > 0 && s.cells[s.nHead] == s.consumer.element)
    && Replay(s.log, s.n - 1) == Legal(Queue(s))
  }

  /** Publishing the tail index appends the element written before it. */
  lemma StoreTailAppends<T>(s: State<T>)
    requires Inv(s) && s.producer.StoreTail?
    ensures Queue(Next(s, GoProducer)) == Queue(s) + [s.producer.element]
  {
    var s' := Next(s, GoProducer);
    assert Length(s') == Length(s) + 1;
    assert Cell(s', Length(s)) == s.nTail;
  }

  /** Publishing the head index removes the oldest element, the one that was read. */
  lemma StoreHeadRemoves<T>(s: State<T>)
    requires Inv(s) && s.consumer.StoreHead?
    ensures Queue(s)[0] == s.consumer.element && Queue(Next(s, GoConsumer)) == Queue(s)[1..]
  {
    var s' := Next(s, GoConsumer);
    assert Length(s') == Length(s) - 1;
    assert forall k :: 0 <= k < Length(s') ==> Cell(s', k) == Cell(s, k + 1);
  }

  /** The cell being written is outside the queue. */
  lemma WriteCellIsOutside<T>(s: State<T>)
    requires Inv(s) && s.producer.WriteCell?
    ensures Queue(Next(s, GoProducer)) == Queue(s)
    ensures s.nHead != s.nTail || Length(s) == 0
  {
    assert forall k :: 0 <= k < Length(s) ==> Cell(s, k) != s.nTail;
  }

  /** The log grows by at most one event, which the queue can serve. */
  lemma ReplayStep<T>(s: State<T>, s': State<T>)
    requires Inv(s) && Shape(s') && s'.n == s.n
    requires s'.log == s.log ==> Queue(s') == Queue(s)
    requires s'.log != s.log ==>
      (&& |s'.log| == |s.log| + 1 && s'.log == s.log + [s'.log[|s.log|]]
       && Serve(Queue(s), s.n - 1, s'.log[|s.log|]) == Legal(Queue(s')))
    ensures Replay(s'.log, s'.n - 1) == Legal(Queue(s'))
  {
    if s'.log != s.log {
      ReplayOneMore(s.log, s.n - 1, s'.log[|s.log|]);
    }
  }

  lemma ProducerKeepsInv<T>(s: State<T>)
    requires Inv(s)
    ensures Inv(Next(s, GoProducer))
  {
    hide Replay, Queue;
    var s' := Next(s, GoProducer);
    match s.producer
    case WriteCell(_, _, _) => WriteCellIsOutside(s); ReplayStep(s, s');
    case StoreTail(_, _, _) => QueueLength(s); StoreTailAppends(s); ReplayStep(s, s');
    case _ => QueueLength(s); SameQueue(s, s'); ReplayStep(s, s');
  }

  lemma ConsumerKeepsInv<T>(s: State<T>)
    requires Inv(s)
    ensures Inv(Next(s, GoConsumer))
  {
    hide Replay, Queue;
    var s' := Next(s, GoConsumer);
    QueueLength(s);
    if s.consumer.StoreHead? {
      StoreHeadRemoves(s);
    } else {
      SameQueue(s, s');
    }
    ReplayStep(s, s');
  }

  lemma QueueLength<T>(s: State<T>)
    requires Shape(s)
    ensures |Queue(s)| == Length(s)
  {
  }

  lemma SameQueue<T>(s: State<T>, s': State<T>)
    requires Shape(s) && Shape(s') && s'.n == s.n && s'.cells == s.cells && s'.nHead == s.nHead && s'.nTail == s.nTail
    ensures Queue(s') == Queue(s)
  {
  }

  lemma NextKeepsInv<T>(s: State<T>, step: Step<T>)
    requires Inv(s)
    ensures Inv(Next(s, step))
  {
    match step
    case GoProducer => ProducerKeepsInv(s);
    case GoConsumer => ConsumerKeepsInv(s);
    case _ => SameQueue(s, Next(s, step));
  }

  function Exec<T>(n: nat, blank: T, schedule: seq<Step<T>>): (s: State<T>)
    requires n > 0
    ensures Inv(s) && s.n == n
  {
    if schedule == [] then Init(n, blank)
    else
      var before := Exec(n, blank, schedule[..|schedule| - 1]);
      NextKeepsInv(before, schedule[|schedule| - 1]);
      Next(before, schedule[|schedule| - 1])
  }

  /** Linearizability, failed operations included, in every interleaving: with successes ordered at
    their index stores, failed pushes at their loads of the head and failed pops at their loads of
    the tail, the run is a legal history of a first-in first-out queue of capacity n - 1. No element
    is lost, repeated or reordered. */
  lemma Linearizable<T>(n: nat, blank: T, schedule: seq<Step<T>>)
    requires n > 0
    ensures var s := Exec(n, blank, schedule);
      && Replay(s.log, n - 1) == Legal(Queue(s))
      && |Queue(s)| <= n - 1
      && PoppedValues(s.log) + Queue(s) == PushedValues(s.log)
  {
    LegalIsFifo(Exec(n, blank, schedule).log, n - 1);
  }
}

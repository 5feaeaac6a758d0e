/** The bounded queue for many producers and many consumers: a ticket is taken by compare-and-swap, and
  each slot counts its finished pushes and pops.

  Every load, store and compare-and-swap is one step; threads interleave in any order.
*/
module MpmcQueue {
  import Fifo
  import opened Quotients
  import opened Seqs

  // ---- Tickets ----

  /** The slot of a ticket. */
  function Idx(ticket: nat, n: nat): (i: nat)
    requires n > 0
    ensures i < n
  {
    ticket % n
  }

  /** The lap of a ticket around the slots. */
  function Lap(ticket: nat, n: nat): nat
    requires n > 0
  {
    ticket / n
  }

  /** Tickets of one slot are ordered as their laps are, and lie whole laps apart. */
  lemma SameSlot(t: nat, u: nat, n: nat)
    requires n > 0 && Idx(t, n) == Idx(u, n)
    ensures t < u <==> Lap(t, n) < Lap(u, n)
    ensures t == u <==> Lap(t, n) == Lap(u, n)
    ensures t < u ==> t + n <= u
  {
    assert t == n * Lap(t, n) + Idx(t, n) && u == n * Lap(u, n) + Idx(u, n);
    var lt: int, lu: int := Lap(t, n), Lap(u, n);
    var d := lu - lt;
    assert n * lu - n * lt == n * d;
    assert d >= 1 ==> n * d >= n;
    assert d <= -1 ==> n * d + n <= 0;
  }

  /** One lap earlier. */
  lemma LapBefore(t: nat, n: nat)
    requires n > 0 && t >= n
    ensures Idx(t - n, n) == Idx(t, n) && Lap(t - n, n) + 1 == Lap(t, n)
  {
    assert t == n * Lap(t, n) + Idx(t, n);
    assert t - n == n * (Lap(t, n) - 1) + Idx(t, n);
    Division(t - n, n, Lap(t, n) - 1, Idx(t, n));
  }

  /** Tickets of the first lap. */
  lemma FirstLap(t: nat, n: nat)
    requires n > 0 && (t < n || Lap(t, n) == 0)
    ensures t < n && Lap(t, n) == 0 && Idx(t, n) == t
  {
    assert t == n * Lap(t, n) + Idx(t, n);
    if t < n {
      Division(t, n, 0, t);
    }
  }

  // ---- States ----

  type Tid = nat

  datatype Slot<T> = Slot(pushFinishedCount: nat, popFinishedCount: nat, val: T)

  /** Where a thread is, and what it holds in its local variables. */
  datatype Pc<T> =
    | Idle
    | PushLoadTail(element: T)
    | PushLoadPushCount(element: T, tail: nat)
    | PushLoadPopCount(element: T, tail: nat, pushCount: nat)
    | PushCas(element: T, tail: nat, pushCount: nat)
    | PushWrite(element: T, tail: nat, pushCount: nat)
    | PushStore(element: T, tail: nat, pushCount: nat)
    | PopLoadHead
    | PopLoadPushCount(head: nat)
    | PopLoadPopCount(head: nat, pushCount: nat)
    | PopCas(head: nat, popCount: nat)
    | PopRead(head: nat, popCount: nat)
    | PopStore(head: nat, popCount: nat, element: T)

  /** A successful operation, with its ticket. */
  datatype Event<T> = Push(tid: Tid, ticket: nat, value: T) | Pop(tid: Tid, ticket: nat, value: T)

  /** An operation that returned false, and how many elements the queue held at that moment. */
  datatype Failure = PushFailed(tid: Tid, length: nat) | PopFailed(tid: Tid, length: nat)

  /** `pushed` holds the elements by ticket; `lin` the operations in the order of their
    compare-and-swaps, `results` in the order of their returns. */
  datatype State<T> = State(
    n: nat, nHead: nat, nTail: nat, slots: seq<Slot<T>>, pcs: map<Tid, Pc<T>>,
    pushed: seq<T>, lin: seq<Event<T>>, results: seq<Event<T>>, failures: seq<Failure>)
  {
    function PcOf(tid: Tid): Pc<T> { if tid in pcs then pcs[tid] else Idle }

    function At(tid: Tid, pc: Pc<T>): State<T> { this.(pcs := pcs[tid := pc]) }

    /** How many elements the queue holds. */
    function Length(): nat { if nHead <= nTail then nTail - nHead else 0 }

    /** The abstract queue: pushed and not yet popped. */
    function Queue(): seq<T>
      requires nHead <= nTail <= |pushed|
    {
      pushed[nHead..nTail]
    }
  }

  function Init<T>(n: nat, blank: T): State<T> {
    State(n, 0, 0, seq(n, _ => Slot(0, 0, blank)), map[], [], [], [], [])
  }

  // ---- Steps ----

  /** A thread calls an operation, or takes its next step; a weak compare-and-swap may fail spuriously. */
  datatype Step<T> = CallPush(tid: Tid, element: T) | CallPop(tid: Tid) | Go(tid: Tid, spurious: bool)

  function Next<T>(s: State<T>, step: Step<T>): State<T>
    requires |s.slots| == s.n > 0 && |s.pushed| >= s.nTail
  {
    match step
    case CallPush(tid, element) => if s.PcOf(tid) == Idle then s.At(tid, PushLoadTail(element)) else s
    case CallPop(tid) => if s.PcOf(tid) == Idle then s.At(tid, PopLoadHead) else s
    case Go(tid, spurious) =>
      match s.PcOf(tid)
      case Idle => s
      case PushLoadTail(element) => s.At(tid, PushLoadPushCount(element, s.nTail))
      case PushLoadPushCount(element, tail) =>
        s.At(tid, PushLoadPopCount(element, tail, s.slots[Idx(tail, s.n)].pushFinishedCount))
      case PushLoadPopCount(element, tail, pushCount) =>
        if pushCount > s.slots[Idx(tail, s.n)].popFinishedCount then
          s.At(tid, Idle).(failures := s.failures + [PushFailed(tid, s.Length())])
        else if Lap(tail, s.n) == pushCount then s.At(tid, PushCas(element, tail, pushCount))
        else s.At(tid, PushLoadTail(element))
      case PushCas(element, tail, pushCount) =>
        if s.nTail == tail && !spurious then
          s.At(tid, PushWrite(element, tail, pushCount)).(
            nTail := tail + 1, pushed := s.pushed + [element], lin := s.lin + [Push(tid, tail, element)])
        else s.At(tid, PushLoadPushCount(element, s.nTail))
      case PushWrite(element, tail, pushCount) =>
        var i := Idx(tail, s.n);
        s.At(tid, PushStore(element, tail, pushCount)).(slots := s.slots[i := s.slots[i].(val := element)])
      case PushStore(element, tail, pushCount) =>
        var i := Idx(tail, s.n);
        s.At(tid, Idle).(
          slots := s.slots[i := s.slots[i].(pushFinishedCount := pushCount + 1)],
          results := s.results + [Push(tid, tail, element)])
      case PopLoadHead => s.At(tid, PopLoadPushCount(s.nHead))
      case PopLoadPushCount(head) =>
        s.At(tid, PopLoadPopCount(head, s.slots[Idx(head, s.n)].pushFinishedCount))
      case PopLoadPopCount(head, pushCount) =>
        var popCount := s.slots[Idx(head, s.n)].popFinishedCount;
        if popCount == pushCount then
          s.At(tid, Idle).(failures := s.failures + [PopFailed(tid, s.Length())])
        else if Lap(head, s.n) == popCount then s.At(tid, PopCas(head, popCount))
        else s.At(tid, PopLoadHead)
      case PopCas(head, popCount) =>
        if s.nHead == head && !spurious then
          s.At(tid, PopRead(head, popCount)).(
            nHead := head + 1,
            lin := s.lin + if head < |s.pushed| then [Pop(tid, head, s.pushed[head])] else [])
        else s.At(tid, PopLoadPushCount(s.nHead))
      case PopRead(head, popCount) =>
        s.At(tid, PopStore(head, popCount, s.slots[Idx(head, s.n)].val))
      case PopStore(head, popCount, element) =>
        var i := Idx(head, s.n);
        s.At(tid, Idle).(
          slots := s.slots[i := s.slots[i].(popFinishedCount := popCount + 1)],
          results := s.results + [Pop(tid, head, element)])
  }

  // ---- Invariant ----

  /** What the counters of its slot say about a ticket. */
  ghost predicate TicketOk<T>(s: State<T>, t: nat)
    requires |s.slots| == s.n > 0 && |s.pushed| == s.nTail
  {
    var slot, lap := s.slots[Idx(t, s.n)], Lap(t, s.n);
    && slot.popFinishedCount <= slot.pushFinishedCount <= slot.popFinishedCount + 1
    && (if t < s.nTail then slot.popFinishedCount >= lap else slot.pushFinishedCount <= lap)
    && (if t < s.nHead then slot.pushFinishedCount >= lap + 1 else slot.popFinishedCount <= lap)
    && (t < s.nTail && slot.pushFinishedCount == lap + 1 && slot.popFinishedCount == lap ==> slot.val == s.pushed[t])
  }

  /** What a thread knows, however stale. */
  ghost predicate ThreadOk<T>(s: State<T>, tid: Tid)
    requires |s.slots| == s.n > 0 && |s.pushed| == s.nTail
  {
    match s.PcOf(tid)
    case PushLoadPushCount(_, tail) => tail <= s.nTail
    case PushLoadPopCount(_, tail, pushCount) =>
      tail <= s.nTail && pushCount <= s.slots[Idx(tail, s.n)].pushFinishedCount
    case PushCas(_, tail, pushCount) =>
      tail <= s.nTail && pushCount == Lap(tail, s.n) <= s.slots[Idx(tail, s.n)].popFinishedCount
    case PushWrite(element, tail, pushCount) =>
      tail < s.nTail && pushCount == Lap(tail, s.n) == s.slots[Idx(tail, s.n)].pushFinishedCount
        && element == s.pushed[tail]
    case PushStore(element, tail, pushCount) =>
      tail < s.nTail && pushCount == Lap(tail, s.n) == s.slots[Idx(tail, s.n)].pushFinishedCount
      && element == s.pushed[tail] == s.slots[Idx(tail, s.n)].val
    case PopLoadPushCount(head) => head <= s.nHead
    case PopLoadPopCount(head, pushCount) =>
      head <= s.nHead && Lap(head, s.n) <= pushCount <= s.slots[Idx(head, s.n)].pushFinishedCount
    case PopCas(head, popCount) =>
      head <= s.nHead && popCount == Lap(head, s.n) < s.slots[Idx(head, s.n)].pushFinishedCount
    case PopRead(head, popCount) =>
      head < s.nHead && popCount == Lap(head, s.n) == s.slots[Idx(head, s.n)].popFinishedCount
    case PopStore(head, popCount, element) =>
      head < s.nHead <= s.nTail && popCount == Lap(head, s.n) == s.slots[Idx(head, s.n)].popFinishedCount
      && element == s.pushed[head]
    case _ => true
  }

  /** Between its compare-and-swap and its counter store a thread is working on a slot. */
  predicate Pushing<T>(pc: Pc<T>) { pc.PushWrite? || pc.PushStore? }
  predicate Popping<T>(pc: Pc<T>) { pc.PopRead? || pc.PopStore? }

  ghost predicate Distinct<T>(s: State<T>, a: Tid, b: Tid) {
    var p, q := s.PcOf(a), s.PcOf(b);
    && (Pushing(p) && Pushing(q) ==> p.tail != q.tail)
    && (Popping(p) && Popping(q) ==> p.head != q.head)
  }

  /** What `tid` has linearized and not yet returned. */
  function Pending<T>(s: State<T>, tid: Tid): seq<Event<T>>
    requires |s.pushed| == s.nTail
  {
    match s.PcOf(tid)
    case PushWrite(element, tail, _) => [Push(tid, tail, element)]
    case PushStore(element, tail, _) => [Push(tid, tail, element)]
    case PopRead(head, _) => if head < s.nTail then [Pop(tid, head, s.pushed[head])] else []
    case PopStore(head, _, element) => [Pop(tid, head, element)]
    case _ => []
  }

  /** The events of one thread, in order. */
  function Of<T>(log: seq<Event<T>>, tid: Tid): seq<Event<T>> {
    if log == [] then []
    else
      var last := log[|log| - 1];
      Of(log[..|log| - 1], tid) + if last.tid == tid then [last] else []
  }

  /** What the linearized operations mean for a queue. */
  function Effects<T>(log: seq<Event<T>>): seq<Fifo.Event<T>> {
    seq(|log|, i requires 0 <= i < |log| =>
      if log[i].Push? then Fifo.Pushed(log[i].value) else Fifo.Popped(log[i].value))
  }

  ghost predicate Shape<T>(s: State<T>) {
    |s.slots| == s.n > 0 && |s.pushed| == s.nTail && s.nHead <= s.nTail <= s.nHead + s.n
  }

  ghost predicate TicketsOk<T>(s: State<T>)
    requires Shape(s)
  {
    forall t: nat {:trigger TicketOk(s, t)} :: TicketOk(s, t)
  }

  ghost predicate ThreadsOk<T>(s: State<T>)
    requires Shape(s)
  {
    forall tid {:trigger ThreadOk(s, tid)} :: ThreadOk(s, tid)
  }

  ghost predicate AllDistinct<T>(s: State<T>) {
    forall a, b {:trigger Distinct(s, a, b)} :: a != b ==> Distinct(s, a, b)
  }

  /** The compare-and-swaps form a first-in first-out history, and every thread returns what it linearized. */
  ghost predicate LogOk<T>(s: State<T>)
    requires Shape(s)
  {
    && Fifo.Replay(Effects(s.lin), s.n) == Fifo.Legal(s.Queue())
    && (forall tid {:trigger Pending(s, tid)} :: Of(s.lin, tid) == Of(s.results, tid) + Pending(s, tid))
  }

  ghost predicate Inv<T>(s: State<T>) {
    Shape(s) && TicketsOk(s) && ThreadsOk(s) && AllDistinct(s) && LogOk(s)
  }

  // ---- Logs ----

  lemma OfAppend<T>(log: seq<Event<T>>, more: seq<Event<T>>, tid: Tid)
    requires |more| <= 1
    ensures Of(log + more, tid) == Of(log, tid) + if more != [] && more[0].tid == tid then more else []
  {
    if more == [] {
      assert log + more == log;
    } else {
      assert (log + more)[..|log|] == log;
    }
  }

  lemma ReplayOneMore<T>(log: seq<Event<T>>, capacity: nat, queue: seq<T>, e: Event<T>)
    requires Fifo.Replay(Effects(log), capacity) == Fifo.Legal(queue)
    requires if e.Push? then |queue| < capacity else queue != [] && queue[0] == e.value
    ensures Fifo.Replay(Effects(log + [e]), capacity) == Fifo.Legal(if e.Push? then queue + [e.value] else queue[1..])
  {
    var effect := if e.Push? then Fifo.Pushed(e.value) else Fifo.Popped(e.value);
    assert Effects(log + [e]) == Effects(log) + [effect];
    Fifo.ReplayOneMore(Effects(log), capacity, effect);
  }

  /** Logging what a thread linearizes, or returns, keeps its two logs in step. */
  lemma LogStep<T>(s: State<T>, s': State<T>, tid: Tid, newLin: seq<Event<T>>, newResults: seq<Event<T>>)
    requires Shape(s) && LogOk(s) && Shape(s')
    requires s'.lin == s.lin + newLin && s'.results == s.results + newResults
    requires |newLin| <= 1 && (newLin != [] ==> newLin[0].tid == tid)
    requires |newResults| <= 1 && (newResults != [] ==> newResults[0].tid == tid)
    requires Pending(s, tid) + newLin == newResults + Pending(s', tid)
    requires forall other :: other != tid ==> Pending(s', other) == Pending(s, other)
    requires Fifo.Replay(Effects(s'.lin), s'.n) == Fifo.Legal(s'.Queue())
    ensures LogOk(s')
  {
    hide Of, Pending, Fifo.Replay, Effects;
    forall other ensures Of(s'.lin, other) == Of(s'.results, other) + Pending(s', other) {
      OfAppend(s.lin, newLin, other);
      OfAppend(s.results, newResults, other);
      assert Of(s.lin, other) == Of(s.results, other) + Pending(s, other);
      if other == tid {
        Reassociate(Of(s.results, tid), Pending(s, tid), newLin);
        Reassociate(Of(s.results, tid), newResults, Pending(s', tid));
      }
    }
  }

  /** A step that linearizes nothing. */
  lemma LogReturns<T>(s: State<T>, s': State<T>, tid: Tid, newResults: seq<Event<T>>)
    requires Shape(s) && LogOk(s) && Shape(s')
    requires s'.n == s.n && s'.lin == s.lin && s'.nHead == s.nHead && s'.nTail == s.nTail && s'.pushed == s.pushed
    requires s'.results == s.results + newResults && |newResults| <= 1
      && (newResults != [] ==> newResults[0].tid == tid)
    requires Pending(s, tid) == newResults + Pending(s', tid)
    requires forall other :: other != tid ==> Pending(s', other) == Pending(s, other)
    ensures LogOk(s')
  {
    LogStep(s, s', tid, [], newResults);
  }

  // ---- Every step keeps the invariant ----

  /** A step that touches nothing but one thread's own place. */
  lemma MoveKeepsInv<T>(s: State<T>, s': State<T>, tid: Tid, pc: Pc<T>)
    requires Inv(s) && s' == s.At(tid, pc).(failures := s'.failures)
    requires Pushing(pc) ==> Pushing(s.PcOf(tid)) && pc.tail == s.PcOf(tid).tail
    requires Popping(pc) ==> Popping(s.PcOf(tid)) && pc.head == s.PcOf(tid).head
    requires ThreadOk(s', tid) && Pending(s', tid) == Pending(s, tid)
    ensures Inv(s')
  {
    hide LogOk;
    forall t: nat ensures TicketOk(s', t) { assert TicketOk(s, t); }
    ThreadsFrame(s, s', tid);
    forall a, b | a != b ensures Distinct(s', a, b) { assert Distinct(s, a, b); }
    LogReturns(s, s', tid, []);
  }

  lemma ThreadsFrame<T>(s: State<T>, s': State<T>, tid: Tid)
    requires Shape(s) && Shape(s') && ThreadsOk(s) && ThreadOk(s', tid)
    requires s'.slots == s.slots && s'.n == s.n && s.nTail <= s'.nTail && s.nHead <= s'.nHead && s.pushed <= s'.pushed
    requires forall other :: other != tid ==> s'.PcOf(other) == s.PcOf(other)
    ensures ThreadsOk(s')
  {
    forall other ensures ThreadOk(s', other) { assert ThreadOk(s, other); }
  }

  /** The compare-and-swap of a push takes the next ticket, whose slot is free. */
  lemma PushCasKeepsInv<T>(s: State<T>, s': State<T>, tid: Tid)
    requires Inv(s) && s.PcOf(tid).PushCas?
    requires var PushCas(element, tail, pushCount) := s.PcOf(tid);
      && tail == s.nTail
      && s' == s.At(tid, PushWrite(element, tail, pushCount)).(
           nTail := tail + 1, pushed := s.pushed + [element], lin := s.lin + [Push(tid, tail, element)])
    ensures Inv(s')
  {
    hide LogOk;
    var PushCas(element, tail, pushCount) := s.PcOf(tid);
    assert ThreadOk(s, tid) && TicketOk(s, tail);
    SlotIsFree(s, tail);
    forall t: nat ensures TicketOk(s', t) { assert TicketOk(s, t); }
    ThreadsFrame(s, s', tid);
    forall a, b | a != b ensures Distinct(s', a, b) {
      assert Distinct(s, a, b) && ThreadOk(s, a) && ThreadOk(s, b);
    }
    PushCasLog(s, s', tid);
  }

  lemma PushCasLog<T>(s: State<T>, s': State<T>, tid: Tid)
    requires Shape(s) && ThreadsOk(s) && LogOk(s) && Shape(s') && s.PcOf(tid).PushCas?
    requires var PushCas(element, tail, pushCount) := s.PcOf(tid);
      && tail == s.nTail
      && s' == s.At(tid, PushWrite(element, tail, pushCount)).(
           nTail := tail + 1, pushed := s.pushed + [element], lin := s.lin + [Push(tid, tail, element)])
    ensures LogOk(s')
  {
    hide Effects, Fifo.Replay, Of, TicketsOk;
    var e := Push(tid, s.nTail, s.PcOf(tid).element);
    ReplayOneMore(s.lin, s.n, s.Queue(), e);
    assert s'.Queue() == s.Queue() + [e.value];
    forall other | other != tid ensures Pending(s', other) == Pending(s, other) {
      assert ThreadOk(s, other);
    }
    LogStep(s, s', tid, [e], []);
  }

  lemma SlotIsFree<T>(s: State<T>, tail: nat)
    requires Shape(s) && TicketsOk(s) && tail == s.nTail
    requires s.slots[Idx(tail, s.n)].popFinishedCount >= Lap(tail, s.n)
    ensures tail + 1 <= s.nHead + s.n
  {
    if tail >= s.n {
      LapBefore(tail, s.n);
      assert TicketOk(s, tail - s.n);
    }
  }

  /** The compare-and-swap of a pop takes the oldest ticket, whose push is finished. */
  lemma PopCasKeepsInv<T>(s: State<T>, s': State<T>, tid: Tid)
    requires Inv(s) && s.PcOf(tid).PopCas?
    requires var PopCas(head, popCount) := s.PcOf(tid);
      && head == s.nHead
      && s' == s.At(tid, PopRead(head, popCount)).(
           nHead := head + 1, lin := s.lin + if head < |s.pushed| then [Pop(tid, head, s.pushed[head])] else [])
    ensures s.nHead < s.nTail && Inv(s')
  {
    hide LogOk;
    var PopCas(head, popCount) := s.PcOf(tid);
    assert ThreadOk(s, tid) && TicketOk(s, head);
    forall t: nat ensures TicketOk(s', t) { assert TicketOk(s, t); }
    ThreadsFrame(s, s', tid);
    forall a, b | a != b ensures Distinct(s', a, b) {
      assert Distinct(s, a, b) && ThreadOk(s, a) && ThreadOk(s, b);
    }
    PopCasLog(s, s', tid);
  }

  lemma PopCasLog<T>(s: State<T>, s': State<T>, tid: Tid)
    requires Shape(s) && LogOk(s) && Shape(s') && s.PcOf(tid).PopCas? && s.nHead < s.nTail
    requires var PopCas(head, popCount) := s.PcOf(tid);
      && head == s.nHead
      && s' == s.At(tid, PopRead(head, popCount)).(nHead := head + 1, lin := s.lin + [Pop(tid, head, s.pushed[head])])
    ensures LogOk(s')
  {
    hide Effects, Fifo.Replay, Of, TicketsOk;
    var e := Pop(tid, s.nHead, s.pushed[s.nHead]);
    ReplayOneMore(s.lin, s.n, s.Queue(), e);
    assert s'.Queue() == s.Queue()[1..];
    LogStep(s, s', tid, [e], []);
  }

  lemma PushWriteKeepsInv<T>(s: State<T>, s': State<T>, tid: Tid)
    requires Inv(s) && s.PcOf(tid).PushWrite?
    requires var PushWrite(element, tail, pushCount) := s.PcOf(tid);
      var i := Idx(tail, s.n);
      s' == s.At(tid, PushStore(element, tail, pushCount)).(slots := s.slots[i := s.slots[i].(val := element)])
    ensures Inv(s')
  {
    hide LogOk, Idx, Lap;
    assert ThreadOk(s, tid);
    WriteKeepsTickets(s, s', tid);
    forall other ensures ThreadOk(s', other) {
      assert ThreadOk(s, other);
      if other != tid {
        OwnSlot(s, tid, other);
      }
    }
    forall a, b | a != b ensures Distinct(s', a, b) { assert Distinct(s, a, b); }
    LogReturns(s, s', tid, []);
  }

  lemma WriteKeepsTickets<T>(s: State<T>, s': State<T>, tid: Tid)
    requires Inv(s) && s.PcOf(tid).PushWrite?
    requires var PushWrite(element, tail, pushCount) := s.PcOf(tid);
      var i := Idx(tail, s.n);
      s' == s.At(tid, PushStore(element, tail, pushCount)).(slots := s.slots[i := s.slots[i].(val := element)])
    ensures Shape(s') && TicketsOk(s')
  {
    hide LogOk, AllDistinct, Idx, Lap;
    assert ThreadOk(s, tid) && TicketOk(s, s.PcOf(tid).tail);
    forall t: nat ensures TicketOk(s', t) { assert TicketOk(s, t); }
  }

  /** No two threads work on one slot at a time. */
  lemma OwnSlot<T>(s: State<T>, a: Tid, b: Tid)
    requires Inv(s) && a != b
    ensures Pushing(s.PcOf(a)) && Pushing(s.PcOf(b)) ==> Idx(s.PcOf(a).tail, s.n) != Idx(s.PcOf(b).tail, s.n)
    ensures Popping(s.PcOf(a)) && Popping(s.PcOf(b)) ==> Idx(s.PcOf(a).head, s.n) != Idx(s.PcOf(b).head, s.n)
    ensures Pushing(s.PcOf(a)) && Popping(s.PcOf(b)) ==> Idx(s.PcOf(a).tail, s.n) != Idx(s.PcOf(b).head, s.n)
  {
    assert ThreadOk(s, a) && ThreadOk(s, b) && Distinct(s, a, b);
    var p, q := s.PcOf(a), s.PcOf(b);
    if Pushing(p) && Pushing(q) && Idx(p.tail, s.n) == Idx(q.tail, s.n) {
      SameSlot(p.tail, q.tail, s.n);
    } else if Popping(p) && Popping(q) && Idx(p.head, s.n) == Idx(q.head, s.n) {
      SameSlot(p.head, q.head, s.n);
    } else if Pushing(p) && Popping(q) {
      assert TicketOk(s, p.tail) && TicketOk(s, q.head);
    }
  }

  lemma PushStoreKeepsInv<T>(s: State<T>, s': State<T>, tid: Tid)
    requires Inv(s) && s.PcOf(tid).PushStore?
    requires var PushStore(element, tail, pushCount) := s.PcOf(tid);
      var i := Idx(tail, s.n);
      s' == s.At(tid, Idle).(
        slots := s.slots[i := s.slots[i].(pushFinishedCount := pushCount + 1)],
        results := s.results + [Push(tid, tail, element)])
    ensures Inv(s')
  {
    hide LogOk, Idx, Lap;
    var PushStore(element, tail, pushCount) := s.PcOf(tid);
    assert ThreadOk(s, tid);
    PushStoreKeepsTickets(s, s', tid);
    forall other ensures ThreadOk(s', other) {
      assert ThreadOk(s, other);
      if other != tid {
        OwnSlot(s, tid, other);
      }
    }
    forall a, b | a != b ensures Distinct(s', a, b) { assert Distinct(s, a, b); }
    LogReturns(s, s', tid, [Push(tid, tail, element)]);
  }

  lemma PushStoreKeepsTickets<T>(s: State<T>, s': State<T>, tid: Tid)
    requires Inv(s) && s.PcOf(tid).PushStore?
    requires var PushStore(element, tail, pushCount) := s.PcOf(tid);
      var i := Idx(tail, s.n);
      s' == s.At(tid, Idle).(
        slots := s.slots[i := s.slots[i].(pushFinishedCount := pushCount + 1)],
        results := s.results + [Push(tid, tail, element)])
    ensures Shape(s') && TicketsOk(s')
  {
    hide LogOk, AllDistinct, Idx, Lap;
    var tail := s.PcOf(tid).tail;
    assert ThreadOk(s, tid) && TicketOk(s, tail);
    forall t: nat ensures TicketOk(s', t) {
      assert TicketOk(s, t);
      if Idx(t, s.n) == Idx(tail, s.n) {
        SameSlot(tail, t, s.n);
      }
    }
  }

  lemma PopStoreKeepsInv<T>(s: State<T>, s': State<T>, tid: Tid)
    requires Inv(s) && s.PcOf(tid).PopStore?
    requires var PopStore(head, popCount, element) := s.PcOf(tid);
      var i := Idx(head, s.n);
      s' == s.At(tid, Idle).(
        slots := s.slots[i := s.slots[i].(popFinishedCount := popCount + 1)],
        results := s.results + [Pop(tid, head, element)])
    ensures Inv(s')
  {
    hide LogOk, Idx, Lap;
    var PopStore(head, popCount, element) := s.PcOf(tid);
    assert ThreadOk(s, tid);
    PopStoreKeepsTickets(s, s', tid);
    forall other ensures ThreadOk(s', other) {
      assert ThreadOk(s, other);
      if other != tid {
        OwnSlot(s, tid, other);
      }
    }
    forall a, b | a != b ensures Distinct(s', a, b) { assert Distinct(s, a, b); }
    LogReturns(s, s', tid, [Pop(tid, head, element)]);
  }

  lemma PopStoreKeepsTickets<T>(s: State<T>, s': State<T>, tid: Tid)
    requires Inv(s) && s.PcOf(tid).PopStore?
    requires var PopStore(head, popCount, element) := s.PcOf(tid);
      var i := Idx(head, s.n);
      s' == s.At(tid, Idle).(
        slots := s.slots[i := s.slots[i].(popFinishedCount := popCount + 1)],
        results := s.results + [Pop(tid, head, element)])
    ensures Shape(s') && TicketsOk(s')
  {
    hide LogOk, AllDistinct, Idx, Lap;
    var head := s.PcOf(tid).head;
    assert ThreadOk(s, tid) && TicketOk(s, head);
    forall t: nat ensures TicketOk(s', t) {
      assert TicketOk(s, t);
      if Idx(t, s.n) == Idx(head, s.n) {
        SameSlot(head, t, s.n);
      }
    }
  }

  /** A step between the critical sections sees what its thread may rely on later. */
  lemma LoadSeesTruth<T>(s: State<T>, tid: Tid, spurious: bool)
    requires Inv(s) && !Pushing(s.PcOf(tid)) && !Popping(s.PcOf(tid)) && s.PcOf(tid) != Idle
    requires s.PcOf(tid).PushCas? ==> s.PcOf(tid).tail != s.nTail || spurious
    requires s.PcOf(tid).PopCas? ==> s.PcOf(tid).head != s.nHead || spurious
    ensures ThreadOk(Next(s, Go(tid, spurious)), tid)
  {
    hide Idx, Lap, AllDistinct, LogOk, TicketOk;
    assert ThreadOk(s, tid);
    match s.PcOf(tid)
    case PopLoadPushCount(head) => EarlierLapsPushed(s, head);
    case _ =>
  }

  /** A ticket some pop has read: all earlier laps of its slot have been pushed. */
  lemma EarlierLapsPushed<T>(s: State<T>, head: nat)
    requires Shape(s) && TicketsOk(s) && head <= s.nHead
    ensures Lap(head, s.n) <= s.slots[Idx(head, s.n)].pushFinishedCount
  {
    if head >= s.n {
      LapBefore(head, s.n);
      assert TicketOk(s, head - s.n);
    } else {
      FirstLap(head, s.n);
    }
  }

  /** A pop reads the value pushed with its ticket. */
  lemma ReadSeesTruth<T>(s: State<T>, tid: Tid)
    requires Inv(s) && s.PcOf(tid).PopRead?
    ensures var head := s.PcOf(tid).head;
      head < s.nHead && s.slots[Idx(head, s.n)].val == s.pushed[head]
  {
    assert ThreadOk(s, tid) && TicketOk(s, s.PcOf(tid).head);
  }

  lemma PopReadKeepsInv<T>(s: State<T>, s': State<T>, tid: Tid)
    requires Inv(s) && s.PcOf(tid).PopRead?
    requires var PopRead(head, popCount) := s.PcOf(tid);
      s' == s.At(tid, PopStore(head, popCount, s.slots[Idx(head, s.n)].val))
    ensures Inv(s')
  {
    ReadSeesTruth(s, tid);
    assert ThreadOk(s, tid);
    hide TicketsOk, ThreadsOk, AllDistinct, LogOk;
    MoveKeepsInv(s, s', tid, s'.PcOf(tid));
  }

  lemma GoKeepsInv<T>(s: State<T>, tid: Tid, spurious: bool)
    requires Inv(s)
    ensures Inv(Next(s, Go(tid, spurious)))
  {
    hide TicketsOk, ThreadsOk, AllDistinct, LogOk, ThreadOk, Pending;
    var s' := Next(s, Go(tid, spurious));
    var pc := s.PcOf(tid);
    if pc.PushWrite? { PushWriteKeepsInv(s, s', tid); }
    else if pc.PushStore? { PushStoreKeepsInv(s, s', tid); }
    else if pc.PopRead? { PopReadKeepsInv(s, s', tid); }
    else if pc.PopStore? { PopStoreKeepsInv(s, s', tid); }
    else if pc.PushCas? && pc.tail == s.nTail && !spurious { PushCasKeepsInv(s, s', tid); }
    else if pc.PopCas? && pc.head == s.nHead && !spurious { PopCasKeepsInv(s, s', tid); }
    else if pc != Idle {
      LoadSeesTruth(s, tid, spurious);
      NothingPending(s, tid);
      NothingPending(s', tid);
      MoveKeepsInv(s, s', tid, s'.PcOf(tid));
    }
  }

  lemma NothingPending<T>(s: State<T>, tid: Tid)
    requires |s.pushed| == s.nTail && !Pushing(s.PcOf(tid)) && !Popping(s.PcOf(tid))
    ensures Pending(s, tid) == []
  {
  }

  lemma NextKeepsInv<T>(s: State<T>, step: Step<T>)
    requires Inv(s)
    ensures Inv(Next(s, step))
  {
    if step.Go? {
      GoKeepsInv(s, step.tid, step.spurious);
    } else if s.PcOf(step.tid) == Idle {
      var s' := Next(s, step);
      MoveKeepsInv(s, s', step.tid, s'.PcOf(step.tid));
    }
  }

  // ---- Runs ----

  /** The state after a schedule: any number of threads, in any interleaving. */
  function Exec<T>(n: nat, blank: T, schedule: seq<Step<T>>): (s: State<T>)
    requires n > 0
    ensures Inv(s) && s.n == n && EventsTrue(s)
  {
    hide TicketsOk, ThreadsOk, AllDistinct, LogOk, EventsTrue;
    if schedule == [] then
      InitInv(n, blank);
      Init(n, blank)
    else
      var before := Exec(n, blank, schedule[..|schedule| - 1]);
      NextKeepsInv(before, schedule[|schedule| - 1]);
      NextKeepsEvents(before, schedule[|schedule| - 1]);
      Next(before, schedule[|schedule| - 1])
  }

  lemma InitInv<T>(n: nat, blank: T)
    requires n > 0
    ensures Inv(Init(n, blank)) && EventsTrue(Init(n, blank))
  {
    var s := Init(n, blank);
    forall t: nat ensures TicketOk(s, t) {}
    forall tid ensures ThreadOk(s, tid) {}
    forall tid ensures Of(s.lin, tid) == Of(s.results, tid) + Pending(s, tid) {}
  }

  /** Every linearized operation moved the element of its ticket. */
  ghost predicate EventsTrue<T>(s: State<T>) {
    forall e :: e in s.lin ==> e.ticket < |s.pushed| && e.value == s.pushed[e.ticket]
  }

  lemma NextKeepsEvents<T>(s: State<T>, step: Step<T>)
    requires Shape(s) && EventsTrue(s)
    ensures EventsTrue(Next(s, step))
  {
  }

  lemma {:induction false} OfMembers<T>(log: seq<Event<T>>, tid: Tid, e: Event<T>)
    ensures e in Of(log, tid) <==> e in log && e.tid == tid
  {
    if log != [] {
      OfMembers(log[..|log| - 1], tid, e);
      assert log == log[..|log| - 1] + [log[|log| - 1]];
    }
  }

  /** Linearizability of the successful operations, in every schedule: the compare-and-swaps form a
    legal history of a first-in first-out queue; each thread returns what it linearized, in that
    order, running at most one operation behind; and what is returned for a ticket is what was
    pushed with it. */
  lemma Linearizable<T>(n: nat, blank: T, schedule: seq<Step<T>>, tid: Tid)
    requires n > 0
    ensures var s := Exec(n, blank, schedule);
      && Fifo.Replay(Effects(s.lin), n) == Fifo.Legal(s.Queue())
      && |s.Queue()| <= n
      && Fifo.PoppedValues(Effects(s.lin)) + s.Queue() == Fifo.PushedValues(Effects(s.lin))
      && Of(s.results, tid) <= Of(s.lin, tid)
      && |Of(s.lin, tid)| <= |Of(s.results, tid)| + 1
      && (s.PcOf(tid) == Idle ==> Of(s.results, tid) == Of(s.lin, tid))
    ensures var s := Exec(n, blank, schedule);
      forall e :: e in s.results ==> e in s.lin && e.ticket < |s.pushed| && e.value == s.pushed[e.ticket]
  {
    var s := Exec(n, blank, schedule);
    Fifo.LegalIsFifo(Effects(s.lin), n);
    assert Of(s.lin, tid) == Of(s.results, tid) + Pending(s, tid);
    forall e | e in s.results
      ensures e in s.lin
    {
      OfMembers(s.results, e.tid, e);
      OfMembers(s.lin, e.tid, e);
      assert Of(s.lin, e.tid) == Of(s.results, e.tid) + Pending(s, e.tid);
    }
  }

  /** The slot a thread is working on, if it is between its compare-and-swap and its counter store. */
  function Working<T>(s: State<T>, tid: Tid): int
    requires s.n > 0
  {
    var pc := s.PcOf(tid);
    if Pushing(pc) then Idx(pc.tail, s.n) else if Popping(pc) then Idx(pc.head, s.n) else -1
  }

  /** Safety of the slots, in every schedule. */
  lemma SlotSafety<T>(n: nat, blank: T, schedule: seq<Step<T>>)
    requires n > 0
    ensures var s := Exec(n, blank, schedule);
      && s.nHead <= s.nTail <= s.nHead + n
      && (forall i :: 0 <= i < n ==>
            s.slots[i].popFinishedCount <= s.slots[i].pushFinishedCount <= s.slots[i].popFinishedCount + 1)
      && (forall a, b :: a != b && Working(s, a) != -1 ==> Working(s, a) != Working(s, b))
  {
    var s := Exec(n, blank, schedule);
    forall i | 0 <= i < n
      ensures s.slots[i].popFinishedCount <= s.slots[i].pushFinishedCount <= s.slots[i].popFinishedCount + 1
    {
      FirstLap(i, n);
      assert TicketOk(s, i);
    }
    forall a, b | a != b && Working(s, a) != -1
      ensures Working(s, a) != Working(s, b)
    {
      OwnSlot(s, a, b);
      OwnSlot(s, b, a);
    }
  }
}

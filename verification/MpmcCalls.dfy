/** The calls that threads make on the queue for many producers and many consumers, and what each of
  them returns.
*/
module MpmcCalls {
  import opened MpmcQueue

  // ---- One step ----

  /** `push` with the given element is under way. */
  predicate DuringPush<T(==)>(pc: Pc<T>, element: T) {
    match pc
    case PushLoadTail(e) => e == element
    case PushLoadPushCount(e, _) => e == element
    case PushLoadPopCount(e, _, _) => e == element
    case PushCas(e, _, _) => e == element
    case PushWrite(e, _, _) => e == element
    case PushStore(e, _, _) => e == element
    case _ => false
  }

  predicate DuringPop<T>(pc: Pc<T>) {
    pc.PopLoadHead? || pc.PopLoadPushCount? || pc.PopLoadPopCount? || pc.PopCas? || pc.PopRead? || pc.PopStore?
  }

  /** The push count that `tid` has loaded exceeds the pop count it is about to load. */
  predicate FindsTaken<T>(s: State<T>, tid: Tid)
    requires |s.slots| == s.n > 0
  {
    var pc := s.PcOf(tid);
    pc.PushLoadPopCount? && pc.pushCount > s.slots[Idx(pc.tail, s.n)].popFinishedCount
  }

  /** The push count that `tid` has loaded equals the pop count it is about to load. */
  predicate FindsLevel<T>(s: State<T>, tid: Tid)
    requires |s.slots| == s.n > 0
  {
    var pc := s.PcOf(tid);
    pc.PopLoadPopCount? && pc.pushCount == s.slots[Idx(pc.head, s.n)].popFinishedCount
  }

  /** An operation returns false just when it loads a pop count that shows its slot taken, or level. */
  lemma OnlyTestsFail<T>(s: State<T>, step: Step<T>)
    requires Shape(s)
    ensures var s', tid, length := Next(s, step), step.tid, s.nTail - s.nHead;
      s'.failures == s.failures +
        (if step.Go? && FindsTaken(s, tid) then [PushFailed(tid, length)]
         else if step.Go? && FindsLevel(s, tid) then [PopFailed(tid, length)]
         else [])
  {
    hide Idx, Lap;
    assert s.failures + [] == s.failures;
  }

  /** A compare-and-swap that fails, because the ticket was taken or for no reason, changes nothing else and
    leaves the thread in the same operation, with the same element and the current ticket. */
  lemma FailedCasGoesOn<T>(s: State<T>, tid: Tid, spurious: bool)
    requires Shape(s)
    ensures var s', pc := Next(s, Go(tid, spurious)), s.PcOf(tid);
      && (pc.PushCas? && (pc.tail != s.nTail || spurious) ==>
            s' == s.At(tid, PushLoadPushCount(pc.element, s.nTail)) && DuringPush(s'.PcOf(tid), pc.element))
      && (pc.PopCas? && (pc.head != s.nHead || spurious) ==>
            s' == s.At(tid, PopLoadPushCount(s.nHead)) && DuringPop(s'.PcOf(tid)))
  {
  }

  // ---- Calls and what they return ----

  datatype Call<T> = PutCall(element: T) | TakeCall

  datatype Return<T> = Returned(event: Event<T>) | Failed(failure: Failure)

  predicate During<T(==)>(pc: Pc<T>, call: Call<T>) {
    match call
    case PutCall(element) => DuringPush(pc, element)
    case TakeCall => DuringPop(pc)
  }

  /** `push` returns true having pushed its own element, or false; `pop` returns true with an element, or false. */
  predicate Answers<T(==)>(tid: Tid, call: Call<T>, r: Return<T>) {
    match r
    case Returned(Push(t, _, value)) => t == tid && call == PutCall(value)
    case Returned(Pop(t, _, _)) => t == tid && call == TakeCall
    case Failed(PushFailed(t, _)) => t == tid && call.PutCall?
    case Failed(PopFailed(t, _)) => t == tid && call == TakeCall
  }

  /** The call, if any, that `tid` makes with this step. */
  function Called<T>(s: State<T>, step: Step<T>, tid: Tid): seq<Call<T>> {
    if step.tid != tid || s.PcOf(tid) != Idle then []
    else
      match step
      case CallPush(_, element) => [PutCall(element)]
      case CallPop(_) => [TakeCall]
      case Go(_, _) => []
  }

  /** What a call of `tid` returns, if it does, on the way from `s` to `s'`. */
  function Answered<T>(s: State<T>, s': State<T>, tid: Tid): seq<Return<T>> {
    var r, f := |s.results|, |s.failures|;
    (if |s'.results| > r && s'.results[r].tid == tid then [Returned(s'.results[r])] else [])
    + if |s'.failures| > f && s'.failures[f].tid == tid then [Failed(s'.failures[f])] else []
  }

  /** All calls of `tid` in a schedule, in order. */
  function Calls<T>(n: nat, blank: T, schedule: seq<Step<T>>, tid: Tid): seq<Call<T>>
    requires n > 0
  {
    if schedule == [] then []
    else
      var init, last := schedule[..|schedule| - 1], schedule[|schedule| - 1];
      Calls(n, blank, init, tid) + Called(Exec(n, blank, init), last, tid)
  }

  /** All that its calls have returned, in order. */
  function Returns<T>(n: nat, blank: T, schedule: seq<Step<T>>, tid: Tid): seq<Return<T>>
    requires n > 0
  {
    if schedule == [] then []
    else
      var init := schedule[..|schedule| - 1];
      Returns(n, blank, init, tid) + Answered(Exec(n, blank, init), Exec(n, blank, schedule), tid)
  }

  /** A step logs a result just at the store of a counter, and moves no other thread. */
  lemma OnlyStoresReturn<T>(s: State<T>, step: Step<T>)
    requires Shape(s)
    ensures var s', pc := Next(s, step), s.PcOf(step.tid);
      && s'.results == s.results +
           (if step.Go? && pc.PushStore? then [Push(step.tid, pc.tail, pc.element)]
            else if step.Go? && pc.PopStore? then [Pop(step.tid, pc.head, pc.element)]
            else [])
      && forall other :: other != step.tid ==> s'.PcOf(other) == s.PcOf(other)
  {
    hide Idx, Lap;
    assert s.results + [] == s.results;
  }

  /** Where the step takes the thread. */
  lemma OwnMove<T>(s: State<T>, step: Step<T>, current: Call<T>)
    requires Shape(s)
    requires s.PcOf(step.tid) != Idle ==> During(s.PcOf(step.tid), current)
    ensures var pc, pc' := s.PcOf(step.tid), Next(s, step).PcOf(step.tid);
      && (pc == Idle ==>
            match step
            case CallPush(_, element) => During(pc', PutCall(element))
            case CallPop(_) => During(pc', TakeCall)
            case Go(_, _) => pc' == Idle)
      && (pc != Idle && !step.Go? ==> pc' == pc)
      && (pc != Idle && step.Go? ==>
            if pc.PushStore? || pc.PopStore? || FindsTaken(s, step.tid) || FindsLevel(s, step.tid) then pc' == Idle
            else During(pc', current))
  {
    hide Idx, Lap;
  }

  /** A step of `tid` stays in its operation, or returns from it, or begins one; a step of another thread
    does nothing to it. */
  lemma StepOfCall<T>(s: State<T>, step: Step<T>, tid: Tid, current: Call<T>)
    requires Shape(s) && (s.PcOf(tid) != Idle ==> During(s.PcOf(tid), current))
    ensures var s' := Next(s, step);
      var called, answered := Called(s, step, tid), Answered(s, s', tid);
      && (called != [] ==> |called| == 1 && s.PcOf(tid) == Idle && answered == [] && During(s'.PcOf(tid), called[0]))
      && (answered != [] ==>
            |answered| == 1 && s.PcOf(tid) != Idle && s'.PcOf(tid) == Idle && Answers(tid, current, answered[0]))
      && (called == [] && answered == [] ==>
            (s.PcOf(tid) == Idle <==> s'.PcOf(tid) == Idle) && (s'.PcOf(tid) != Idle ==> During(s'.PcOf(tid), current)))
  {
    hide Next, Idx, Lap;
    OnlyTestsFail(s, step);
    OnlyStoresReturn(s, step);
    if step.tid == tid {
      OwnMove(s, step, current);
    }
  }

  lemma ExecLast<T>(n: nat, blank: T, schedule: seq<Step<T>>)
    requires n > 0 && schedule != []
    ensures Exec(n, blank, schedule) == Next(Exec(n, blank, schedule[..|schedule| - 1]), schedule[|schedule| - 1])
  {
  }

  /** In every schedule: each call of a thread returns before its next call begins, in the order of the
    calls; the one under way, if there is one, is the last; a push that returns true has pushed the
    element it was called with. */
  lemma {:induction false} CallsAnswered<T>(n: nat, blank: T, schedule: seq<Step<T>>, tid: Tid)
    requires n > 0
    ensures var s := Exec(n, blank, schedule);
      var calls, replies := Calls(n, blank, schedule, tid), Returns(n, blank, schedule, tid);
      && |calls| == |replies| + (if s.PcOf(tid) == Idle then 0 else 1)
      && (s.PcOf(tid) != Idle ==> During(s.PcOf(tid), calls[|replies|]))
      && (forall i :: 0 <= i < |replies| ==> Answers(tid, calls[i], replies[i]))
  {
    hide Exec, Next, Called, Answered, Answers, TicketsOk, ThreadsOk, AllDistinct, LogOk, EventsTrue;
    if schedule == [] {
      FirstState(n, blank);
    } else {
      var init, last := schedule[..|schedule| - 1], schedule[|schedule| - 1];
      var s := Exec(n, blank, init);
      CallsAnswered(n, blank, init, tid);
      ExecLast(n, blank, schedule);
      var calls, replies := Calls(n, blank, init, tid), Returns(n, blank, init, tid);
      StepOfCall(s, last, tid, if s.PcOf(tid) == Idle then TakeCall else calls[|replies|]);
    }
  }

  lemma FirstState<T>(n: nat, blank: T)
    requires n > 0
    ensures forall tid :: Exec(n, blank, []).PcOf(tid) == Idle
  {
  }
}

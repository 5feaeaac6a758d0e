/** When the operations of the queue for many producers and many consumers return false. */
module MpmcFailures {
  import opened MpmcQueue

  // ---- A ticket that is not finished is in some thread's hands ----

  predicate Pushes<T>(s: State<T>, tid: Tid, ticket: nat) { Pushing(s.PcOf(tid)) && s.PcOf(tid).tail == ticket }
  predicate Pops<T>(s: State<T>, tid: Tid, ticket: nat) { Popping(s.PcOf(tid)) && s.PcOf(tid).head == ticket }

  ghost predicate BeingPushed<T>(s: State<T>, ticket: nat) { exists tid :: Pushes(s, tid, ticket) }
  ghost predicate BeingPopped<T>(s: State<T>, ticket: nat) { exists tid :: Pops(s, tid, ticket) }

  ghost predicate Owned<T>(s: State<T>, t: nat)
    requires Shape(s)
  {
    var slot, lap := s.slots[Idx(t, s.n)], Lap(t, s.n);
    && (t < s.nTail && slot.pushFinishedCount <= lap ==> BeingPushed(s, t))
    && (t < s.nHead && slot.popFinishedCount <= lap ==> BeingPopped(s, t))
  }

  ghost predicate Owners<T>(s: State<T>)
    requires Shape(s)
  {
    forall t: nat {:trigger Owned(s, t)} :: Owned(s, t)
  }

  /** A thread other than `tid` does not move. */
  lemma OthersStay<T>(s: State<T>, step: Step<T>, other: Tid)
    requires Shape(s) && other != step.tid
    ensures Next(s, step).PcOf(other) == s.PcOf(other)
  {
  }

  /** The thread that moves keeps its ticket until it stores the counter of its slot. */
  lemma KeepsTicket<T>(s: State<T>, step: Step<T>)
    requires Shape(s)
    ensures var p, p' := s.PcOf(step.tid), Next(s, step).PcOf(step.tid);
      && (Pushing(p) ==> (Pushing(p') && p'.tail == p.tail) || (step.Go? && p.PushStore?))
      && (Popping(p) ==> (Popping(p') && p'.head == p.head) || (step.Go? && p.PopStore?))
  {
  }

  /** How a step changes the counters and the tickets. */
  lemma CountersMove<T>(s: State<T>, step: Step<T>, t: nat)
    requires Inv(s)
    ensures Shape(Next(s, step))
    ensures var s', p := Next(s, step), s.PcOf(step.tid);
      && s'.n == s.n && s.nTail <= s'.nTail <= s.nTail + 1 && s.nHead <= s'.nHead <= s.nHead + 1
      && (s'.nTail > s.nTail ==> Pushes(s', step.tid, s.nTail))
      && (s'.nHead > s.nHead ==> Pops(s', step.tid, s.nHead))
      && var slot, slot' := s.slots[Idx(t, s.n)], s'.slots[Idx(t, s.n)];
      && (slot'.pushFinishedCount == slot.pushFinishedCount
          || (step.Go? && p.PushStore? && Idx(t, s.n) == Idx(p.tail, s.n)
               && slot'.pushFinishedCount == Lap(p.tail, s.n) + 1))
      && (slot'.popFinishedCount == slot.popFinishedCount
          || (step.Go? && p.PopStore? && Idx(t, s.n) == Idx(p.head, s.n)
               && slot'.popFinishedCount == Lap(p.head, s.n) + 1))
      && (step.Go? && p.PushStore? && Idx(t, s.n) == Idx(p.tail, s.n) ==>
           slot'.pushFinishedCount == Lap(p.tail, s.n) + 1)
      && (step.Go? && p.PopStore? && Idx(t, s.n) == Idx(p.head, s.n) ==> slot'.popFinishedCount == Lap(p.head, s.n) + 1)
      && slot.pushFinishedCount <= slot'.pushFinishedCount && slot.popFinishedCount <= slot'.popFinishedCount
  {
    hide Idx, Lap, TicketsOk, AllDistinct, LogOk;
    NextKeepsInv(s, step);
    assert ThreadOk(s, step.tid);
  }

  lemma StillPushed<T>(s: State<T>, step: Step<T>, t: nat)
    requires Inv(s) && Owned(s, t)
    ensures Shape(Next(s, step))
    ensures var s' := Next(s, step);
      t < s'.nTail && s'.slots[Idx(t, s.n)].pushFinishedCount <= Lap(t, s.n) ==> BeingPushed(s', t)
  {
    hide Next, Idx, Lap, TicketsOk, ThreadsOk, AllDistinct, LogOk;
    var s' := Next(s, step);
    CountersMove(s, step, t);
    if t < s.nTail && s'.slots[Idx(t, s.n)].pushFinishedCount <= Lap(t, s.n) {
      var tid :| Pushes(s, tid, t);
      if tid == step.tid {
        KeepsTicket(s, step);
      } else {
        OthersStay(s, step, tid);
      }
      assert Pushes(s', tid, t);
    }
  }

  lemma StillPopped<T>(s: State<T>, step: Step<T>, t: nat)
    requires Inv(s) && Owned(s, t)
    ensures Shape(Next(s, step))
    ensures var s' := Next(s, step);
      t < s'.nHead && s'.slots[Idx(t, s.n)].popFinishedCount <= Lap(t, s.n) ==> BeingPopped(s', t)
  {
    hide Next, Idx, Lap, TicketsOk, ThreadsOk, AllDistinct, LogOk;
    var s' := Next(s, step);
    CountersMove(s, step, t);
    if t < s.nHead && s'.slots[Idx(t, s.n)].popFinishedCount <= Lap(t, s.n) {
      var tid :| Pops(s, tid, t);
      if tid == step.tid {
        KeepsTicket(s, step);
      } else {
        OthersStay(s, step, tid);
      }
      assert Pops(s', tid, t);
    }
  }

  lemma NextKeepsOwners<T>(s: State<T>, step: Step<T>)
    requires Inv(s) && Owners(s)
    ensures Shape(Next(s, step)) && Owners(Next(s, step))
  {
    CountersMove(s, step, 0);
    hide Next, Idx, Lap, TicketsOk, ThreadsOk, AllDistinct, LogOk;
    forall t: nat ensures Owned(Next(s, step), t) {
      assert Owned(s, t);
      CountersMove(s, step, t);
      StillPushed(s, step, t);
      StillPopped(s, step, t);
    }
  }

  lemma ExecLast<T>(n: nat, blank: T, schedule: seq<Step<T>>)
    requires n > 0
    ensures if schedule == [] then Exec(n, blank, schedule) == Init(n, blank)
      else Exec(n, blank, schedule) == Next(Exec(n, blank, schedule[..|schedule| - 1]), schedule[|schedule| - 1])
  {
  }

  /** In every schedule: a ticket that was taken, and whose counter has not advanced, is in the hands of
    a thread between its compare-and-swap and its counter store. */
  lemma {:induction false} AlwaysOwned<T>(n: nat, blank: T, schedule: seq<Step<T>>)
    requires n > 0
    ensures Owners(Exec(n, blank, schedule))
  {
    hide Next, Exec, TicketsOk, ThreadsOk, AllDistinct, LogOk, EventsTrue;
    ExecLast(n, blank, schedule);
    if schedule != [] {
      AlwaysOwned(n, blank, schedule[..|schedule| - 1]);
      NextKeepsOwners(Exec(n, blank, schedule[..|schedule| - 1]), schedule[|schedule| - 1]);
    }
  }

  // ---- The next slot ----

  predicate Full<T>(s: State<T>)
    requires Shape(s)
  {
    s.nTail - s.nHead == s.n
  }

  predicate Empty<T>(s: State<T>) { s.nHead == s.nTail }

  /** The slot of the next push holds an element: the ticket one lap before is pushed and not yet popped. */
  ghost predicate PushBlocked<T>(s: State<T>)
    requires Shape(s)
  {
    && s.n <= s.nTail
    && !BeingPushed(s, s.nTail - s.n) && (Full(s) || BeingPopped(s, s.nTail - s.n))
  }

  ghost predicate PushFree<T>(s: State<T>)
    requires Shape(s)
  {
    !Full(s) && (s.n <= s.nTail ==> !BeingPopped(s, s.nTail - s.n))
  }

  /** The slot of the next pop is level: nothing is queued and the lap before is done with, or the
    push of that very ticket is still under way. */
  ghost predicate PopBlocked<T>(s: State<T>)
    requires Shape(s)
  {
    if Empty(s) then s.n <= s.nHead ==> !BeingPopped(s, s.nHead - s.n)
    else BeingPushed(s, s.nHead)
  }

  ghost predicate PopReady<T>(s: State<T>)
    requires Shape(s)
  {
    !Empty(s) && !BeingPushed(s, s.nHead)
  }

  /** The counters of a slot tell whether a ticket is in some thread's hands. */
  lemma InHands<T>(s: State<T>, t: nat)
    requires Inv(s) && Owners(s) && t < s.nTail
    ensures s.slots[Idx(t, s.n)].pushFinishedCount <= Lap(t, s.n) <==> BeingPushed(s, t)
    ensures t < s.nHead ==> (s.slots[Idx(t, s.n)].popFinishedCount <= Lap(t, s.n) <==> BeingPopped(s, t))
    ensures t >= s.nHead ==> !BeingPopped(s, t)
  {
    hide Idx, Lap, TicketsOk, AllDistinct, LogOk;
    assert Owned(s, t);
    if BeingPushed(s, t) {
      var tid :| Pushes(s, tid, t);
      assert ThreadOk(s, tid);
    }
    if BeingPopped(s, t) {
      var tid :| Pops(s, tid, t);
      assert ThreadOk(s, tid);
    }
  }

  lemma NextPushSlot<T>(s: State<T>)
    requires Inv(s) && Owners(s)
    ensures var slot := s.slots[Idx(s.nTail, s.n)];
      && (slot.pushFinishedCount > slot.popFinishedCount <==> PushBlocked(s))
      && (slot.pushFinishedCount == slot.popFinishedCount == Lap(s.nTail, s.n) <==> PushFree(s))
  {
    hide Idx, Lap, BeingPushed, BeingPopped, ThreadsOk, AllDistinct, LogOk, Owners;
    assert TicketOk(s, s.nTail);
    if s.nTail < s.n {
      FirstLap(s.nTail, s.n);
    } else {
      LapBefore(s.nTail, s.n);
      assert TicketOk(s, s.nTail - s.n);
      InHands(s, s.nTail - s.n);
    }
  }

  lemma NextPopSlot<T>(s: State<T>)
    requires Inv(s) && Owners(s)
    ensures var slot := s.slots[Idx(s.nHead, s.n)];
      && (slot.pushFinishedCount == slot.popFinishedCount <==> PopBlocked(s))
      && (slot.pushFinishedCount > slot.popFinishedCount == Lap(s.nHead, s.n) <==> PopReady(s))
  {
    hide Idx, Lap, BeingPushed, BeingPopped, ThreadsOk, AllDistinct, LogOk, Owners;
    assert TicketOk(s, s.nHead);
    if s.nHead < s.nTail {
      InHands(s, s.nHead);
    } else if s.nHead < s.n {
      FirstLap(s.nHead, s.n);
    } else {
      LapBefore(s.nHead, s.n);
      assert TicketOk(s, s.nHead - s.n);
      InHands(s, s.nHead - s.n);
    }
  }

  // ---- One test ----

  /** A push whose ticket and push count are up to date returns false just when the ticket one lap
    before is pushed and not yet popped: the queue is full, or some thread is still popping it. */
  lemma FreshPushFails<T>(s: State<T>, tid: Tid)
    requires Inv(s) && Owners(s) && s.PcOf(tid).PushLoadPopCount? && s.PcOf(tid).tail == s.nTail
    requires s.PcOf(tid).pushCount == s.slots[Idx(s.nTail, s.n)].pushFinishedCount
    ensures Next(s, Go(tid, false)).PcOf(tid) == Idle <==> PushBlocked(s)
  {
    hide Idx, Lap, TicketsOk, ThreadsOk, AllDistinct, LogOk, Owners, PushBlocked, PushFree;
    NextPushSlot(s);
  }

  /** A pop whose ticket and push count are up to date returns false just when the queue is empty and
    the slot's last pop is done, or some thread is still pushing with that ticket. */
  lemma FreshPopFails<T>(s: State<T>, tid: Tid)
    requires Inv(s) && Owners(s) && s.PcOf(tid).PopLoadPopCount? && s.PcOf(tid).head == s.nHead
    requires s.PcOf(tid).pushCount == s.slots[Idx(s.nHead, s.n)].pushFinishedCount
    ensures Next(s, Go(tid, false)).PcOf(tid) == Idle <==> PopBlocked(s)
  {
    hide Idx, Lap, TicketsOk, ThreadsOk, AllDistinct, LogOk, Owners, PopBlocked, PopReady;
    NextPopSlot(s);
  }

  /** With an up-to-date ticket but a push count that may be stale, a push that fails has still found
    its slot taken. */
  lemma FailedPushWithCurrentTicket<T>(s: State<T>, tid: Tid)
    requires Inv(s) && Owners(s) && s.PcOf(tid).PushLoadPopCount? && s.PcOf(tid).tail == s.nTail
    requires Next(s, Go(tid, false)).PcOf(tid) == Idle
    ensures PushBlocked(s)
  {
    hide Idx, Lap, TicketsOk, AllDistinct, LogOk, Owners, PushBlocked, PushFree;
    assert ThreadOk(s, tid);
    NextPushSlot(s);
  }

  /** A pop that fails with an up-to-date ticket had found the push of that ticket not finished: when it
    loaded the push count the queue was empty, or some thread was pushing with that ticket. */
  lemma FailedPopWithCurrentTicket<T>(s: State<T>, tid: Tid)
    requires Inv(s) && s.PcOf(tid).PopLoadPopCount? && s.PcOf(tid).head == s.nHead
    requires Next(s, Go(tid, false)).PcOf(tid) == Idle
    ensures s.PcOf(tid).pushCount == Lap(s.nHead, s.n) == s.slots[Idx(s.nHead, s.n)].popFinishedCount
  {
    assert ThreadOk(s, tid) && TicketOk(s, s.nHead);
  }

  /** What that load saw. */
  lemma PushCountLoaded<T>(s: State<T>, tid: Tid)
    requires Inv(s) && Owners(s) && s.PcOf(tid).PopLoadPushCount? && s.PcOf(tid).head == s.nHead
    ensures var s' := Next(s, Go(tid, false));
      && s'.PcOf(tid).PopLoadPopCount?
      && (s'.PcOf(tid).pushCount == Lap(s.nHead, s.n) <==> Empty(s) || BeingPushed(s, s.nHead))
  {
    hide Idx, Lap, BeingPushed, BeingPopped, ThreadsOk, AllDistinct, LogOk, Owners;
    assert TicketOk(s, s.nHead);
    EarlierLapsPushed(s, s.nHead);
    if s.nHead < s.nTail {
      InHands(s, s.nHead);
    }
  }

  // ---- An operation that runs alone ----

  /** No thread is between its compare-and-swap and its counter store. */
  ghost predicate Settled<T>(s: State<T>) {
    forall tid {:trigger s.PcOf(tid)} :: !Pushing(s.PcOf(tid)) && !Popping(s.PcOf(tid))
  }

  lemma SettledSlots<T>(s: State<T>)
    requires Shape(s) && Settled(s)
    ensures (PushBlocked(s) <==> Full(s)) && (PushFree(s) <==> !Full(s))
    ensures (PopBlocked(s) <==> Empty(s)) && (PopReady(s) <==> !Empty(s))
  {
    forall tid, t ensures !Pushes(s, tid, t) && !Pops(s, tid, t) {}
  }

  /** A thread runs undisturbed for `k` steps. */
  function Alone<T>(tid: Tid, k: nat): seq<Step<T>> { seq(k, _ => Go(tid, false)) }

  /** Only thread `tid` has moved, and it has touched nothing shared. */
  ghost predicate Quiet<T>(s: State<T>, s': State<T>, tid: Tid) {
    s' == s.(pcs := s'.pcs, failures := s'.failures) && forall other :: other != tid ==> s'.PcOf(other) == s.PcOf(other)
  }

  lemma ExecOneMore<T>(n: nat, blank: T, schedule: seq<Step<T>>, step: Step<T>)
    requires n > 0
    ensures Exec(n, blank, schedule + [step]) == Next(Exec(n, blank, schedule), step)
  {
    assert (schedule + [step])[..|schedule|] == schedule;
  }

  lemma ExecThree<T>(n: nat, blank: T, schedule: seq<Step<T>>, step: Step<T>)
    requires n > 0
    ensures var s := Exec(n, blank, schedule);
      && Shape(s) && Shape(Next(s, step)) && Shape(Next(Next(s, step), step))
      && Exec(n, blank, schedule + [step, step, step]) == Next(Next(Next(s, step), step), step)
  {
    hide Next, TicketsOk, ThreadsOk, AllDistinct, LogOk, EventsTrue;
    ExecOneMore(n, blank, schedule, step);
    ExecOneMore(n, blank, schedule + [step], step);
    ExecOneMore(n, blank, schedule + [step] + [step], step);
    assert schedule + [step] + [step] + [step] == schedule + [step, step, step];
  }

  /** Three loads settle it: the push gives up, or comes to its compare-and-swap. */
  lemma PushTests<T>(s: State<T>, tid: Tid)
    requires Shape(s) && s.PcOf(tid).PushLoadTail?
    ensures var s', slot := Next(Next(Next(s, Go(tid, false)), Go(tid, false)), Go(tid, false)),
      s.slots[Idx(s.nTail, s.n)];
      && (slot.pushFinishedCount > slot.popFinishedCount ==>
            Quiet(s, s', tid) && s'.PcOf(tid) == Idle
              && s'.failures == s.failures + [PushFailed(tid, s.nTail - s.nHead)])
      && (slot.pushFinishedCount == slot.popFinishedCount == Lap(s.nTail, s.n) ==>
            Quiet(s, s', tid) && s'.failures == s.failures
            && s'.PcOf(tid) == PushCas(s.PcOf(tid).element, s.nTail, Lap(s.nTail, s.n)))
  {
    hide Idx, Lap;
    var slot := s.slots[Idx(s.nTail, s.n)];
    var s1 := Next(s, Go(tid, false));
    assert Quiet(s, s1, tid) && s1.PcOf(tid) == PushLoadPushCount(s.PcOf(tid).element, s.nTail);
    var s2 := Next(s1, Go(tid, false));
    assert Quiet(s, s2, tid) && s2.PcOf(tid) == PushLoadPopCount(s.PcOf(tid).element, s.nTail, slot.pushFinishedCount);
  }

  /** Nothing is left to do for a thread at rest. */
  lemma IdleRests<T>(s: State<T>, tid: Tid)
    requires Shape(s) && s.PcOf(tid) == Idle
    ensures Next(Next(Next(s, Go(tid, false)), Go(tid, false)), Go(tid, false)) == s
  {
  }

  lemma PushStores<T>(s: State<T>, tid: Tid)
    requires Shape(s) && s.PcOf(tid).PushCas? && s.PcOf(tid).tail == s.nTail
    ensures var s' := Next(Next(Next(s, Go(tid, false)), Go(tid, false)), Go(tid, false));
      && s'.PcOf(tid) == Idle && s'.failures == s.failures && s'.nHead == s.nHead && s'.n == s.n
      && s'.nTail == s.nTail + 1 && s'.pushed == s.pushed + [s.PcOf(tid).element]
      && s'.slots == s.slots[Idx(s.nTail, s.n) :=
           s.slots[Idx(s.nTail, s.n)].(val := s.PcOf(tid).element, pushFinishedCount := s.PcOf(tid).pushCount + 1)]
      && (forall other :: other != tid ==> s'.PcOf(other) == s.PcOf(other))
  {
    hide Idx, Lap;
    var PushCas(element, tail, pushCount) := s.PcOf(tid);
    var s1 := Next(s, Go(tid, false));
    assert s1.PcOf(tid) == PushWrite(element, tail, pushCount) && s1.slots == s.slots;
    var s2 := Next(s1, Go(tid, false));
    var i := Idx(tail, s.n);
    assert s2.PcOf(tid) == PushStore(element, tail, pushCount) && s2.slots == s.slots[i := s.slots[i].(val := element)];
    var s3 := Next(s2, Go(tid, false));
    assert s3.slots == s.slots[i := s.slots[i].(val := element, pushFinishedCount := pushCount + 1)];
  }

  lemma SixIsThreeTwice<T>(schedule: seq<Step<T>>, tid: Tid)
    ensures var go: Step<T> := Go(tid, false);
      schedule + Alone(tid, 6) == schedule + [go, go, go] + [go, go, go]
  {
  }

  /** A push that runs alone, whatever the other threads are in the middle of, returns false and changes
    nothing if its slot is blocked, and appends its element if the slot is free. Six steps are enough. */
  lemma PushFrom<T>(n: nat, blank: T, schedule: seq<Step<T>>, tid: Tid)
    requires n > 0 && Exec(n, blank, schedule).PcOf(tid).PushLoadTail?
    ensures var s, s' := Exec(n, blank, schedule), Exec(n, blank, schedule + Alone(tid, 6));
      && (PushBlocked(s) ==>
            && Quiet(s, s', tid) && s'.PcOf(tid) == Idle
            && s'.failures == s.failures + [PushFailed(tid, s.nTail - s.nHead)])
      && (PushFree(s) ==> PushedOne(s, s', tid, s.PcOf(tid).element))
  {
    hide Next, TicketsOk, ThreadsOk, AllDistinct, LogOk, EventsTrue, Exec, Idx, Lap, Owners, PushBlocked, PushFree,
      PopBlocked, PopReady;
    var s := Exec(n, blank, schedule);
    var go: Step<T> := Go(tid, false);
    AlwaysOwned(n, blank, schedule);
    NextPushSlot(s);
    ExecThree(n, blank, schedule, go);
    PushTests(s, tid);
    var m := Exec(n, blank, schedule + [go, go, go]);
    ExecThree(n, blank, schedule + [go, go, go], go);
    SixIsThreeTwice(schedule, tid);
    if PushBlocked(s) {
      IdleRests(m, tid);
    } else if PushFree(s) {
      PushStores(m, tid);
    }
  }

  /** Thread `tid` has pushed `element`, and nothing else has changed. */
  ghost predicate PushedOne<T>(s: State<T>, s': State<T>, tid: Tid, element: T)
    requires Shape(s)
  {
    && s'.PcOf(tid) == Idle && (forall other :: other != tid ==> s'.PcOf(other) == s.PcOf(other))
    && s'.failures == s.failures && s'.nHead == s.nHead
    && s'.nTail == s.nTail + 1 && s'.pushed == s.pushed + [element]
    && s'.slots == s.slots[Idx(s.nTail, s.n) :=
         s.slots[Idx(s.nTail, s.n)].(val := element, pushFinishedCount := Lap(s.nTail, s.n) + 1)]
  }

  /** If moreover no other operation is half done, it returns false just when the queue is full. */
  lemma PushAlone<T>(n: nat, blank: T, schedule: seq<Step<T>>, tid: Tid)
    requires n > 0 && Exec(n, blank, schedule).PcOf(tid).PushLoadTail? && Settled(Exec(n, blank, schedule))
    ensures var s, s' := Exec(n, blank, schedule), Exec(n, blank, schedule + Alone(tid, 6));
      if Full(s) then
        Quiet(s, s', tid) && s'.PcOf(tid) == Idle && s'.failures == s.failures + [PushFailed(tid, n)]
      else PushedOne(s, s', tid, s.PcOf(tid).element)
  {
    hide TicketsOk, ThreadsOk, AllDistinct, LogOk, EventsTrue, Exec, Owners, PushBlocked, PushFree, PopBlocked,
      PopReady, Settled, Quiet, PushedOne;
    SettledSlots(Exec(n, blank, schedule));
    PushFrom(n, blank, schedule, tid);
  }

  lemma PopTests<T>(s: State<T>, tid: Tid)
    requires Shape(s) && s.PcOf(tid).PopLoadHead?
    ensures var s', slot := Next(Next(Next(s, Go(tid, false)), Go(tid, false)), Go(tid, false)),
      s.slots[Idx(s.nHead, s.n)];
      && (slot.pushFinishedCount == slot.popFinishedCount ==>
            Quiet(s, s', tid) && s'.PcOf(tid) == Idle
              && s'.failures == s.failures + [PopFailed(tid, s.nTail - s.nHead)])
      && (slot.pushFinishedCount > slot.popFinishedCount == Lap(s.nHead, s.n) ==>
            Quiet(s, s', tid) && s'.failures == s.failures && s'.PcOf(tid) == PopCas(s.nHead, Lap(s.nHead, s.n)))
  {
    hide Idx, Lap;
    var slot := s.slots[Idx(s.nHead, s.n)];
    var s1 := Next(s, Go(tid, false));
    assert Quiet(s, s1, tid) && s1.PcOf(tid) == PopLoadPushCount(s.nHead);
    var s2 := Next(s1, Go(tid, false));
    assert Quiet(s, s2, tid) && s2.PcOf(tid) == PopLoadPopCount(s.nHead, slot.pushFinishedCount);
  }

  lemma PopStores<T>(s: State<T>, tid: Tid)
    requires Shape(s) && s.PcOf(tid).PopCas? && s.PcOf(tid).head == s.nHead < s.nTail
    ensures var s' := Next(Next(Next(s, Go(tid, false)), Go(tid, false)), Go(tid, false));
      && s'.PcOf(tid) == Idle && s'.failures == s.failures && s'.nTail == s.nTail && s'.n == s.n
      && s'.nHead == s.nHead + 1 && s'.pushed == s.pushed
      && s'.results == s.results + [Pop(tid, s.nHead, s.slots[Idx(s.nHead, s.n)].val)]
      && s'.slots
           == s.slots[Idx(s.nHead, s.n) := s.slots[Idx(s.nHead, s.n)].(popFinishedCount := s.PcOf(tid).popCount + 1)]
      && (forall other :: other != tid ==> s'.PcOf(other) == s.PcOf(other))
  {
    hide Idx, Lap;
    var PopCas(head, popCount) := s.PcOf(tid);
    var s1 := Next(s, Go(tid, false));
    assert s1.PcOf(tid) == PopRead(head, popCount) && s1.slots == s.slots;
    var s2 := Next(s1, Go(tid, false));
    assert s2.PcOf(tid) == PopStore(head, popCount, s.slots[Idx(head, s.n)].val) && s2.slots == s.slots;
  }

  /** A pop that runs alone, whatever the other threads are in the middle of, returns false and changes
    nothing if its slot is level, and the oldest element if that has been pushed. */
  lemma PopFrom<T>(n: nat, blank: T, schedule: seq<Step<T>>, tid: Tid)
    requires n > 0 && Exec(n, blank, schedule).PcOf(tid).PopLoadHead?
    ensures var s, s' := Exec(n, blank, schedule), Exec(n, blank, schedule + Alone(tid, 6));
      && (PopBlocked(s) ==>
            && Quiet(s, s', tid) && s'.PcOf(tid) == Idle
            && s'.failures == s.failures + [PopFailed(tid, s.nTail - s.nHead)])
      && (PopReady(s) ==> PoppedOne(s, s', tid))
  {
    hide Next, TicketsOk, ThreadsOk, AllDistinct, LogOk, EventsTrue, Exec, Idx, Lap, Owners, PushBlocked, PushFree,
      PopBlocked, PopReady;
    var s := Exec(n, blank, schedule);
    var go: Step<T> := Go(tid, false);
    AlwaysOwned(n, blank, schedule);
    NextPopSlot(s);
    ReadyNotEmpty(s);
    ExecThree(n, blank, schedule, go);
    PopTests(s, tid);
    var m := Exec(n, blank, schedule + [go, go, go]);
    ExecThree(n, blank, schedule + [go, go, go], go);
    SixIsThreeTwice(schedule, tid);
    if PopBlocked(s) {
      IdleRests(m, tid);
    } else if PopReady(s) {
      ValueReady(s);
      PopStores(m, tid);
    }
  }

  /** Thread `tid` has popped the oldest element, and nothing else has changed. */
  ghost predicate PoppedOne<T>(s: State<T>, s': State<T>, tid: Tid)
    requires Shape(s)
  {
    && !Empty(s)
    && s'.PcOf(tid) == Idle && (forall other :: other != tid ==> s'.PcOf(other) == s.PcOf(other))
    && s'.failures == s.failures && s'.nTail == s.nTail && s'.pushed == s.pushed
    && s'.nHead == s.nHead + 1 && s'.results == s.results + [Pop(tid, s.nHead, s.pushed[s.nHead])]
    && s'.slots == s.slots[Idx(s.nHead, s.n) :=
         s.slots[Idx(s.nHead, s.n)].(popFinishedCount := Lap(s.nHead, s.n) + 1)]
  }

  lemma ReadyNotEmpty<T>(s: State<T>)
    requires Shape(s)
    ensures PopReady(s) ==> !Empty(s)
  {
  }

  /** If moreover no other operation is half done, it returns false just when the queue is empty. */
  lemma PopAlone<T>(n: nat, blank: T, schedule: seq<Step<T>>, tid: Tid)
    requires n > 0 && Exec(n, blank, schedule).PcOf(tid).PopLoadHead? && Settled(Exec(n, blank, schedule))
    ensures var s, s' := Exec(n, blank, schedule), Exec(n, blank, schedule + Alone(tid, 6));
      if Empty(s) then
        Quiet(s, s', tid) && s'.PcOf(tid) == Idle && s'.failures == s.failures + [PopFailed(tid, 0)]
      else PoppedOne(s, s', tid)
  {
    hide TicketsOk, ThreadsOk, AllDistinct, LogOk, EventsTrue, Exec, Owners, PushBlocked, PushFree, PopBlocked,
      PopReady, Settled, Quiet, PoppedOne;
    SettledSlots(Exec(n, blank, schedule));
    PopFrom(n, blank, schedule, tid);
  }

  /** The slot of the oldest element, once pushed, holds it. */
  lemma ValueReady<T>(s: State<T>)
    requires Inv(s) && !Empty(s)
    requires var slot := s.slots[Idx(s.nHead, s.n)];
      slot.pushFinishedCount > slot.popFinishedCount == Lap(s.nHead, s.n)
    ensures s.slots[Idx(s.nHead, s.n)].val == s.pushed[s.nHead]
  {
    assert TicketOk(s, s.nHead);
  }

  // ---- An operation that cannot end by itself ----

  /** Another thread is still pushing the ticket one lap before the next. */
  ghost predicate PushStalled<T>(s: State<T>) { s.n <= s.nTail && BeingPushed(s, s.nTail - s.n) }

  /** Another thread is still popping the ticket one lap before the next. */
  ghost predicate PopStalled<T>(s: State<T>) { s.n <= s.nHead && BeingPopped(s, s.nHead - s.n) }

  lemma PushCases<T>(s: State<T>)
    requires Inv(s) && Owners(s)
    ensures PushStalled(s) <==> !PushBlocked(s) && !PushFree(s)
  {
    hide Idx, Lap, BeingPushed, BeingPopped, ThreadsOk, AllDistinct, LogOk, Owners;
    if s.n <= s.nTail {
      InHands(s, s.nTail - s.n);
      assert TicketOk(s, s.nTail - s.n);
    }
  }

  lemma PopCases<T>(s: State<T>)
    requires Inv(s) && Owners(s)
    ensures PopStalled(s) <==> !PopBlocked(s) && !PopReady(s)
  {
    hide Idx, Lap, BeingPushed, BeingPopped, ThreadsOk, AllDistinct, LogOk, Owners;
    assert TicketOk(s, s.nHead);
    if s.nHead < s.nTail {
      InHands(s, s.nHead);
    }
    if s.n <= s.nHead {
      LapBefore(s.nHead, s.n);
      InHands(s, s.nHead - s.n);
    }
  }

  /** At one of the three loads of a push, with values that are up to date. */
  ghost predicate PushSpins<T>(s: State<T>, s': State<T>, tid: Tid, element: T)
    requires Shape(s)
  {
    && Quiet(s, s', tid) && s'.failures == s.failures
    && (|| s'.PcOf(tid) == PushLoadTail(element)
        || s'.PcOf(tid) == PushLoadPushCount(element, s.nTail)
        || s'.PcOf(tid) == PushLoadPopCount(element, s.nTail, s.slots[Idx(s.nTail, s.n)].pushFinishedCount))
  }

  lemma PushSpinsOn<T>(s: State<T>, s': State<T>, tid: Tid, element: T)
    requires Shape(s) && PushSpins(s, s', tid, element)
    requires var slot := s.slots[Idx(s.nTail, s.n)];
      slot.pushFinishedCount <= slot.popFinishedCount && slot.pushFinishedCount != Lap(s.nTail, s.n)
    ensures PushSpins(s, Next(s', Go(tid, false)), tid, element)
  {
    hide Idx, Lap;
  }

  ghost predicate PopSpins<T>(s: State<T>, s': State<T>, tid: Tid)
    requires Shape(s)
  {
    && Quiet(s, s', tid) && s'.failures == s.failures
    && (|| s'.PcOf(tid) == PopLoadHead
        || s'.PcOf(tid) == PopLoadPushCount(s.nHead)
        || s'.PcOf(tid) == PopLoadPopCount(s.nHead, s.slots[Idx(s.nHead, s.n)].pushFinishedCount))
  }

  lemma PopSpinsOn<T>(s: State<T>, s': State<T>, tid: Tid)
    requires Shape(s) && PopSpins(s, s', tid)
    requires var slot := s.slots[Idx(s.nHead, s.n)];
      slot.pushFinishedCount != slot.popFinishedCount && slot.popFinishedCount != Lap(s.nHead, s.n)
    ensures PopSpins(s, Next(s', Go(tid, false)), tid)
  {
    hide Idx, Lap;
  }

  lemma OneMoreAlone<T>(n: nat, blank: T, schedule: seq<Step<T>>, tid: Tid, k: nat)
    requires n > 0
    ensures Exec(n, blank, schedule + Alone(tid, k + 1))
      == Next(Exec(n, blank, schedule + Alone(tid, k)), Go(tid, false))
  {
    hide Exec, Next, TicketsOk, ThreadsOk, AllDistinct, LogOk, EventsTrue;
    var go: Step<T> := Go(tid, false);
    assert schedule + Alone(tid, k + 1) == schedule + Alone(tid, k) + [go];
    ExecOneMore(n, blank, schedule + Alone(tid, k), go);
  }

  lemma {:induction false} PushStalls<T>(n: nat, blank: T, schedule: seq<Step<T>>, tid: Tid, k: nat)
    requires n > 0 && Exec(n, blank, schedule).PcOf(tid).PushLoadTail? && PushStalled(Exec(n, blank, schedule))
    ensures var s, s' := Exec(n, blank, schedule), Exec(n, blank, schedule + Alone(tid, k));
      PushSpins(s, s', tid, s.PcOf(tid).element)
  {
    hide Exec, Next, TicketsOk, ThreadsOk, AllDistinct, LogOk, EventsTrue, Idx, Lap, Owners, PushStalled, PushBlocked,
      PushFree;
    var s := Exec(n, blank, schedule);
    if k == 0 {
      assert schedule + Alone(tid, 0) == schedule;
    } else {
      PushStalls(n, blank, schedule, tid, k - 1);
      OneMoreAlone(n, blank, schedule, tid, k - 1);
      AlwaysOwned(n, blank, schedule);
      PushCases(s);
      NextPushSlot(s);
      CountersLevel(s, s.nTail);
      PushSpinsOn(s, Exec(n, blank, schedule + Alone(tid, k - 1)), tid, s.PcOf(tid).element);
    }
  }

  lemma CountersLevel<T>(s: State<T>, t: nat)
    requires Inv(s)
    ensures s.slots[Idx(t, s.n)].popFinishedCount <= s.slots[Idx(t, s.n)].pushFinishedCount
  {
    assert TicketOk(s, t);
  }

  lemma {:induction false} PopStalls<T>(n: nat, blank: T, schedule: seq<Step<T>>, tid: Tid, k: nat)
    requires n > 0 && Exec(n, blank, schedule).PcOf(tid).PopLoadHead? && PopStalled(Exec(n, blank, schedule))
    ensures var s, s' := Exec(n, blank, schedule), Exec(n, blank, schedule + Alone(tid, k));
      PopSpins(s, s', tid)
  {
    hide Exec, Next, TicketsOk, ThreadsOk, AllDistinct, LogOk, EventsTrue, Idx, Lap, Owners, PopStalled, PopBlocked,
      PopReady;
    var s := Exec(n, blank, schedule);
    if k == 0 {
      assert schedule + Alone(tid, 0) == schedule;
    } else {
      PopStalls(n, blank, schedule, tid, k - 1);
      OneMoreAlone(n, blank, schedule, tid, k - 1);
      AlwaysOwned(n, blank, schedule);
      PopCases(s);
      NextPopSlot(s);
      CountersLevel(s, s.nHead);
      PopSpinsOn(s, Exec(n, blank, schedule + Alone(tid, k - 1)), tid);
    }
  }

  /** A push that runs alone ever returns just when no other thread is still pushing the ticket one lap
    before. The queue blocks there: it waits for that thread. */
  lemma PushReturnsIff<T>(n: nat, blank: T, schedule: seq<Step<T>>, tid: Tid)
    requires n > 0 && Exec(n, blank, schedule).PcOf(tid).PushLoadTail?
    ensures (exists k: nat :: Exec(n, blank, schedule + Alone(tid, k)).PcOf(tid) == Idle) <==>
      !PushStalled(Exec(n, blank, schedule))
  {
    hide Exec, TicketsOk, ThreadsOk, AllDistinct, LogOk, EventsTrue, Owners, PushStalled, PushBlocked, PushFree;
    AlwaysOwned(n, blank, schedule);
    PushCases(Exec(n, blank, schedule));
    if PushStalled(Exec(n, blank, schedule)) {
      forall k: nat ensures Exec(n, blank, schedule + Alone(tid, k)).PcOf(tid) != Idle {
        PushStalls(n, blank, schedule, tid, k);
      }
    } else {
      PushFrom(n, blank, schedule, tid);
      assert Exec(n, blank, schedule + Alone(tid, 6)).PcOf(tid) == Idle;
    }
  }

  /** And a pop just when no other thread is still popping the ticket one lap before. */
  lemma PopReturnsIff<T>(n: nat, blank: T, schedule: seq<Step<T>>, tid: Tid)
    requires n > 0 && Exec(n, blank, schedule).PcOf(tid).PopLoadHead?
    ensures (exists k: nat :: Exec(n, blank, schedule + Alone(tid, k)).PcOf(tid) == Idle) <==>
      !PopStalled(Exec(n, blank, schedule))
  {
    hide Exec, TicketsOk, ThreadsOk, AllDistinct, LogOk, EventsTrue, Owners, PopStalled, PopBlocked, PopReady;
    AlwaysOwned(n, blank, schedule);
    PopCases(Exec(n, blank, schedule));
    if PopStalled(Exec(n, blank, schedule)) {
      forall k: nat ensures Exec(n, blank, schedule + Alone(tid, k)).PcOf(tid) != Idle {
        PopStalls(n, blank, schedule, tid, k);
      }
    } else {
      PopFrom(n, blank, schedule, tid);
      assert Exec(n, blank, schedule + Alone(tid, 6)).PcOf(tid) == Idle;
    }
  }

  /** That can happen: with one slot, thread 1 holds ticket 0 while thread 2 wants to push. */
  lemma PushCanStall() returns (schedule: seq<Step<int>>)
    ensures var s := Exec(1, 0, schedule); s.PcOf(2).PushLoadTail? && PushStalled(s)
  {
    hide TicketsOk, ThreadsOk, AllDistinct, LogOk, EventsTrue, Exec;
    schedule := OneHalfPushed();
    schedule := OneStep(schedule, CallPush(2, 20));
    assert Pushes(Exec(1, 0, schedule), 1, 0);
  }

  lemma OneHalfPushed() returns (schedule: seq<Step<int>>)
    ensures var s := Exec(1, 0, schedule);
      s.PcOf(1) == PushWrite(10, 0, 0) && s.PcOf(2) == Idle && s.nTail == 1 && s.n == 1
  {
    hide TicketsOk, ThreadsOk, AllDistinct, LogOk, EventsTrue, Exec, Idx, Lap;
    ExecLast(1, 0, []);
    FirstLap(0, 1);
    schedule := OneStep([], CallPush(1, 10));
    schedule := OneStep(schedule, Go(1, false));
    schedule := OneStep(schedule, Go(1, false));
    assert Exec(1, 0, schedule).PcOf(1) == PushLoadPopCount(10, 0, 0);
    schedule := OneStep(schedule, Go(1, false));
    schedule := OneStep(schedule, Go(1, false));
  }

  lemma OneStep(before: seq<Step<int>>, step: Step<int>) returns (schedule: seq<Step<int>>)
    ensures Exec(1, 0, schedule) == Next(Exec(1, 0, before), step)
  {
    ExecOneMore(1, 0, before, step);
    schedule := before + [step];
  }

  // ---- Stale tickets ----

  /** A call, or the first load of a pop, goes on to the next place in the code and touches nothing. */
  lemma FirstSteps<T>(n: nat, blank: T, schedule: seq<Step<T>>, step: Step<T>)
    requires n > 0 && Settled(Exec(n, blank, schedule))
    requires var pc := Exec(n, blank, schedule).PcOf(step.tid); if step.Go? then pc == PopLoadHead else pc == Idle
    ensures var s, s' := Exec(n, blank, schedule), Exec(n, blank, schedule + [step]);
      && Quiet(s, s', step.tid) && s'.failures == s.failures && Settled(s')
      && s'.PcOf(step.tid) == match step
         case CallPush(_, element) => PushLoadTail(element)
         case CallPop(_) => PopLoadHead
         case Go(_, _) => PopLoadPushCount(s.nHead)
  {
    hide TicketsOk, ThreadsOk, AllDistinct, LogOk, EventsTrue, Exec;
    ExecOneMore(n, blank, schedule, step);
    StaysSettled(Exec(n, blank, schedule), Exec(n, blank, schedule + [step]), step.tid);
  }

  lemma StaysSettled<T>(s: State<T>, s': State<T>, tid: Tid)
    requires Settled(s) && !Pushing(s'.PcOf(tid)) && !Popping(s'.PcOf(tid))
    requires forall other :: other != tid ==> s'.PcOf(other) == s.PcOf(other)
    ensures Settled(s')
  {
  }

  /** A push that finds the slot of its ticket, however old, taken gives up in two steps. */
  lemma StalePushFails<T>(n: nat, blank: T, schedule: seq<Step<T>>, tid: Tid)
    requires n > 0
    requires Exec(n, blank, schedule).PcOf(tid).PushLoadPushCount?
    requires var s := Exec(n, blank, schedule);
      var slot := s.slots[Idx(s.PcOf(tid).tail, n)];
      slot.pushFinishedCount > slot.popFinishedCount
    ensures var s := Exec(n, blank, schedule);
      Exec(n, blank, schedule + [Go(tid, false)] + [Go(tid, false)]).failures
        == s.failures + [PushFailed(tid, s.nTail - s.nHead)]
  {
    hide TicketsOk, ThreadsOk, AllDistinct, LogOk, EventsTrue, Exec, Idx, Lap;
    ExecOneMore(n, blank, schedule, Go(tid, false));
    ExecOneMore(n, blank, schedule + [Go(tid, false)], Go(tid, false));
  }

  lemma StalePopFails<T>(n: nat, blank: T, schedule: seq<Step<T>>, tid: Tid)
    requires n > 0
    requires Exec(n, blank, schedule).PcOf(tid).PopLoadPushCount?
    requires var s := Exec(n, blank, schedule);
      var slot := s.slots[Idx(s.PcOf(tid).head, n)];
      slot.pushFinishedCount == slot.popFinishedCount
    ensures var s := Exec(n, blank, schedule);
      Exec(n, blank, schedule + [Go(tid, false)] + [Go(tid, false)]).failures
        == s.failures + [PopFailed(tid, s.nTail - s.nHead)]
  {
    hide TicketsOk, ThreadsOk, AllDistinct, LogOk, EventsTrue, Exec, Idx, Lap;
    ExecOneMore(n, blank, schedule, Go(tid, false));
    ExecOneMore(n, blank, schedule + [Go(tid, false)], Go(tid, false));
  }

  lemma FirstState()
    ensures var s := Exec(2, 0, []);
      && s.nHead == s.nTail == 0 && s.slots == [Slot(0, 0, 0), Slot(0, 0, 0)] && s.failures == [] && s.pcs == map[]
      && Settled(s)
  {
  }

  /** A stale ticket can make a push fail on a queue that is not full: thread 1 loads ticket 0, which
    thread 2 then takes. */
  lemma PushMayFailSpuriously()
    ensures exists schedule: seq<Step<int>> :: Exec(2, 0, schedule).failures == [PushFailed(1, 1)]
  {
    hide TicketsOk, ThreadsOk, AllDistinct, LogOk, EventsTrue, Exec, Next;
    var schedule := Overtaken();
    PushAlone(2, 0, schedule, 2);
    StalePushFails(2, 0, schedule + Alone(2, 6), 1);
  }

  lemma Overtaken() returns (schedule: seq<Step<int>>)
    ensures var s := Exec(2, 0, schedule);
      && s.PcOf(1) == PushLoadPushCount(10, 0) && s.PcOf(2) == PushLoadTail(20)
      && s.nHead == s.nTail == 0 && s.slots == [Slot(0, 0, 0), Slot(0, 0, 0)] && s.failures == [] && Settled(s)
  {
    hide TicketsOk, ThreadsOk, AllDistinct, LogOk, EventsTrue, Exec;
    FirstState();
    FirstSteps(2, 0, [], CallPush(1, 10));
    schedule := [] + [CallPush(1, 10)];
    ExecOneMore(2, 0, schedule, Go(1, false));
    StaysSettled(Exec(2, 0, schedule), Exec(2, 0, schedule + [Go(1, false)]), 1);
    schedule := schedule + [Go(1, false)];
    FirstSteps(2, 0, schedule, CallPush(2, 20));
    schedule := schedule + [CallPush(2, 20)];
  }

  /** And it can make a pop fail on a queue that is not empty: of two elements, thread 2 pops the first,
    with the ticket that thread 1 has loaded. */
  lemma PopMayFailSpuriously()
    ensures exists schedule: seq<Step<int>> :: Exec(2, 0, schedule).failures == [PopFailed(1, 1)]
  {
    hide TicketsOk, ThreadsOk, AllDistinct, LogOk, EventsTrue, Exec, Next;
    var schedule := TwoPushed();
    FirstSteps(2, 0, schedule, CallPop(1));
    schedule := schedule + [CallPop(1)];
    FirstSteps(2, 0, schedule, Go(1, false));
    schedule := schedule + [Go(1, false)];
    FirstSteps(2, 0, schedule, CallPop(2));
    schedule := schedule + [CallPop(2)];
    PopAlone(2, 0, schedule, 2);
    StalePopFails(2, 0, schedule + Alone(2, 6), 1);
  }

  lemma TwoPushed() returns (schedule: seq<Step<int>>)
    ensures var s := Exec(2, 0, schedule);
      && s.PcOf(1) == s.PcOf(2) == Idle && s.nHead == 0 && s.nTail == 2
      && s.slots[0] == Slot(1, 0, 10) && s.failures == [] && Settled(s)
  {
    hide TicketsOk, ThreadsOk, AllDistinct, LogOk, EventsTrue, Exec, Next;
    FirstState();
    schedule := OnePushed([], 2, 10);
    schedule := OnePushed(schedule, 2, 20);
  }

  lemma OnePushed(before: seq<Step<int>>, tid: Tid, element: int) returns (schedule: seq<Step<int>>)
    requires var s := Exec(2, 0, before); s.PcOf(tid) == Idle && !Full(s) && Settled(s)
    ensures var s, s' := Exec(2, 0, before), Exec(2, 0, schedule);
      && s'.PcOf(tid) == Idle && (forall other :: other != tid ==> s'.PcOf(other) == s.PcOf(other)) && Settled(s')
      && s'.nHead == s.nHead && s'.nTail == s.nTail + 1 && s'.failures == s.failures
      && s'.slots == s.slots[Idx(s.nTail, 2) :=
           s.slots[Idx(s.nTail, 2)].(val := element, pushFinishedCount := Lap(s.nTail, 2) + 1)]
  {
    hide TicketsOk, ThreadsOk, AllDistinct, LogOk, EventsTrue, Exec, Next, Idx, Lap;
    FirstSteps(2, 0, before, CallPush(tid, element));
    PushAlone(2, 0, before + [CallPush(tid, element)], tid);
    schedule := before + [CallPush(tid, element)] + Alone(tid, 6);
    StaysSettled(Exec(2, 0, before), Exec(2, 0, schedule), tid);
  }
}

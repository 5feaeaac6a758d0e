/** What the loops of a server must do, beside what they must not: each step of each loop, and what the steps
  add up to.
*/
module ServerLaws {
  import opened Options
  import opened ServerLifecycle

  // ---- Steps ----

  /** What a step does to one connection: the end of the stream and the functors of its own looper change it,
    nothing else does. */
  lemma ConnStep(s: State, step: Step, c: ConnId)
    requires Inv(s) && Enabled(s, step) && c < |s.conns|
    ensures var k, s' := s.conns[c], Next(s, step);
      && |s.conns| <= |s'.conns|
      && s'.conns[c] ==
           if step == Read(c, true) then
             k.(status := DISCONNECTING, eofs := k.eofs + 1,
                closes := k.closes + if k.status == CONNECTED then 1 else 0)
           else if step == RunOne(Follower(k.looper)) && s.followers[k.looper].batch[0] == Established(c) then
             k.(status := CONNECTED, inLoop := true, connects := k.connects + 1)
           else if step == RunOne(Follower(k.looper)) && s.followers[k.looper].batch[0] == Destroyed(c) then
             k.(status := DISCONNECTED, inLoop := false, destroys := k.destroys + 1,
                closes := k.closes + if k.status == CONNECTED then 1 else 0)
           else k
  {
    hide LivesOk, Queues, RunFunctor, Shape;
    if step.RunOne? {
      RunConn(s, step.who, c);
    }
  }

  lemma RunConn(s: State, who: Who, c: ConnId)
    requires Inv(s) && Enabled(s, RunOne(who)) && c < |s.conns|
    ensures var k, f, s' := s.conns[c], LoopOf(s, who).batch[0], Next(s, RunOne(who));
      && |s.conns| == |s'.conns| && s'.currIndex == s.currIndex && |s'.followers| == |s.followers|
      && ((f == Established(c) || f == Destroyed(c)) ==> who == Follower(k.looper))
      && s'.conns[c] ==
           if f == Established(c) then k.(status := CONNECTED, inLoop := true, connects := k.connects + 1)
           else if f == Destroyed(c) then
             k.(status := DISCONNECTED, inLoop := false, destroys := k.destroys + 1,
                closes := k.closes + if k.status == CONNECTED then 1 else 0)
           else k
  {
    RunsAtHome(s, who);
    hide LivesOk, Queues, Shape;
  }

  /** The leader runs removals only, a follower functors of its own connections. */
  lemma RunsAtHome(s: State, who: Who)
    requires Inv(s) && Enabled(s, RunOne(who))
    ensures var f := LoopOf(s, who).batch[0];
      match who
      case Leader => f.RemoveInLoop?
      case Follower(i) =>
        f == Quit || ((f.Established? || f.Destroyed?) && f.conn < |s.conns| && s.conns[f.conn].looper == i)
  {
    var l := LoopOf(s, who);
    assert l.batch[0] in l.Pending();
    if who.Follower? {
      QueuesCount(s);
      assert Home(s.conns, who.i, l.batch[0]);
    }
  }

  /** What the end of a stream, a removal, an accept, or the end of the server adds to the functors of a loop. */
  function Pushed(s: State, step: Step, who: Who): seq<Functor>
    requires Enabled(s, step) && HasLoop(s, who)
  {
    match step
    case Accept(_) => if who == Follower(s.currIndex) then [Established(|s.conns|)] else []
    case Read(c, true) => if who == Leader then [RemoveInLoop(c)] else []
    case RunOne(Leader) =>
      var f := s.leader.batch[0];
      if f.RemoveInLoop? && who == Follower(s.conns[f.conn].looper) then [Destroyed(f.conn)] else []
    case DestructOne(c) => if who == Follower(s.conns[c].looper) then [Destroyed(c)] else []
    case QuitFollowers => if who.Follower? then [Quit] else []
    case _ => []
  }

  /** Functors run in the order in which they were pushed: a loop's own running takes the first, pushes go to
    the end, and nothing else changes what a loop has still to run. */
  lemma QueueStep(s: State, step: Step, who: Who)
    requires Inv(s) && Enabled(s, step) && HasLoop(s, who)
    ensures var s' := Next(s, step);
      && HasLoop(s', who)
      && LoopOf(s', who).Pending() ==
           (if step == RunOne(who) then LoopOf(s, who).Pending()[1..] else LoopOf(s, who).Pending())
           + Pushed(s, step, who)
  {
    hide LivesOk, Queues, RunFunctor, Shape;
    var l := LoopOf(s, who);
    NoBatch(s, who);
    NoPush(l);
    if l.batch != [] {
      PopPush(l);
    }
    match step
    case Accept(_) => PushOne(l, Established(|s.conns|));
    case Read(c, _) => PushOne(l, RemoveInLoop(c));
    case RunOne(runner) => RunQueue(s, runner, who);
    case DestructOne(c) => PushOne(l, Destroyed(c));
    case QuitFollowers => PushOne(l, Quit);
    case _ =>
  }

  lemma RunQueue(s: State, runner: Who, who: Who)
    requires Inv(s) && Enabled(s, RunOne(runner)) && HasLoop(s, who)
    ensures var step, s' := RunOne(runner), Next(s, RunOne(runner));
      && HasLoop(s', who)
      && LoopOf(s', who).Pending() ==
           (if runner == who then LoopOf(s, who).Pending()[1..] else LoopOf(s, who).Pending()) + Pushed(s, step, who)
  {
    RunsAtHome(s, runner);
    hide LivesOk, Queues, Shape;
    var l, f := LoopOf(s, who), LoopOf(s, runner).batch[0];
    NoPush(l);
    if runner == who {
      PopPush(l);
    } else if f.RemoveInLoop? {
      PushOne(l, Destroyed(f.conn));
    }
  }

  lemma NoBatch(s: State, who: Who)
    requires Inv(s) && HasLoop(s, who)
    ensures LoopOf(s, who).phase != Draining ==> LoopOf(s, who).Pending() == LoopOf(s, who).functors
  {
  }

  lemma PushOne(l: Loop, f: Functor)
    ensures l.Push(f).Pending() == l.Pending() + [f]
  {
  }

  lemma NoPush(l: Loop)
    ensures l.Pending() + [] == l.Pending()
    ensures l.(phase := Draining, batch := l.functors, functors := []).Pending() == l.functors
  {
  }

  lemma PopPush(l: Loop)
    requires l.batch != []
    ensures l.(batch := l.batch[1..]).Pending() == l.Pending()[1..]
  {
  }

  /** A loop takes what it has to run as one batch after handling events, goes back to its events when the batch
    is done, and ends then if it was told to quit. */
  lemma LoopStep(s: State, step: Step, who: Who)
    requires Inv(s) && Enabled(s, step) && HasLoop(s, who)
    ensures var l, l' := LoopOf(s, who), LoopOf(Next(s, step), who);
      && l'.phase ==
           (if step == BeginDrain(who) then Draining
            else if step == EndDrain(who) then (if l.loopFlag then Handling else Exited)
            else l.phase)
      && l'.loopFlag == (l.loopFlag && step != Shutdown(who) && !(step == RunOne(who) && l.batch[0] == Quit))
      && (step == BeginDrain(who) ==> l'.functors == [])
  {
    if step.RunOne? {
      RunsAtHome(s, step.who);
    }
    hide LivesOk, Queues;
  }

  // ---- Runs ----

  /** The follower whose turn it is after follower `i`. */
  function NextLoop(i: nat, threads: nat): nat { if i + 1 < threads then i + 1 else 0 }

  /** Connections are given to the followers in turn, from the first on. */
  ghost predicate InTurn(threads: nat, s: State) {
    && |s.followers| == threads
    && s.currIndex == (if s.conns == [] then 0 else NextLoop(s.conns[|s.conns| - 1].looper, threads))
    && (forall c :: 0 <= c < |s.conns| ==> ItsTurn(threads, s.conns, c))
  }

  predicate ItsTurn(threads: nat, conns: seq<Conn>, c: ConnId)
    requires c < |conns|
  {
    conns[c].looper == if c == 0 then 0 else NextLoop(conns[c - 1].looper, threads)
  }

  /** The close callback has run just when the connection has seen the end of its stream or been destroyed. */
  ghost predicate ClosedOnce(k: Conn) {
    && k.closes == (if k.eofs + k.destroys > 0 then 1 else 0)
    && (k.connects == 1 && k.eofs + k.destroys == 0 ==> k.status == CONNECTED)
    && (k.eofs + k.destroys > 0 ==> k.status != CONNECTED && k.connects == 1)
  }

  /** No descriptor stays open that no living connection has. */
  ghost predicate NoneLeaks(s: State) {
    forall fd :: fd in s.openFds ==> exists c :: 0 <= c < |s.conns| && s.conns[c].fd == fd && s.conns[c].destroys == 0
  }

  lemma SameServer(s: State, step: Step)
    requires Inv(s) && Enabled(s, step)
    ensures var s' := Next(s, step);
      && |s'.followers| == |s.followers|
      && (!step.Accept? ==> |s'.conns| == |s.conns| && s'.currIndex == s.currIndex)
      && (step.Accept? ==>
            && s'.conns == s.conns + [Conn(step.fd, s.currIndex, CONNECTING, false, 0, 0, 0, 0)]
            && s'.currIndex == NextLoop(s.currIndex, |s.followers|)
            && s'.connpool == s.connpool[step.fd := |s.conns|] && s'.openFds == s.openFds + {step.fd})
  {
    hide LivesOk, Queues, Shape;
  }

  lemma TurnStep(threads: nat, s: State, step: Step)
    requires Inv(s) && Enabled(s, step) && InTurn(threads, s)
    ensures InTurn(threads, Next(s, step))
  {
    hide Inv, Next, Enabled;
    var s' := Next(s, step);
    SameServer(s, step);
    forall c | 0 <= c < |s.conns| ensures s'.conns[c].looper == s.conns[c].looper { ConnStep(s, step, c); }
    forall c | 0 <= c < |s'.conns|
      ensures ItsTurn(threads, s'.conns, c)
    {
      if c < |s.conns| {
        assert ItsTurn(threads, s.conns, c);
      }
    }
  }

  lemma ClosedStep(s: State, step: Step, c: ConnId)
    requires Inv(s) && Enabled(s, step) && c < |s.conns| && ClosedOnce(s.conns[c])
    ensures c < |Next(s, step).conns| && ClosedOnce(Next(s, step).conns[c])
  {
    hide Next;
    ConnStep(s, step, c);
    LifeOf(s, c);
    if step == RunOne(Follower(s.conns[c].looper)) {
      RunsLife(s, step.who.i, c);
    }
  }

  lemma LifeOf(s: State, c: ConnId)
    requires Inv(s) && c < |s.conns|
    ensures var k := s.conns[c];
      && k.looper < |s.followers| && k.connects <= 1
      && (k.connects == 0 ==> k.status == CONNECTING && !k.inLoop && k.closes == 0 && k.eofs == 0 && k.destroys == 0)
      && (k.inLoop ==> k.connects == 1)
  {
    QueuesCount(s);
    assert LifeOk(s.conns[c], Queues(s)[s.conns[c].looper], c);
  }

  /** A connection is established once, and destroyed only after that. */
  lemma RunsLife(s: State, i: nat, c: ConnId)
    requires Inv(s) && Enabled(s, RunOne(Follower(i))) && c < |s.conns|
    ensures var f := s.followers[i].batch[0];
      && (f == Established(c) ==> s.conns[c].connects == 0)
      && (f == Destroyed(c) ==> s.conns[c].connects == 1)
  {
    RunsAtHome(s, Follower(i));
    QueuesCount(s);
    var q := s.followers[i].Pending();
    if s.conns[c].looper == i {
      assert LifeOk(s.conns[c], q, c);
      if q[0] == Established(c) {
        LifePopEstablished(s.conns[c], q, c);
      } else {
        LifePopOther(s.conns[c], q, c);
      }
    }
  }

  lemma LeakStep(s: State, step: Step)
    requires Inv(s) && Enabled(s, step) && NoneLeaks(s)
    ensures NoneLeaks(Next(s, step))
  {
    hide Inv, Next, Enabled;
    var s' := Next(s, step);
    SameServer(s, step);
    forall fd | fd in s'.openFds
      ensures exists c :: 0 <= c < |s'.conns| && s'.conns[c].fd == fd && s'.conns[c].destroys == 0
    {
      if step.Accept? && fd == step.fd {
        assert s'.conns[|s.conns|].fd == fd;
      } else {
        OpenFds(s, step);
        var c :| 0 <= c < |s.conns| && s.conns[c].fd == fd && s.conns[c].destroys == 0;
        ConnStep(s, step, c);
        assert s'.conns[c].fd == fd && s'.conns[c].destroys == 0;
      }
    }
  }

  /** A descriptor is closed just when a connection that has it is destroyed. */
  lemma OpenFds(s: State, step: Step)
    requires Inv(s) && Enabled(s, step)
    ensures Next(s, step).openFds ==
      if step.Accept? then s.openFds + {step.fd}
      else if step.RunOne? && LoopOf(s, step.who).batch[0].Destroyed? then
        s.openFds - {s.conns[LoopOf(s, step.who).batch[0].conn].fd}
      else s.openFds
  {
    if step.RunOne? {
      RunsAtHome(s, step.who);
    }
    hide LivesOk, Queues, Shape;
  }

  lemma LastStep(threads: nat, schedule: seq<Step>)
    requires threads > 0 && Allowed(threads, schedule) && schedule != []
    ensures var init, last := schedule[..|schedule| - 1], schedule[|schedule| - 1];
      && Allowed(threads, init) && Enabled(After(threads, init), last)
      && After(threads, schedule) == Next(After(threads, init), last) && Inv(After(threads, init))
  {
    AlwaysInv(threads, schedule[..|schedule| - 1]);
  }

  lemma Start(threads: nat)
    requires threads > 0
    ensures Allowed(threads, []) && After(threads, []) == Init(threads) && InTurn(threads, Init(threads))
    ensures NoneLeaks(Init(threads))
  {
  }

  /** In every run, however often the peers close: connections are given to the followers in turn; a connection
    that has seen the end of its stream, or has been destroyed, has run its close callback, once, and no other
    has; and no descriptor stays open once its connection is destroyed. */
  lemma {:induction false} AlwaysInTurn(threads: nat, schedule: seq<Step>)
    requires threads > 0 && Allowed(threads, schedule)
    ensures var s := After(threads, schedule);
      && InTurn(threads, s) && NoneLeaks(s)
      && forall c :: 0 <= c < |s.conns| ==> ClosedOnce(s.conns[c])
  {
    hide After, Allowed, Inv, Enabled, Next, InTurn, NoneLeaks, ClosedOnce;
    if schedule == [] {
      Start(threads);
      assert Init(threads).conns == [];
    } else {
      var init, last := schedule[..|schedule| - 1], schedule[|schedule| - 1];
      LastStep(threads, schedule);
      AlwaysInTurn(threads, init);
      var s, s' := After(threads, init), After(threads, schedule);
      TurnStep(threads, s, last);
      LeakStep(s, last);
      SameServer(s, last);
      forall c | 0 <= c < |s'.conns| ensures ClosedOnce(s'.conns[c]) {
        if c < |s.conns| {
          ClosedStep(s, last, c);
        } else {
          NewNotClosed(s'.conns[c]);
        }
      }
    }
  }

  lemma NewNotClosed(k: Conn)
    requires k == Conn(k.fd, k.looper, CONNECTING, false, 0, 0, 0, 0)
    ensures ClosedOnce(k)
  {
  }

  // ---- Nothing is forgotten ----

  /** How often a connection has read the end of its stream, or been visited by the destructor of the server. */
  function Endings(schedule: seq<Step>, c: ConnId): nat {
    if schedule == [] then 0
    else
      var last := schedule[|schedule| - 1];
      Endings(schedule[..|schedule| - 1], c) + if last == Read(c, true) || last == DestructOne(c) then 1 else 0
  }

  /** How often it is still to be removed from the pool, still to be destroyed, and has been destroyed. */
  function Handled(s: State, c: ConnId): nat
    requires c < |s.conns| && s.conns[c].looper < |s.followers|
  {
    Left(s.leader.Pending(), RemoveInLoop(c)) + Left(s.followers[s.conns[c].looper].Pending(), Destroyed(c))
    + s.conns[c].destroys
  }

  lemma HandledStep(s: State, step: Step, c: ConnId)
    requires Inv(s) && Enabled(s, step) && c < |s.conns|
    ensures s.conns[c].looper < |s.followers|
    ensures var s' := Next(s, step);
      && c < |s'.conns| && s'.conns[c].looper < |s'.followers|
      && Handled(s', c) == Handled(s, c) + if step == Read(c, true) || step == DestructOne(c) then 1 else 0
  {
    LifeOf(s, c);
    SameServer(s, step);
    ConnStep(s, step, c);
    hide Inv, Next, Pushed, Left, Enabled;
    PushesFor(s, step, c);
    Counted(s, step, Leader, RemoveInLoop(c));
    Counted(s, step, Follower(s.conns[c].looper), Destroyed(c));
    if step.RunOne? {
      AtHome(s, step.who, c);
    }
  }

  lemma AtHome(s: State, who: Who, c: ConnId)
    requires Inv(s) && Enabled(s, RunOne(who)) && c < |s.conns|
    ensures HasLoop(s, who) && LoopOf(s, who).batch != []
    ensures LoopOf(s, who).batch[0] == Destroyed(c) ==> who == Follower(s.conns[c].looper)
    ensures LoopOf(s, who).batch[0] == RemoveInLoop(c) ==> who == Leader
  {
    RunsAtHome(s, who);
  }

  lemma LeftOfOne(q: seq<Functor>, f: Functor)
    requires |q| <= 1
    ensures Left(q, f) == if q == [f] then 1 else 0
  {
  }

  lemma PushedAtMostOne(s: State, step: Step, who: Who)
    requires Enabled(s, step) && HasLoop(s, who)
    ensures |Pushed(s, step, who)| <= 1
  {
    hide Enabled;
  }

  /** What a step pushes for one connection. */
  lemma PushesFor(s: State, step: Step, c: ConnId)
    requires Inv(s) && Enabled(s, step) && c < |s.conns| && s.conns[c].looper < |s.followers|
    ensures Left(Pushed(s, step, Leader), RemoveInLoop(c)) == if step == Read(c, true) then 1 else 0
    ensures Left(Pushed(s, step, Follower(s.conns[c].looper)), Destroyed(c)) ==
      if step == DestructOne(c) || (step == RunOne(Leader) && s.leader.batch[0] == RemoveInLoop(c)) then 1 else 0
  {
    hide Inv, Left;
    PushedAtMostOne(s, step, Leader);
    PushedAtMostOne(s, step, Follower(s.conns[c].looper));
    LeftOfOne(Pushed(s, step, Leader), RemoveInLoop(c));
    LeftOfOne(Pushed(s, step, Follower(s.conns[c].looper)), Destroyed(c));
    RemovalPushed(s, step, c);
    DestroyPushed(s, step, c);
  }

  lemma RemovalPushed(s: State, step: Step, c: ConnId)
    requires Enabled(s, step)
    ensures Pushed(s, step, Leader) == [RemoveInLoop(c)] <==> step == Read(c, true)
  {
    hide Enabled;
  }

  lemma DestroyPushed(s: State, step: Step, c: ConnId)
    requires Enabled(s, step) && c < |s.conns| && s.conns[c].looper < |s.followers|
    ensures Pushed(s, step, Follower(s.conns[c].looper)) == [Destroyed(c)] <==>
      step == DestructOne(c) || (step == RunOne(Leader) && s.leader.batch[0] == RemoveInLoop(c))
  {
  }

  /** How a step changes what is still to run of one functor. */
  lemma Counted(s: State, step: Step, who: Who, f: Functor)
    requires Inv(s) && Enabled(s, step) && HasLoop(s, who)
    ensures HasLoop(Next(s, step), who)
    ensures Left(LoopOf(Next(s, step), who).Pending(), f) ==
      Left(LoopOf(s, who).Pending(), f) + Left(Pushed(s, step, who), f)
      - if step == RunOne(who) && LoopOf(s, who).batch[0] == f then 1 else 0
  {
    QueueStep(s, step, who);
    hide Inv, Next, Pushed;
    var q, more := LoopOf(s, who).Pending(), Pushed(s, step, who);
    if step == RunOne(who) {
      LeftPop(q, f);
      LeftBoth(q[1..], more, f);
    } else {
      LeftBoth(q, more, f);
    }
  }

  lemma LeftBoth(a: seq<Functor>, b: seq<Functor>, f: Functor)
    ensures Left(a + b, f) == Left(a, f) + Left(b, f)
  {
  }

  lemma {:induction false} NothingBefore(threads: nat, schedule: seq<Step>, c: ConnId)
    requires threads > 0 && Allowed(threads, schedule) && c >= |After(threads, schedule).conns|
    ensures Endings(schedule, c) == 0
  {
    hide After, Allowed, Inv, Next;
    if schedule != [] {
      LastStep(threads, schedule);
      var s := After(threads, schedule[..|schedule| - 1]);
      SameServer(s, schedule[|schedule| - 1]);
      NothingBefore(threads, schedule[..|schedule| - 1], c);
    }
  }

  lemma NewUnhandled(s: State, fd: Fd)
    requires Inv(s) && Enabled(s, Accept(fd))
    ensures var s', c := Next(s, Accept(fd)), |s.conns|;
      && c < |s'.conns| && s'.conns[c].looper < |s'.followers| && Handled(s', c) == 0
  {
    var c := |s.conns|;
    QueueStep(s, Accept(fd), Leader);
    QueueStep(s, Accept(fd), Follower(s.currIndex));
    SameServer(s, Accept(fd));
    QueuesCount(s);
    hide Next;
    var q := s.followers[s.currIndex].Pending();
    assert RemoveInLoop(c) !in s.leader.Pending();
    assert forall f :: f in q ==> Home(s.conns, s.currIndex, f);
    assert Destroyed(c) !in q;
    LeftBoth(q, [Established(c)], Destroyed(c));
    LeftBoth(s.leader.Pending(), [], RemoveInLoop(c));
  }

  /** In every run, each end of stream of a connection, and each visit of the destructor, is still to be removed
    from the pool, or still to be destroyed, or has destroyed the connection: none is forgotten, and nothing
    else destroys it. */
  lemma {:induction false} NoneForgotten(threads: nat, schedule: seq<Step>, c: ConnId)
    requires threads > 0 && Allowed(threads, schedule) && c < |After(threads, schedule).conns|
    ensures var s := After(threads, schedule);
      s.conns[c].looper < |s.followers| && Handled(s, c) == Endings(schedule, c)
  {
    hide After, Allowed, Inv, Next, Handled, Enabled;
    if schedule == [] {
      Start(threads);
    } else {
      var init, last := schedule[..|schedule| - 1], schedule[|schedule| - 1];
      LastStep(threads, schedule);
      var s := After(threads, init);
      SameServer(s, last);
      if c < |s.conns| {
        NoneForgotten(threads, init, c);
        HandledStep(s, last, c);
      } else {
        NothingBefore(threads, init, c);
        NewUnhandled(s, last.fd);
      }
    }
  }

  // ---- The end of the server ----

  lemma DoomedStep(s: State, step: Step)
    requires Inv(s) && Enabled(s, step)
    ensures step == Destruct ==> Next(s, step).doomed == Some(s.connpool.Values)
    ensures s.doomed.Some? ==>
      Next(s, step).doomed == if step.DestructOne? then Some(s.doomed.value - {step.conn}) else s.doomed
  {
    if step.RunOne? {
      RunsAtHome(s, step.who);
    }
    hide LivesOk, Queues, Shape;
  }

  /** Once the server is being destroyed, each connection that was in its pool is still to be visited or has
    been. */
  lemma {:induction false} VisitedOrDoomed(threads: nat, schedule: seq<Step>, i: nat, c: ConnId)
    requires threads > 0 && Allowed(threads, schedule) && i < |schedule| && schedule[i] == Destruct
    requires Allowed(threads, schedule[..i]) && c in After(threads, schedule[..i]).connpool.Values
    ensures var s := After(threads, schedule);
      s.doomed.Some? && (c in s.doomed.value || exists k :: i < k < |schedule| && schedule[k] == DestructOne(c))
    decreases |schedule|
  {
    hide After, Allowed, Inv, Next, Enabled;
    var n := |schedule| - 1;
    var init := schedule[..n];
    LastStep(threads, schedule);
    DoomedStep(After(threads, init), schedule[n]);
    if i < n {
      assert init[..i] == schedule[..i];
      VisitedOrDoomed(threads, init, i, c);
    }
  }

  /** The followers are told to quit only when every connection that was in the pool has been visited. */
  lemma QuitAfterVisits(threads: nat, schedule: seq<Step>, i: nat, c: ConnId)
    requires threads > 0 && Allowed(threads, schedule + [QuitFollowers]) && i < |schedule| && schedule[i] == Destruct
    requires Allowed(threads, schedule[..i]) && c in After(threads, schedule[..i]).connpool.Values
    ensures exists k :: i < k < |schedule| && schedule[k] == DestructOne(c)
  {
    hide After, Allowed;
    assert (schedule + [QuitFollowers])[..|schedule|] == schedule;
    LastStep(threads, schedule + [QuitFollowers]);
    VisitedOrDoomed(threads, schedule, i, c);
  }
}

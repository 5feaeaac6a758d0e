/** The life of a server's connections. The leader loop accepts, follower loops serve, and they hand
  each other functors; everything else is interleaving.
*/
module ServerLifecycle {
  import opened Options

  type ConnId = nat
  type Fd = nat

  datatype Functor = Established(conn: ConnId) | RemoveInLoop(conn: ConnId) | Destroyed(conn: ConnId) | Quit

  datatype Status = DISCONNECTED | CONNECTING | CONNECTED | DISCONNECTING

  /** A connection. The counts record how often its connect and close callbacks ran, how often it
    saw the end of the stream, and how often it was destroyed. */
  datatype Conn = Conn(fd: Fd, looper: nat, status: Status, inLoop: bool,
    connects: nat, closes: nat, eofs: nat, destroys: nat)

  /** An iteration of `loop` handles events, then runs a batch of functors. */
  datatype Phase = Handling | Draining | Exited

  datatype Loop = Loop(phase: Phase, loopFlag: bool, functors: seq<Functor>, batch: seq<Functor>)
  {
    /** What is still to run, in order. */
    function Pending(): seq<Functor> { batch + functors }

    function Push(f: Functor): Loop { this.(functors := functors + [f]) }
  }

  /** `doomed`: while the server is being destroyed, the connections its destructor has still to visit. */
  datatype State = State(conns: seq<Conn>, connpool: map<Fd, ConnId>, openFds: set<Fd>,
    leader: Loop, followers: seq<Loop>, currIndex: nat, doomed: Option<set<ConnId>>)
  {
    function PushTo(looper: nat, f: Functor): State
      requires looper < |followers|
    {
      this.(followers := followers[looper := followers[looper].Push(f)])
    }
  }

  function Init(threads: nat): State {
    var idle := Loop(Handling, true, [], []);
    State([], map[], {}, idle, seq(threads, _ => idle), 0, None)
  }

  // ---- Steps ----

  datatype Who = Leader | Follower(i: nat)

  datatype Step =
    | Accept(fd: Fd)
    | Read(conn: ConnId, eof: bool)
    | BeginDrain(who: Who)
    | RunOne(who: Who)
    | EndDrain(who: Who)
    | Shutdown(who: Who)
    | Destruct
    | DestructOne(conn: ConnId)
    | QuitFollowers

  predicate HasLoop(s: State, who: Who) { who.Follower? ==> who.i < |s.followers| }

  function LoopOf(s: State, who: Who): Loop
    requires HasLoop(s, who)
  {
    match who case Leader => s.leader case Follower(i) => s.followers[i]
  }

  function WithLoop(s: State, who: Who, l: Loop): State
    requires HasLoop(s, who)
  {
    match who case Leader => s.(leader := l) case Follower(i) => s.(followers := s.followers[i := l])
  }

  /** A new descriptor is one that is not open; epoll reports only registered connections. */
  predicate Enabled(s: State, step: Step) {
    match step
    case Accept(fd) => s.leader.phase == Handling && fd !in s.openFds && s.currIndex < |s.followers|
    case Read(c, _) =>
      c < |s.conns| && s.conns[c].inLoop && s.conns[c].looper < |s.followers|
      && s.followers[s.conns[c].looper].phase == Handling
    case BeginDrain(who) => HasLoop(s, who) && LoopOf(s, who).phase == Handling
    case RunOne(who) =>
      HasLoop(s, who) && LoopOf(s, who).phase == Draining && LoopOf(s, who).batch != []
      && Runnable(s, LoopOf(s, who).batch[0])
    case EndDrain(who) => HasLoop(s, who) && LoopOf(s, who).phase == Draining && LoopOf(s, who).batch == []
    case Shutdown(who) => HasLoop(s, who)
    case Destruct => s.leader.phase == Exited && s.doomed == None
    case DestructOne(c) =>
      s.doomed.Some? && c in s.doomed.value && c < |s.conns| && s.conns[c].looper < |s.followers|
    case QuitFollowers => s.doomed == Some({})
  }

  predicate Runnable(s: State, f: Functor) {
    f == Quit || (f.conn < |s.conns| && s.conns[f.conn].looper < |s.followers|)
  }

  function OnAccept(s: State, fd: Fd): State
    requires s.currIndex < |s.followers|
  {
    var c := |s.conns|;
    s.(conns := s.conns + [Conn(fd, s.currIndex, CONNECTING, false, 0, 0, 0, 0)],
       connpool := s.connpool[fd := c],
       openFds := s.openFds + {fd},
       currIndex := if s.currIndex + 1 >= |s.followers| then 0 else s.currIndex + 1)
     .PushTo(s.currIndex, Established(c))
  }

  /** `handleClose`, when the read returned 0. */
  function HandleClose(s: State, c: ConnId): State
    requires c < |s.conns|
  {
    var k := s.conns[c];
    s.(conns := s.conns[c := k.(status := DISCONNECTING, eofs := k.eofs + 1,
         closes := k.closes + if k.status == CONNECTED then 1 else 0)],
       leader := s.leader.Push(RemoveInLoop(c)))
  }

  function ConnectEstablished(s: State, c: ConnId): State
    requires c < |s.conns|
  {
    var k := s.conns[c];
    s.(conns := s.conns[c := k.(status := CONNECTED, inLoop := true, connects := k.connects + 1)])
  }

  function ConnectDestroyed(s: State, c: ConnId): State
    requires c < |s.conns|
  {
    var k := s.conns[c];
    s.(conns := s.conns[c := k.(status := DISCONNECTED, inLoop := false, destroys := k.destroys + 1,
         closes := k.closes + if k.status == CONNECTED then 1 else 0)],
       openFds := s.openFds - {k.fd})
  }

  function RemoveConnectionInLoop(s: State, c: ConnId): State
    requires c < |s.conns| && s.conns[c].looper < |s.followers|
  {
    s.(connpool := s.connpool - {s.conns[c].fd}).PushTo(s.conns[c].looper, Destroyed(c))
  }

  function RunFunctor(s: State, who: Who, f: Functor): State
    requires HasLoop(s, who) && Runnable(s, f)
  {
    match f
    case Established(c) => ConnectEstablished(s, c)
    case RemoveInLoop(c) => RemoveConnectionInLoop(s, c)
    case Destroyed(c) => ConnectDestroyed(s, c)
    case Quit => WithLoop(s, who, LoopOf(s, who).(loopFlag := false))
  }

  function Next(s: State, step: Step): State
    requires Enabled(s, step)
  {
    match step
    case Accept(fd) => OnAccept(s, fd)
    case Read(c, eof) => if eof then HandleClose(s, c) else s
    case BeginDrain(who) =>
      var l := LoopOf(s, who);
      WithLoop(s, who, l.(phase := Draining, batch := l.functors, functors := []))
    case RunOne(who) =>
      var l := LoopOf(s, who);
      RunFunctor(WithLoop(s, who, l.(batch := l.batch[1..])), who, l.batch[0])
    case EndDrain(who) =>
      var l := LoopOf(s, who);
      WithLoop(s, who, l.(phase := if l.loopFlag then Handling else Exited))
    case Shutdown(who) => WithLoop(s, who, LoopOf(s, who).(loopFlag := false))
    case Destruct => s.(doomed := Some(s.connpool.Values))
    case DestructOne(c) => s.(doomed := Some(s.doomed.value - {c})).PushTo(s.conns[c].looper, Destroyed(c))
    case QuitFollowers =>
      s.(followers := seq(|s.followers|, i requires 0 <= i < |s.followers| => s.followers[i].Push(Quit)))
  }

  // ---- The life of one connection ----

  /** A connection is never destroyed before it is established. */
  ghost predicate InOrder(q: seq<Functor>, c: ConnId) {
    forall i, j :: 0 <= i < j < |q| && q[i] == Destroyed(c) ==> q[j] != Established(c)
  }

  /** Connection `c`, given the functors its looper has still to run. */
  ghost predicate LifeOk(k: Conn, q: seq<Functor>, c: ConnId) {
    && multiset(q)[Established(c)] + k.connects == 1
    && InOrder(q, c)
    && (k.connects == 0 ==> k.status == CONNECTING && !k.inLoop && k.closes == 0 && k.eofs == 0 && k.destroys == 0)
    && (k.connects == 1 ==> k.status != CONNECTING)
    && k.closes <= 1
    && (k.closes == 1 ==> k.status == DISCONNECTING || k.status == DISCONNECTED)
    && (k.destroys > 0 ==> !k.inLoop)
    && (k.inLoop ==> k.status == CONNECTED || k.status == DISCONNECTING)
  }

  /** A follower runs functors of its own connections only. */
  predicate Home(conns: seq<Conn>, i: nat, f: Functor) {
    f == Quit || ((f.Established? || f.Destroyed?) && f.conn < |conns| && conns[f.conn].looper == i)
  }

  ghost predicate LivesOk(conns: seq<Conn>, qs: seq<seq<Functor>>) {
    && (forall i, f :: 0 <= i < |qs| && f in qs[i] ==> Home(conns, i, f))
    && (forall c :: 0 <= c < |conns| ==> conns[c].looper < |qs| && LifeOk(conns[c], qs[conns[c].looper], c))
  }

  lemma LifePopOther(k: Conn, q: seq<Functor>, c: ConnId)
    requires LifeOk(k, q, c) && q != [] && q[0] != Established(c)
    ensures LifeOk(k, q[1..], c)
    ensures q[0] == Destroyed(c) ==> k.connects == 1
  {
    assert q == [q[0]] + q[1..];
    assert multiset(q)[Established(c)] > 0 <==> Established(c) in q;
  }

  lemma LifePopEstablished(k: Conn, q: seq<Functor>, c: ConnId)
    requires LifeOk(k, q, c) && q != [] && q[0] == Established(c)
    ensures LifeOk(k.(status := CONNECTED, inLoop := true, connects := k.connects + 1), q[1..], c)
  {
    assert q == [q[0]] + q[1..];
  }

  lemma LivesPush(conns: seq<Conn>, qs: seq<seq<Functor>>, i: nat, f: Functor)
    requires LivesOk(conns, qs) && i < |qs| && Home(conns, i, f) && !f.Established?
    ensures LivesOk(conns, qs[i := qs[i] + [f]])
  {
    forall c | 0 <= c < |conns| && conns[c].looper == i
      ensures LifeOk(conns[c], qs[i] + [f], c)
    {
    }
    hide LifeOk;
  }

  lemma LivesAccept(conns: seq<Conn>, qs: seq<seq<Functor>>, i: nat, k: Conn)
    requires LivesOk(conns, qs) && i < |qs|
    requires k == Conn(k.fd, i, CONNECTING, false, 0, 0, 0, 0)
    ensures LivesOk(conns + [k], qs[i := qs[i] + [Established(|conns|)]])
  {
    var n := |conns|;
    var conns', q := conns + [k], qs[i] + [Established(n)];
    forall c | 0 <= c < n && conns[c].looper == i
      ensures LifeOk(conns[c], q, c)
    {
    }
    assert LifeOk(k, q, n) by {
      assert forall f :: f in qs[i] ==> Home(conns, i, f);
      assert Established(n) !in qs[i] && Destroyed(n) !in qs[i];
    }
    hide LifeOk;
    forall c | 0 <= c < |conns'|
      ensures conns'[c].looper < |qs| && LifeOk(conns'[c], qs[i := q][conns'[c].looper], c)
    {
    }
    forall j, f | 0 <= j < |qs| && f in qs[i := q][j] ensures Home(conns', j, f) {}
  }

  /** What running the first functor of a follower's queue makes of its connection. */
  function Lived(k: Conn, f: Functor): Conn {
    match f
    case Established(_) => k.(status := CONNECTED, inLoop := true, connects := k.connects + 1)
    case Destroyed(_) => k.(status := DISCONNECTED, inLoop := false, destroys := k.destroys + 1,
        closes := k.closes + if k.status == CONNECTED then 1 else 0)
    case _ => k
  }

  lemma LivesPop(conns: seq<Conn>, qs: seq<seq<Functor>>, i: nat)
    requires LivesOk(conns, qs) && i < |qs| && qs[i] != []
    ensures var f := qs[i][0];
      && Home(conns, i, f)
      && LivesOk(if f == Quit then conns else conns[f.conn := Lived(conns[f.conn], f)], qs[i := qs[i][1..]])
  {
    var q, f := qs[i], qs[i][0];
    assert f in q;
    var conns' := if f == Quit then conns else conns[f.conn := Lived(conns[f.conn], f)];
    forall c | 0 <= c < |conns| && conns[c].looper == i
      ensures LifeOk(conns'[c], q[1..], c)
    {
      if f == Established(c) {
        LifePopEstablished(conns[c], q, c);
      } else {
        LifePopOther(conns[c], q, c);
      }
    }
    hide LifeOk;
    assert forall c :: 0 <= c < |conns| ==> conns'[c].looper == conns[c].looper;
    forall j, g | 0 <= j < |qs| && g in qs[i := q[1..]][j] ensures Home(conns', j, g) {
      assert g in qs[j];
    }
  }

  lemma LivesEof(conns: seq<Conn>, qs: seq<seq<Functor>>, c: ConnId)
    requires LivesOk(conns, qs) && c < |conns| && conns[c].inLoop
    ensures LivesOk(conns[c := Eof(conns[c])], qs)
  {
    var k := conns[c];
    assert LifeOk(k, qs[k.looper], c);
    assert LifeOk(Eof(k), qs[k.looper], c);
    hide LifeOk;
  }

  function Eof(k: Conn): Conn {
    k.(status := DISCONNECTING, eofs := k.eofs + 1, closes := k.closes + if k.status == CONNECTED then 1 else 0)
  }

  // ---- Invariant of all runs ----

  function Queues(s: State): seq<seq<Functor>> {
    seq(|s.followers|, i requires 0 <= i < |s.followers| => s.followers[i].Pending())
  }

  ghost predicate Shape(s: State) {
    && s.currIndex < |s.followers|
    && (s.leader.phase != Draining ==> s.leader.batch == [])
    && (forall i :: 0 <= i < |s.followers| && s.followers[i].phase != Draining ==> s.followers[i].batch == [])
    && (forall f :: f in s.leader.Pending() ==> f.RemoveInLoop? && f.conn < |s.conns|)
    && (forall fd :: fd in s.connpool ==> s.connpool[fd] < |s.conns|)
    && (s.doomed.Some? ==> forall c :: c in s.doomed.value ==> c < |s.conns|)
  }

  ghost predicate Inv(s: State) { Shape(s) && LivesOk(s.conns, Queues(s)) }

  lemma QuitsKeepLives(conns: seq<Conn>, qs: seq<seq<Functor>>, qs': seq<seq<Functor>>)
    requires LivesOk(conns, qs) && |qs'| == |qs| && forall i :: 0 <= i < |qs| ==> qs'[i] == qs[i] + [Quit]
    ensures LivesOk(conns, qs')
  {
    forall c | 0 <= c < |conns|
      ensures LifeOk(conns[c], qs'[conns[c].looper], c)
    {
    }
    hide LifeOk;
  }

  lemma QueuesPush(s: State, i: nat, f: Functor)
    requires i < |s.followers|
    ensures Queues(s.PushTo(i, f)) == Queues(s)[i := Queues(s)[i] + [f]]
  {
    var l := s.followers[i];
    assert l.Push(f).Pending() == l.Pending() + [f];
  }

  lemma QueuesPop(s: State, i: nat)
    requires i < |s.followers| && s.followers[i].batch != []
    ensures Queues(s)[i] != [] && Queues(s)[i][0] == s.followers[i].batch[0]
    ensures var l := s.followers[i];
      Queues(s.(followers := s.followers[i := l.(batch := l.batch[1..])])) == Queues(s)[i := Queues(s)[i][1..]]
  {
    var l := s.followers[i];
    assert l.(batch := l.batch[1..]).Pending() == l.Pending()[1..];
  }

  /** Taking the functors as the next batch, or ending a batch, changes nothing that is still to run. */
  lemma QueuesSame(s: State, i: nat, l: Loop)
    requires i < |s.followers| && l.Pending() == s.followers[i].Pending()
    ensures Queues(s.(followers := s.followers[i := l])) == Queues(s)
  {
  }

  lemma DrainKeepsInv(s: State, step: Step)
    requires Inv(s) && Enabled(s, step) && (step.BeginDrain? || step.EndDrain?)
    ensures Inv(Next(s, step))
  {
    hide LivesOk, Queues;
    var l, l' := LoopOf(s, step.who), LoopOf(Next(s, step), step.who);
    assert l'.Pending() == l.Pending();
    if step.who.Follower? {
      QueuesSame(s, step.who.i, l');
    } else {
      QueuesDepend(s, Next(s, step));
    }
  }

  lemma QueuesDepend(s: State, s': State)
    requires s'.followers == s.followers
    ensures Queues(s') == Queues(s)
  {
  }

  lemma RunOneKeepsInv(s: State, who: Who)
    requires Inv(s) && Enabled(s, RunOne(who))
    ensures Inv(Next(s, RunOne(who)))
  {
    hide LivesOk, Queues;
    var l := LoopOf(s, who);
    var f, popped := l.batch[0], l.(batch := l.batch[1..]);
    assert l.Pending() == [f] + popped.Pending();
    var m := WithLoop(s, who, popped);
    if who.Leader? {
      assert f in s.leader.Pending();
      QueuesDepend(s, m);
      var i := s.conns[f.conn].looper;
      HomeOf(s.conns, Queues(s), f.conn);
      LivesPush(s.conns, Queues(s), i, Destroyed(f.conn));
      var r := m.(connpool := m.connpool - {s.conns[f.conn].fd});
      QueuesDepend(m, r);
      QueuesPush(r, i, Destroyed(f.conn));
    } else {
      QueuesPop(s, who.i);
      QueuesCount(s);
      LivesPop(s.conns, Queues(s), who.i);
      var s' := Next(s, RunOne(who));
      if f == Quit {
        QueuesSame(m, who.i, popped.(loopFlag := false));
      } else {
        QueuesDepend(m, s');
      }
    }
  }

  lemma HomeOf(conns: seq<Conn>, qs: seq<seq<Functor>>, c: ConnId)
    requires LivesOk(conns, qs) && c < |conns|
    ensures conns[c].looper < |qs|
  {
  }

  lemma QueuesCount(s: State)
    ensures |Queues(s)| == |s.followers|
    ensures forall i :: 0 <= i < |s.followers| ==> Queues(s)[i] == s.followers[i].Pending()
  {
  }

  lemma OtherKeepsInv(s: State, step: Step)
    requires Inv(s) && Enabled(s, step) && !step.BeginDrain? && !step.EndDrain? && !step.RunOne?
    ensures Inv(Next(s, step))
  {
    hide LivesOk, Queues;
    var s' := Next(s, step);
    QueuesCount(s);
    match step
    case Accept(fd) =>
      LivesAccept(s.conns, Queues(s), s.currIndex, s'.conns[|s.conns|]);
      AcceptQueues(s, fd);
    case Read(c, eof) =>
      if eof {
        LivesEof(s.conns, Queues(s), c);
        QueuesDepend(s, s');
      }
    case Shutdown(who) => ShutdownQueues(s, who);
    case Destruct => QueuesDepend(s, s');
    case DestructOne(c) =>
      LivesPush(s.conns, Queues(s), s.conns[c].looper, Destroyed(c));
      var r := s.(doomed := Some(s.doomed.value - {c}));
      QueuesDepend(s, r);
      QueuesPush(r, s.conns[c].looper, Destroyed(c));
    case QuitFollowers =>
      QuitQueues(s, s');
      QuitsKeepLives(s.conns, Queues(s), Queues(s'));
  }

  lemma ShutdownQueues(s: State, who: Who)
    requires HasLoop(s, who)
    ensures var l, s' := LoopOf(s, who), Next(s, Shutdown(who));
      && Queues(s') == Queues(s) && s'.leader.Pending() == s.leader.Pending()
      && s' == WithLoop(s, who, l.(loopFlag := false))
  {
    var l := LoopOf(s, who);
    assert l.(loopFlag := false).Pending() == l.Pending();
  }

  lemma AcceptQueues(s: State, fd: Fd)
    requires s.currIndex < |s.followers|
    ensures Queues(OnAccept(s, fd)) == Queues(s)[s.currIndex := Queues(s)[s.currIndex] + [Established(|s.conns|)]]
  {
    QueuesPush(s, s.currIndex, Established(|s.conns|));
    QueuesDepend(s.PushTo(s.currIndex, Established(|s.conns|)), OnAccept(s, fd));
  }

  lemma QuitQueues(s: State, s': State)
    requires |s'.followers| == |s.followers|
    requires forall i :: 0 <= i < |s.followers| ==> s'.followers[i] == s.followers[i].Push(Quit)
    ensures |Queues(s')| == |Queues(s)| && forall i :: 0 <= i < |Queues(s)| ==> Queues(s')[i] == Queues(s)[i] + [Quit]
  {
    forall i | 0 <= i < |s.followers| ensures s'.followers[i].Pending() == s.followers[i].Pending() + [Quit] {
      assert s.followers[i].Push(Quit).Pending() == s.followers[i].Pending() + [Quit];
    }
  }

  lemma NextKeepsInv(s: State, step: Step)
    requires Inv(s) && Enabled(s, step)
    ensures Inv(Next(s, step))
  {
    if step.RunOne? {
      RunOneKeepsInv(s, step.who);
    } else if step.BeginDrain? || step.EndDrain? {
      DrainKeepsInv(s, step);
    } else {
      OtherKeepsInv(s, step);
    }
  }

  // ---- Runs ----

  function After(threads: nat, schedule: seq<Step>): State
    requires threads > 0 && Allowed(threads, schedule)
    decreases |schedule|, 1
  {
    if schedule == [] then Init(threads)
    else Next(After(threads, schedule[..|schedule| - 1]), schedule[|schedule| - 1])
  }

  predicate Allowed(threads: nat, schedule: seq<Step>)
    requires threads > 0
    decreases |schedule|, 0
  {
    schedule == [] ||
    (Allowed(threads, schedule[..|schedule| - 1])
     && Enabled(After(threads, schedule[..|schedule| - 1]), schedule[|schedule| - 1]))
  }

  lemma {:induction false} AlwaysInv(threads: nat, schedule: seq<Step>)
    requires threads > 0 && Allowed(threads, schedule)
    ensures Inv(After(threads, schedule))
  {
    if schedule == [] {
      assert Init(threads).leader.Pending() == [];
    } else {
      AlwaysInv(threads, schedule[..|schedule| - 1]);
      NextKeepsInv(After(threads, schedule[..|schedule| - 1]), schedule[|schedule| - 1]);
    }
  }

  /** Callbacks, in every run, however often the peer closes: the connect callback of a connection
    runs at most once, the close callback at most once and only after it, and the connection is
    registered for events, so that a handler can run, only once it is established. */
  lemma Callbacks(threads: nat, schedule: seq<Step>, c: ConnId)
    requires threads > 0 && Allowed(threads, schedule) && c < |After(threads, schedule).conns|
    ensures var k := After(threads, schedule).conns[c];
      && k.connects <= 1 && k.closes <= k.connects
      && (k.inLoop ==> k.connects == 1 && (k.status == CONNECTED || k.status == DISCONNECTING) && k.destroys == 0)
  {
    AlwaysInv(threads, schedule);
    var s := After(threads, schedule);
    assert LifeOk(s.conns[c], Queues(s)[s.conns[c].looper], c);
  }

  // ---- Runs in which each connection sees the end of its stream at most once ----

  /** How often `f` is still to run. */
  function Left(q: seq<Functor>, f: Functor): nat { multiset(q)[f] }

  /** Who owns what, for connection `c`: `d` and `r` count its functors `Destroyed` and `RemoveInLoop`
    still to run. */
  ghost predicate OwnOne(k: Conn, c: ConnId, d: nat, r: nat, connpool: map<Fd, ConnId>, openFds: set<Fd>,
    doomed: Option<set<ConnId>>) {
    && k.eofs <= 1 && d + k.destroys <= 1
    && (k.destroys == 0 ==> k.fd in openFds)
    && match doomed
       case None => r + d + k.destroys == k.eofs && (d + k.destroys == 0 <==> k.fd in connpool && connpool[k.fd] == c)
       case Some(ds) => c in ds ==> d + k.destroys == 0
  }

  ghost predicate OwnOk(conns: seq<Conn>, qs: seq<seq<Functor>>, removals: seq<Functor>,
    connpool: map<Fd, ConnId>, openFds: set<Fd>, doomed: Option<set<ConnId>>)
  {
    && (forall c :: 0 <= c < |conns| ==>
          (&& conns[c].looper < |qs|
           && OwnOne(conns[c], c, Left(qs[conns[c].looper], Destroyed(c)), Left(removals, RemoveInLoop(c)), connpool,
                openFds, doomed)))
    && (forall c, d :: 0 <= c < d < |conns| && conns[c].destroys == 0 && conns[d].destroys == 0 ==>
         conns[c].fd != conns[d].fd)
    && (doomed == None ==> forall fd :: fd in connpool ==> connpool[fd] < |conns| && conns[connpool[fd]].fd == fd)
  }

  ghost predicate Owned(s: State) {
    && OwnOk(s.conns, Queues(s), s.leader.Pending(), s.connpool, s.openFds, s.doomed)
    && (s.doomed.Some? ==> s.leader.phase == Exited)
  }

  lemma LeftPush(q: seq<Functor>, f: Functor, g: Functor)
    ensures Left(q + [f], g) == Left(q, g) + if f == g then 1 else 0
  {
  }

  lemma LeftPop(q: seq<Functor>, g: Functor)
    requires q != []
    ensures Left(q, g) == Left(q[1..], g) + if q[0] == g then 1 else 0
  {
    assert q == [q[0]] + q[1..];
  }

  lemma OwnAccept(conns: seq<Conn>, qs: seq<seq<Functor>>, removals: seq<Functor>, connpool: map<Fd, ConnId>,
    openFds: set<Fd>, i: nat, k: Conn)
    requires OwnOk(conns, qs, removals, connpool, openFds, None) && i < |qs| && k.fd !in openFds
    requires k == Conn(k.fd, i, CONNECTING, false, 0, 0, 0, 0)
    requires forall f :: f in qs[i] + removals && f != Quit ==> f.conn < |conns|
    ensures OwnOk(conns + [k], qs[i := qs[i] + [Established(|conns|)]], removals, connpool[k.fd := |conns|],
      openFds + {k.fd}, None)
    ensures k.fd !in connpool
  {
    var n := |conns|;
    var conns', qs' := conns + [k], qs[i := qs[i] + [Established(n)]];
    NewDescriptor(conns, qs, removals, connpool, openFds, k.fd);
    assert Destroyed(n) !in qs[i] && RemoveInLoop(n) !in removals by {
      assert forall f :: f in qs[i] ==> f in qs[i] + removals;
      assert forall f :: f in removals ==> f in qs[i] + removals;
    }
    forall c | 0 <= c <= n
      ensures conns'[c].looper < |qs'|
      ensures OwnOne(conns'[c], c, Left(qs'[conns'[c].looper], Destroyed(c)), Left(removals, RemoveInLoop(c)),
        connpool[k.fd := n], openFds + {k.fd}, None)
    {
      LeftPush(qs[i], Established(n), Destroyed(c));
      if c < n {
        OwnOneAccept(conns[c], c, Left(qs[conns[c].looper], Destroyed(c)), Left(removals, RemoveInLoop(c)), connpool,
          openFds, k.fd, n);
      }
    }
    hide OwnOne;
  }

  /** A descriptor that is not open belongs to no connection that lives. */
  lemma NewDescriptor(conns: seq<Conn>, qs: seq<seq<Functor>>, removals: seq<Functor>, connpool: map<Fd, ConnId>,
    openFds: set<Fd>, fd: Fd)
    requires OwnOk(conns, qs, removals, connpool, openFds, None) && fd !in openFds
    ensures fd !in connpool
    ensures forall c :: 0 <= c < |conns| && conns[c].destroys == 0 ==> conns[c].fd != fd
  {
    forall c | 0 <= c < |conns| && conns[c].destroys == 0 ensures conns[c].fd in openFds {
      assert OwnOne(conns[c], c, Left(qs[conns[c].looper], Destroyed(c)), Left(removals, RemoveInLoop(c)), connpool,
        openFds, None);
    }
    forall f | f in connpool ensures f in openFds {
      var v := connpool[f];
      assert OwnOne(conns[v], v, Left(qs[conns[v].looper], Destroyed(v)), Left(removals, RemoveInLoop(v)), connpool,
        openFds, None);
    }
  }

  lemma OwnOneAccept(k: Conn, c: ConnId, d: nat, r: nat, connpool: map<Fd, ConnId>, openFds: set<Fd>, fd: Fd, n: ConnId)
    requires OwnOne(k, c, d, r, connpool, openFds, None) && fd !in openFds && fd !in connpool && c != n
    ensures OwnOne(k, c, d, r, connpool[fd := n], openFds + {fd}, None)
  {
  }

  lemma OwnEof(conns: seq<Conn>, qs: seq<seq<Functor>>, removals: seq<Functor>, connpool: map<Fd, ConnId>,
    openFds: set<Fd>, doomed: Option<set<ConnId>>, c: ConnId)
    requires OwnOk(conns, qs, removals, connpool, openFds, doomed) && c < |conns| && conns[c].eofs == 0
    ensures OwnOk(conns[c := Eof(conns[c])], qs, removals + [RemoveInLoop(c)], connpool, openFds, doomed)
  {
    var conns' := conns[c := Eof(conns[c])];
    forall x | 0 <= x < |conns|
      ensures OwnOne(conns'[x], x, Left(qs[conns'[x].looper], Destroyed(x)),
        Left(removals + [RemoveInLoop(c)], RemoveInLoop(x)), connpool, openFds, doomed)
    {
      LeftPush(removals, RemoveInLoop(c), RemoveInLoop(x));
      assert OwnOne(conns[x], x, Left(qs[conns[x].looper], Destroyed(x)), Left(removals, RemoveInLoop(x)), connpool,
        openFds, doomed);
    }
    hide OwnOne;
  }

  /** The leader erases the entry of a connection and hands it back to be destroyed. */
  lemma OwnRemove(conns: seq<Conn>, qs: seq<seq<Functor>>, removals: seq<Functor>, connpool: map<Fd, ConnId>,
    openFds: set<Fd>, c: ConnId)
    requires OwnOk(conns, qs, removals, connpool, openFds, None) && c < |conns| && removals != []
      && removals[0] == RemoveInLoop(c)
    ensures conns[c].fd in connpool && connpool[conns[c].fd] == c
    ensures var i := conns[c].looper;
      OwnOk(conns, qs[i := qs[i] + [Destroyed(c)]], removals[1..], connpool - {conns[c].fd}, openFds, None)
  {
    var i := conns[c].looper;
    var qs' := qs[i := qs[i] + [Destroyed(c)]];
    assert OwnOne(conns[c], c, Left(qs[i], Destroyed(c)), Left(removals, RemoveInLoop(c)), connpool, openFds, None);
    LeftPop(removals, RemoveInLoop(c));
    forall x | 0 <= x < |conns|
      ensures OwnOne(conns[x], x, Left(qs'[conns[x].looper], Destroyed(x)), Left(removals[1..], RemoveInLoop(x)),
        connpool - {conns[c].fd}, openFds, None)
    {
      LeftPop(removals, RemoveInLoop(x));
      LeftPush(qs[i], Destroyed(c), Destroyed(x));
      assert OwnOne(conns[x], x, Left(qs[conns[x].looper], Destroyed(x)), Left(removals, RemoveInLoop(x)), connpool,
        openFds, None);
    }
    hide OwnOne;
  }

  /** A follower destroys a connection: the descriptor that it closes is the connection's own. */
  lemma OwnPopDestroyed(conns: seq<Conn>, qs: seq<seq<Functor>>, removals: seq<Functor>, connpool: map<Fd, ConnId>,
    openFds: set<Fd>, doomed: Option<set<ConnId>>, i: nat, c: ConnId)
    requires OwnOk(conns, qs, removals, connpool, openFds, doomed) && i < |qs| && qs[i] != []
    requires c < |conns| && conns[c].looper == i && qs[i][0] == Destroyed(c)
    ensures OwnOk(conns[c := Lived(conns[c], Destroyed(c))], qs[i := qs[i][1..]], removals, connpool,
      openFds - {conns[c].fd}, doomed)
    ensures conns[c].destroys == 0 && conns[c].fd in openFds
    ensures forall d :: 0 <= d < |conns| && d != c && conns[d].destroys == 0 ==> conns[d].fd != conns[c].fd
  {
    var q := qs[i];
    var conns' := conns[c := Lived(conns[c], Destroyed(c))];
    LeftPop(q, Destroyed(c));
    assert OwnOne(conns[c], c, Left(q, Destroyed(c)), Left(removals, RemoveInLoop(c)), connpool, openFds, doomed);
    forall x | 0 <= x < |conns|
      ensures OwnOne(conns'[x], x, Left(qs[i := q[1..]][conns'[x].looper], Destroyed(x)),
        Left(removals, RemoveInLoop(x)), connpool, openFds - {conns[c].fd}, doomed)
    {
      LeftPop(q, Destroyed(x));
      assert OwnOne(conns[x], x, Left(qs[conns[x].looper], Destroyed(x)), Left(removals, RemoveInLoop(x)), connpool,
        openFds, doomed);
    }
    hide OwnOne;
  }

  /** What ownership depends on. */
  lemma OwnSame(conns: seq<Conn>, conns': seq<Conn>, qs: seq<seq<Functor>>, qs': seq<seq<Functor>>,
    removals: seq<Functor>, connpool: map<Fd, ConnId>, openFds: set<Fd>, doomed: Option<set<ConnId>>)
    requires OwnOk(conns, qs, removals, connpool, openFds, doomed) && |conns'| == |conns| && |qs'| == |qs|
    requires forall x :: 0 <= x < |conns| ==>
      (&& conns'[x].fd == conns[x].fd && conns'[x].looper == conns[x].looper
       && conns'[x].eofs == conns[x].eofs && conns'[x].destroys == conns[x].destroys)
    requires forall i, x :: 0 <= i < |qs| ==> Left(qs'[i], Destroyed(x)) == Left(qs[i], Destroyed(x))
    ensures OwnOk(conns', qs', removals, connpool, openFds, doomed)
  {
    forall x | 0 <= x < |conns|
      ensures OwnOne(conns'[x], x, Left(qs'[conns'[x].looper], Destroyed(x)), Left(removals, RemoveInLoop(x)), connpool,
        openFds, doomed)
    {
      assert OwnOne(conns[x], x, Left(qs[conns[x].looper], Destroyed(x)), Left(removals, RemoveInLoop(x)), connpool,
        openFds, doomed);
    }
    hide OwnOne;
  }

  /** A follower runs any other functor. */
  lemma OwnPopOther(conns: seq<Conn>, qs: seq<seq<Functor>>, removals: seq<Functor>, connpool: map<Fd, ConnId>,
    openFds: set<Fd>, doomed: Option<set<ConnId>>, i: nat)
    requires OwnOk(conns, qs, removals, connpool, openFds, doomed) && i < |qs| && qs[i] != []
      && Home(conns, i, qs[i][0])
    requires !qs[i][0].Destroyed?
    ensures var f := qs[i][0];
      OwnOk(if f == Quit then conns else conns[f.conn := Lived(conns[f.conn], f)], qs[i := qs[i][1..]], removals,
        connpool, openFds, doomed)
  {
    hide OwnOk, Left;
    var q, f := qs[i], qs[i][0];
    forall x ensures Left(q[1..], Destroyed(x)) == Left(q, Destroyed(x)) { LeftPop(q, Destroyed(x)); }
    OwnSame(conns, if f == Quit then conns else conns[f.conn := Lived(conns[f.conn], f)], qs, qs[i := q[1..]],
      removals, connpool, openFds, doomed);
  }

  lemma OwnDestruct(conns: seq<Conn>, qs: seq<seq<Functor>>, removals: seq<Functor>, connpool: map<Fd, ConnId>,
    openFds: set<Fd>)
    requires OwnOk(conns, qs, removals, connpool, openFds, None)
    ensures OwnOk(conns, qs, removals, connpool, openFds, Some(connpool.Values))
  {
    forall x | 0 <= x < |conns|
      ensures OwnOne(conns[x], x, Left(qs[conns[x].looper], Destroyed(x)), Left(removals, RemoveInLoop(x)),
        connpool, openFds, Some(connpool.Values))
    {
      assert OwnOne(conns[x], x, Left(qs[conns[x].looper], Destroyed(x)), Left(removals, RemoveInLoop(x)), connpool,
        openFds, None);
      if x in connpool.Values {
        var fd :| fd in connpool && connpool[fd] == x;
      }
    }
    hide OwnOne;
  }

  lemma OwnDestructOne(conns: seq<Conn>, qs: seq<seq<Functor>>, removals: seq<Functor>, connpool: map<Fd, ConnId>,
    openFds: set<Fd>, ds: set<ConnId>, c: ConnId)
    requires OwnOk(conns, qs, removals, connpool, openFds, Some(ds)) && c in ds && c < |conns|
    ensures var i := conns[c].looper;
      OwnOk(conns, qs[i := qs[i] + [Destroyed(c)]], removals, connpool, openFds, Some(ds - {c}))
  {
    var i := conns[c].looper;
    var qs' := qs[i := qs[i] + [Destroyed(c)]];
    forall x | 0 <= x < |conns|
      ensures OwnOne(conns[x], x, Left(qs'[conns[x].looper], Destroyed(x)), Left(removals, RemoveInLoop(x)),
        connpool, openFds, Some(ds - {c}))
    {
      LeftPush(qs[i], Destroyed(c), Destroyed(x));
      assert OwnOne(conns[x], x, Left(qs[conns[x].looper], Destroyed(x)), Left(removals, RemoveInLoop(x)), connpool,
        openFds, Some(ds));
    }
    hide OwnOne;
  }

  lemma OwnQuits(conns: seq<Conn>, qs: seq<seq<Functor>>, qs': seq<seq<Functor>>, removals: seq<Functor>,
    connpool: map<Fd, ConnId>, openFds: set<Fd>, doomed: Option<set<ConnId>>)
    requires OwnOk(conns, qs, removals, connpool, openFds, doomed)
    requires |qs'| == |qs| && forall i :: 0 <= i < |qs| ==> qs'[i] == qs[i] + [Quit]
    ensures OwnOk(conns, qs', removals, connpool, openFds, doomed)
  {
    hide OwnOk, Left;
    forall i, x | 0 <= i < |qs| ensures Left(qs'[i], Destroyed(x)) == Left(qs[i], Destroyed(x)) {
      LeftPush(qs[i], Quit, Destroyed(x));
    }
    OwnSame(conns, conns, qs, qs', removals, connpool, openFds, doomed);
  }

  /** An end of stream that is the first its connection sees. */
  predicate FirstEof(s: State, step: Step)
    requires Enabled(s, step)
  {
    step.Read? && step.eof ==> s.conns[step.conn].eofs == 0
  }

  lemma DrainKeepsOwned(s: State, step: Step)
    requires Inv(s) && Owned(s) && Enabled(s, step) && (step.BeginDrain? || step.EndDrain?)
    ensures Owned(Next(s, step))
  {
    hide OwnOk, LivesOk, Queues;
    var l, l' := LoopOf(s, step.who), LoopOf(Next(s, step), step.who);
    assert l'.Pending() == l.Pending();
    if step.who.Follower? {
      QueuesSame(s, step.who.i, l');
    } else {
      QueuesDepend(s, Next(s, step));
    }
  }

  lemma RunOneKeepsOwned(s: State, who: Who)
    requires Inv(s) && Owned(s) && Enabled(s, RunOne(who))
    ensures Owned(Next(s, RunOne(who)))
  {
    hide OwnOk, LivesOk, Queues;
    var l := LoopOf(s, who);
    var f, popped := l.batch[0], l.(batch := l.batch[1..]);
    assert l.Pending() == [f] + popped.Pending();
    assert l.Pending()[1..] == popped.Pending();
    var m := WithLoop(s, who, popped);
    var s' := Next(s, RunOne(who));
    if who.Leader? {
      assert f in s.leader.Pending();
      OwnRemove(s.conns, Queues(s), s.leader.Pending(), s.connpool, s.openFds, f.conn);
      QueuesDepend(s, m);
      var r := m.(connpool := m.connpool - {s.conns[f.conn].fd});
      QueuesDepend(m, r);
      QueuesPush(r, s.conns[f.conn].looper, Destroyed(f.conn));
    } else {
      QueuesPop(s, who.i);
      QueuesCount(s);
      LivesPop(s.conns, Queues(s), who.i);
      if f.Destroyed? {
        OwnPopDestroyed(s.conns, Queues(s), s.leader.Pending(), s.connpool, s.openFds, s.doomed, who.i, f.conn);
      } else {
        OwnPopOther(s.conns, Queues(s), s.leader.Pending(), s.connpool, s.openFds, s.doomed, who.i);
      }
      if f == Quit {
        QueuesSame(m, who.i, popped.(loopFlag := false));
      } else {
        QueuesDepend(m, s');
      }
    }
  }

  lemma ReadKeepsOwned(s: State, step: Step)
    requires Inv(s) && Owned(s) && Enabled(s, step) && step.Read? && FirstEof(s, step)
    ensures Owned(Next(s, step))
  {
    hide OwnOk, LivesOk, Queues;
    var s' := Next(s, step);
    if step.eof {
      OwnEof(s.conns, Queues(s), s.leader.Pending(), s.connpool, s.openFds, s.doomed, step.conn);
      assert s'.leader.Pending() == s.leader.Pending() + [RemoveInLoop(step.conn)];
      QueuesDepend(s, s');
    }
  }

  lemma EndingKeepsOwned(s: State, step: Step)
    requires Inv(s) && Owned(s) && Enabled(s, step) && (step.Shutdown? || step.Destruct? || step.DestructOne?)
    ensures Owned(Next(s, step))
  {
    hide OwnOk, LivesOk, Queues;
    var s' := Next(s, step);
    match step
    case Shutdown(who) => ShutdownQueues(s, who);
    case Destruct =>
      OwnDestruct(s.conns, Queues(s), s.leader.Pending(), s.connpool, s.openFds);
      QueuesDepend(s, s');
    case DestructOne(c) =>
      OwnDestructOne(s.conns, Queues(s), s.leader.Pending(), s.connpool, s.openFds, s.doomed.value, c);
      var r := s.(doomed := Some(s.doomed.value - {c}));
      QueuesDepend(s, r);
      QueuesPush(r, s.conns[c].looper, Destroyed(c));
  }

  lemma QuitKeepsOwned(s: State)
    requires Inv(s) && Owned(s) && Enabled(s, QuitFollowers)
    ensures Owned(Next(s, QuitFollowers))
  {
    hide OwnOk, LivesOk, Queues;
    var s' := Next(s, QuitFollowers);
    QuitQueues(s, s');
    OwnQuits(s.conns, Queues(s), Queues(s'), s.leader.Pending(), s.connpool, s.openFds, s.doomed);
  }

  lemma AcceptKeepsOwned(s: State, fd: Fd)
    requires Inv(s) && Owned(s) && Enabled(s, Accept(fd))
    ensures Owned(OnAccept(s, fd)) && fd !in s.connpool
  {
    AllHome(s);
    hide OwnOk, LivesOk, Queues;
    QueuesCount(s);
    OwnAccept(s.conns, Queues(s), s.leader.Pending(), s.connpool, s.openFds, s.currIndex,
      OnAccept(s, fd).conns[|s.conns|]);
    AcceptQueues(s, fd);
  }

  lemma AllHome(s: State)
    requires Inv(s)
    ensures forall f :: f in Queues(s)[s.currIndex] + s.leader.Pending() && f != Quit ==> f.conn < |s.conns|
  {
    forall f | f in Queues(s)[s.currIndex] + s.leader.Pending() && f != Quit ensures f.conn < |s.conns| {
      if f in Queues(s)[s.currIndex] {
        assert Home(s.conns, s.currIndex, f);
      }
    }
  }

  ghost predicate OneEofEach(threads: nat, schedule: seq<Step>)
    requires threads > 0 && Allowed(threads, schedule)
    decreases |schedule|
  {
    schedule == [] ||
    (OneEofEach(threads, schedule[..|schedule| - 1])
     && FirstEof(After(threads, schedule[..|schedule| - 1]), schedule[|schedule| - 1]))
  }

  lemma {:induction false} AlwaysOwned(threads: nat, schedule: seq<Step>)
    requires threads > 0 && Allowed(threads, schedule) && OneEofEach(threads, schedule)
    ensures Inv(After(threads, schedule)) && Owned(After(threads, schedule))
  {
    AlwaysInv(threads, schedule);
    if schedule == [] {
      assert Init(threads).leader.Pending() == [];
    } else {
      var s, step := After(threads, schedule[..|schedule| - 1]), schedule[|schedule| - 1];
      AlwaysOwned(threads, schedule[..|schedule| - 1]);
      if step.RunOne? {
        RunOneKeepsOwned(s, step.who);
      } else if step.BeginDrain? || step.EndDrain? {
        DrainKeepsOwned(s, step);
      } else if step.Accept? {
        AcceptKeepsOwned(s, step.fd);
      } else if step.Read? {
        ReadKeepsOwned(s, step);
      } else if step.QuitFollowers? {
        QuitKeepsOwned(s);
      } else {
        EndingKeepsOwned(s, step);
      }
    }
  }

  /** When every connection sees the end of its stream at most once: no accept overwrites an entry of
    the pool; every entry is a connection that still owns its descriptor; and connections that
    have not been destroyed have descriptors of their own, all open. */
  lemma PoolSafety(threads: nat, schedule: seq<Step>, fd: Fd)
    requires threads > 0 && Allowed(threads, schedule) && OneEofEach(threads, schedule)
    ensures var s := After(threads, schedule);
      && (Enabled(s, Accept(fd)) ==> fd !in s.connpool)
      && (s.doomed == None && fd in s.connpool ==>
           fd in s.openFds && s.connpool[fd] < |s.conns| && s.conns[s.connpool[fd]].fd == fd)
      && (forall c :: 0 <= c < |s.conns| ==> s.conns[c].destroys <= 1)
      && (forall c, d :: 0 <= c < d < |s.conns| && s.conns[c].destroys == 0 && s.conns[d].destroys == 0 ==>
            s.conns[c].fd != s.conns[d].fd && s.conns[c].fd in s.openFds)
  {
    AlwaysOwned(threads, schedule);
    var s := After(threads, schedule);
    forall c | 0 <= c < |s.conns|
      ensures s.conns[c].destroys <= 1 && (s.conns[c].destroys == 0 ==> s.conns[c].fd in s.openFds)
    {
      assert OwnOne(s.conns[c], c, Left(Queues(s)[s.conns[c].looper], Destroyed(c)),
        Left(s.leader.Pending(), RemoveInLoop(c)), s.connpool, s.openFds, s.doomed);
    }
    if Enabled(s, Accept(fd)) {
      AcceptKeepsOwned(s, fd);
    }
    if s.doomed == None && fd in s.connpool {
      var v := s.connpool[fd];
      assert OwnOne(s.conns[v], v, Left(Queues(s)[s.conns[v].looper], Destroyed(v)),
        Left(s.leader.Pending(), RemoveInLoop(v)), s.connpool, s.openFds, s.doomed);
    }
  }

  // ---- A connection that sees the end of its stream twice ----

  lemma OneMore(schedule: seq<Step>, step: Step, s: State) returns (longer: seq<Step>)
    requires Allowed(1, schedule) && After(1, schedule) == s && Enabled(s, step)
    ensures longer == schedule + [step] && Allowed(1, longer) && After(1, longer) == Next(s, step)
  {
    longer := schedule + [step];
    assert longer[..|schedule|] == schedule;
  }

  ghost predicate SameLoop(a: Loop, b: Loop) {
    a.phase == b.phase && a.loopFlag == b.loopFlag && a.functors == b.functors && a.batch == b.batch
  }

  /** Two states of one follower are equal when their parts are. */
  lemma Equal(s: State, t: State)
    requires s.conns == t.conns && s.connpool == t.connpool && s.openFds == t.openFds && s.currIndex == t.currIndex
    requires s.doomed == t.doomed && SameLoop(s.leader, t.leader)
    requires |s.followers| == |t.followers| == 1 && SameLoop(s.followers[0], t.followers[0])
    ensures s == t
  {
    assert s.followers == t.followers;
  }

  lemma Start()
    ensures Allowed(1, []) && After(1, []) == Init(1)
  {
  }

  lemma AfterAccept() returns (schedule: seq<Step>)
    ensures Allowed(1, schedule)
    ensures var idle := Loop(Handling, true, [], []);
      After(1, schedule) == State([Conn(5, 0, CONNECTING, false, 0, 0, 0, 0)], map[5 := 0], {5},
        idle, [idle.(functors := [Established(0)])], 0, None)
  {
    hide After, Allowed;
    var idle := Loop(Handling, true, [], []);
    Start();
    assert Init(1).followers == [idle];
    schedule := OneMore([], Accept(5), Init(1));
    Equal(After(1, schedule), State([Conn(5, 0, CONNECTING, false, 0, 0, 0, 0)], map[5 := 0], {5},
      idle, [idle.(functors := [Established(0)])], 0, None));
  }

  /** The bound on ends of stream is needed: after two of them a pool entry of a connection that still
    lives may stand for a descriptor that is closed, and the next accept may overwrite it. */
  lemma TwoEofsBreakPool() returns (schedule: seq<Step>)
    ensures Allowed(1, schedule)
    ensures var s := After(1, schedule);
      && Enabled(s, Accept(5)) && 5 in s.connpool
      && s.connpool[5] == 1 && |s.conns| == 2 && s.conns[1].destroys == 0
  {
    hide After, Allowed;
    var idle := Loop(Handling, true, [], []);
    var k := Conn(5, 0, CONNECTED, true, 1, 0, 0, 0);
    // The connection is accepted and established, ...
    var s := State([k.(status := CONNECTING, inLoop := false, connects := 0)], map[5 := 0], {5},
      idle, [idle.(functors := [Established(0)])], 0, None);
    schedule := AfterAccept();
    schedule := OneMore(schedule, BeginDrain(Follower(0)), s);
    s := s.(followers := [idle.(phase := Draining, batch := [Established(0)])]);
    schedule := OneMore(schedule, RunOne(Follower(0)), s);
    s := s.(conns := [k], followers := [idle.(phase := Draining)]);
    Equal(After(1, schedule), s);
    schedule := OneMore(schedule, EndDrain(Follower(0)), s);
    s := s.(followers := [idle]);
    Equal(After(1, schedule), s);
    schedule := AfterTwoEofs(schedule, s, k);
  }

  /** ... reads the end of the stream twice, is destroyed once, and a new connection takes its
    descriptor before it is destroyed again. */
  lemma AfterTwoEofs(start: seq<Step>, s0: State, k: Conn) returns (schedule: seq<Step>)
    requires Allowed(1, start) && After(1, start) == s0 && k == Conn(5, 0, CONNECTED, true, 1, 0, 0, 0)
    requires var idle := Loop(Handling, true, [], []); s0 == State([k], map[5 := 0], {5}, idle, [idle], 0, None)
    ensures Allowed(1, schedule)
    ensures var s := After(1, schedule);
      && Enabled(s, Accept(5)) && 5 in s.connpool
      && s.connpool[5] == 1 && |s.conns| == 2 && s.conns[1].destroys == 0
  {
    hide After, Allowed;
    var idle := Loop(Handling, true, [], []);
    var s := s0;
    schedule := OneMore(start, Read(0, true), s);
    s := s.(conns := [k.(status := DISCONNECTING, eofs := 1, closes := 1)],
      leader := idle.(functors := [RemoveInLoop(0)]));
    Equal(After(1, schedule), s);
    schedule := OneMore(schedule, Read(0, true), s);
    s := s.(conns := [k.(status := DISCONNECTING, eofs := 2, closes := 1)],
      leader := idle.(functors := [RemoveInLoop(0), RemoveInLoop(0)]));
    Equal(After(1, schedule), s);
    schedule := OneMore(schedule, BeginDrain(Leader), s);
    s := s.(leader := idle.(phase := Draining, batch := [RemoveInLoop(0), RemoveInLoop(0)]));
    schedule := OneMore(schedule, RunOne(Leader), s);
    s := s.(connpool := map[], leader := idle.(phase := Draining, batch := [RemoveInLoop(0)]),
      followers := [idle.(functors := [Destroyed(0)])]);
    Equal(After(1, schedule), s);
    schedule := OneMore(schedule, RunOne(Leader), s);
    s := s.(leader := idle.(phase := Draining), followers := [idle.(functors := [Destroyed(0), Destroyed(0)])]);
    Equal(After(1, schedule), s);
    schedule := OneMore(schedule, EndDrain(Leader), s);
    s := s.(leader := idle);
    schedule := AfterDescriptorReused(schedule, s);
  }

  lemma AfterDescriptorReused(start: seq<Step>, s0: State) returns (schedule: seq<Step>)
    requires Allowed(1, start) && After(1, start) == s0
    requires var idle := Loop(Handling, true, [], []);
      s0 == State([Conn(5, 0, DISCONNECTING, true, 1, 1, 2, 0)], map[], {5}, idle,
        [idle.(functors := [Destroyed(0), Destroyed(0)])], 0, None)
    ensures Allowed(1, schedule)
    ensures var s := After(1, schedule);
      && Enabled(s, Accept(5)) && 5 in s.connpool
      && s.connpool[5] == 1 && |s.conns| == 2 && s.conns[1].destroys == 0
  {
    hide After, Allowed;
    var idle := Loop(Handling, true, [], []);
    var s := s0;
    schedule := OneMore(start, BeginDrain(Follower(0)), s);
    s := s.(followers := [idle.(phase := Draining, batch := [Destroyed(0), Destroyed(0)])]);
    Equal(After(1, schedule), s);
    schedule := OneMore(schedule, RunOne(Follower(0)), s);
    s := s.(conns := [Conn(5, 0, DISCONNECTED, false, 1, 1, 2, 1)], openFds := {},
      followers := [idle.(phase := Draining, batch := [Destroyed(0)])]);
    Equal(After(1, schedule), s);
    schedule := OneMore(schedule, Accept(5), s);
    s := s.(conns := s.conns + [Conn(5, 0, CONNECTING, false, 0, 0, 0, 0)], connpool := map[5 := 1], openFds := {5},
      followers := [idle.(phase := Draining, batch := [Destroyed(0)], functors := [Established(1)])]);
    Equal(After(1, schedule), s);
    schedule := OneMore(schedule, RunOne(Follower(0)), s);
  }
}

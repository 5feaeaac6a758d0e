/** The scheduler that the timing wheel refines: one set of timers, one clock, and no wheels.

  At each point in time it takes the timers whose turn it is, in any order, and runs one after the
  other while their callbacks add and cancel timers; then the clock steps.
*/
module FlatScheduler {
  import opened Links
  import opened Microseconds
  import opened Options
  import opened Schedules

  /** Slots of the wheel that is walked: after so many ticks the hand is back. */
  const TVR_SIZE := 256

  type Id = nat

  datatype Timer = Timer(sID: string, interval: uint, endtime: nat)

  datatype Firing = Firing(id: Id, at: nat)

  /** The walk of the timers whose turn it is now: still to come, standing at the first of `hand`, or over. */
  datatype Walk = NotBegun | At(hand: seq<Id>) | Done

  /** `live` holds the timers, `fired` the callbacks run so far, in order. */
  datatype Flat = Flat(now: nat, live: map<Id, Timer>, nextId: Id, fired: seq<Firing>, walk: Walk)

  /** What a callback may do to the manager. */
  datatype Action = Add(sID: string, ms: uint, interval: uint) | Del(id: Id)

  /** Callbacks: what the callback of a timer does, given everything that happened so far. */
  type Script = (Id, Flat) -> seq<Action>

  /** `std::hash<std::string>`. */
  type Hash = string -> nat

  // ---- Effects ----

  /** A timer added with no delay while its point in time is walked comes last in the walk. */
  function AddTimer(f: Flat, sID: string, ms: uint, interval: uint): Flat {
    f.(live := f.live[f.nextId := Timer(sID, interval, f.now + Micros(ms))], nextId := f.nextId + 1,
       walk := if f.walk.At? && Micros(ms) == 0 then At(f.walk.hand + [f.nextId]) else f.walk)
  }

  /** The timers of other names. */
  function Others(live: map<Id, Timer>, sID: string): map<Id, Timer> {
    map n | n in live && live[n].sID != sID :: live[n]
  }

  /** Removing a timer removes every timer of the same name. */
  function DelTimer(f: Flat, id: Id): Flat
    requires id in f.live
  {
    var live := Others(f.live, f.live[id].sID);
    f.(live := live, walk := if f.walk.At? then At(Keep(f.walk.hand, live.Keys)) else f.walk)
  }

  function Act(f: Flat, a: Action): Flat {
    match a
    case Add(sID, ms, interval) => AddTimer(f, sID, ms, interval)
    case Del(id) => if id in f.live then DelTimer(f, id) else f
  }

  function Acts(f: Flat, actions: seq<Action>): Flat
    decreases |actions|
  {
    if actions == [] then f else Acts(Act(f, actions[0]), actions[1..])
  }

  function Logged(f: Flat, n: Id): Flat { f.(fired := f.fired + [Firing(n, f.now)]) }

  /** The state after the callback of `n` has returned. */
  function Called(script: Script, f: Flat, n: Id): Flat {
    Acts(Logged(f, n), script(n, Logged(f, n)))
  }

  /** Back from its callback, a timer is re-armed or dropped, unless it was cancelled meanwhile. A
    period of zero puts it last in the walk. */
  function Settle(f: Flat, n: Id): Flat {
    if n !in f.live then f
    else
      var rest := if f.walk.At? then Without(f.walk.hand, n) else [];
      var t := f.live[n];
      if t.interval > 0 then
        f.(live := f.live[n := t.(endtime := f.now + Micros(t.interval))],
           walk := At(rest + if Micros(t.interval) == 0 then [n] else []))
      else f.(live := f.live - {n}, walk := At(rest))
  }

  /** The timer that is due after the first; it is fetched before the callback of the first runs. */
  function Fetched(f: Flat): Option<Id> {
    if f.walk.At? && |f.walk.hand| > 1 then Some(f.walk.hand[1]) else None
  }

  // ---- Turns ----

  /** When a timer runs next: at its endtime, or, if the walk of that time has passed it by, when the
    hand is back. */
  function TurnAt(now: nat, over: bool, endtime: nat): nat {
    if endtime < now || (over && endtime == now) then endtime + TVR_SIZE else endtime
  }

  function Turn(f: Flat, n: Id): nat
    requires n in f.live
  {
    TurnAt(f.now, f.walk.Done?, f.live[n].endtime)
  }

  /** No timer is overdue, and the walk has before it just the timers whose turn it is. */
  ghost predicate Inv(f: Flat) {
    && (forall n :: n in f.live ==> n < f.nextId && f.now <= Turn(f, n))
    && (f.walk.Done? ==> forall n :: n in f.live ==> f.now < Turn(f, n))
    && (f.walk.At? ==> NoDup(f.walk.hand) && forall n :: n in f.walk.hand <==> n in f.live && Turn(f, n) == f.now)
  }

  // ---- Runs ----

  datatype Step =
    | Open(hand: seq<Id>)
    | Fire(id: Id)
    | Tick
    | CallAdd(sID: string, ms: uint, interval: uint)
    | CallDel(id: Id)

  ghost predicate Enabled(f: Flat, s: Step) {
    match s
    case Open(hand) =>
      f.walk.NotBegun? && NoDup(hand) && forall n :: n in hand <==> n in f.live && Turn(f, n) == f.now
    case Fire(n) => f.walk.At? && f.walk.hand != [] && f.walk.hand[0] == n
    case Tick => f.walk.Done? || f.walk == At([])
    case CallAdd(_, _, _) => f.walk.NotBegun?
    case CallDel(n) => f.walk.NotBegun? && n in f.live
  }

  /** The walk ends when no further timer was fetched, whatever the callback has added. */
  function Apply(script: Script, f: Flat, s: Step): Flat {
    match s
    case Open(hand) => f.(walk := At(hand))
    case Fire(n) =>
      var g := Settle(Called(script, f, n), n);
      if Fetched(f).Some? then g else g.(walk := Done)
    case Tick => f.(now := f.now + 1, walk := NotBegun)
    case CallAdd(sID, ms, interval) => AddTimer(f, sID, ms, interval)
    case CallDel(n) => if n in f.live then DelTimer(f, n) else f
  }

  /** The state reached by a trace of steps. */
  function After(script: Script, f: Flat, trace: seq<Step>): Flat {
    if trace == [] then f
    else Apply(script, After(script, f, trace[..|trace| - 1]), trace[|trace| - 1])
  }

  /** Every step of the trace is enabled where it is taken. */
  ghost predicate Allowed(script: Script, f: Flat, trace: seq<Step>) {
    trace == [] ||
    (Allowed(script, f, trace[..|trace| - 1])
     && Enabled(After(script, f, trace[..|trace| - 1]), trace[|trace| - 1]))
  }

  lemma NoSteps(script: Script, f: Flat)
    ensures Allowed(script, f, []) && After(script, f, []) == f
  {
  }

  /** A trace went on by one step. */
  lemma OneMore(script: Script, f: Flat, trace: seq<Step>, s: Step)
    requires Allowed(script, f, trace) && Enabled(After(script, f, trace), s)
    ensures Allowed(script, f, trace + [s])
    ensures After(script, f, trace + [s]) == Apply(script, After(script, f, trace), s)
  {
    assert (trace + [s])[..|trace|] == trace;
  }

  /** Traces compose. */
  lemma {:induction false} Compose(script: Script, f: Flat, first: seq<Step>, rest: seq<Step>)
    requires Allowed(script, f, first) && Allowed(script, After(script, f, first), rest)
    ensures Allowed(script, f, first + rest)
    ensures After(script, f, first + rest) == After(script, After(script, f, first), rest)
  {
    if rest == [] {
      assert first + rest == first;
    } else {
      var init := rest[..|rest| - 1];
      Compose(script, f, first, init);
      assert first + rest == first + init + [rest[|rest| - 1]];
      OneMore(script, f, first + init, rest[|rest| - 1]);
    }
  }

  // ---- What callers promise ----

  /** A period that the 32-bit unit conversion does not turn into zero. */
  predicate ValidInterval(interval: uint) { interval > 0 ==> Micros(interval) > 0 }

  /** The source compares names with that of timer `id` after it has deleted `id` itself, if it comes
    to a later timer of the same hash. */
  predicate Readable(hash: Hash, live: map<Id, Timer>, id: Id)
    requires id in live
  {
    forall y :: y in live && y > id ==> hash(live[y].sID) != hash(live[id].sID)
  }

  /** What the callback of `n` may do in state `f`, timer `next` having been fetched as the next to
    run. It cancels only timers that exist and whose name stays readable; it cancels no bearer of
    the name of `next`, and its own timer by its own id only, and then nothing more. */
  ghost predicate Safe(hash: Hash, f: Flat, n: Id, next: Option<Id>, a: Action) {
    match a
    case Add(_, _, _) => true
    case Del(x) =>
      && x in f.live && n in f.live && Readable(hash, f.live, x)
      && (x != n ==> f.live[x].sID != f.live[n].sID)
      && (next.Some? && next.value in f.live ==> f.live[next.value].sID != f.live[x].sID)
  }

  ghost predicate SafeActs(hash: Hash, f: Flat, n: Id, next: Option<Id>, actions: seq<Action>)
    decreases |actions|
  {
    actions == [] || (Safe(hash, f, n, next, actions[0]) && SafeActs(hash, Act(f, actions[0]), n, next, actions[1..]))
  }

  /** Every callback keeps to that whenever its timer runs. */
  ghost predicate WellBehaved(hash: Hash, script: Script) {
    forall f: Flat :: Inv(f) && f.walk.At? && f.walk.hand != [] ==>
      SafeActs(hash, f, f.walk.hand[0], Fetched(f), script(f.walk.hand[0], f))
  }

  lemma SafeActsUnfold(hash: Hash, f: Flat, n: Id, next: Option<Id>, actions: seq<Action>)
    requires actions != [] && SafeActs(hash, f, n, next, actions)
    ensures Safe(hash, f, n, next, actions[0]) && SafeActs(hash, Act(f, actions[0]), n, next, actions[1..])
    ensures Acts(f, actions) == Acts(Act(f, actions[0]), actions[1..])
  {
  }

  // ---- Invariant ----

  /** While the callback of `n` runs: `n` is first in the walk unless it has been cancelled, and what was
    fetched comes next. */
  ghost predicate Heads(f: Flat, n: Id, next: Option<Id>) {
    && f.walk.At?
    && var h := f.walk.hand;
    && (next.Some? ==> next.value in f.live && next.value != n && next.value < f.nextId)
    && (if n in f.live then h != [] && h[0] == n && (next.Some? ==> |h| > 1 && h[1] == next.value)
        else next.Some? ==> h != [] && h[0] == next.value)
  }

  lemma HeadsAtCall(f: Flat)
    requires Inv(f) && f.walk.At? && f.walk.hand != []
    ensures Heads(f, f.walk.hand[0], Fetched(f)) && f.walk.hand[0] in f.live
  {
    assert forall i :: 0 <= i < |f.walk.hand| ==> f.walk.hand[i] in f.walk.hand;
  }

  lemma AddKeepsHand(f: Flat, sID: string, ms: uint, interval: uint)
    requires Inv(f)
    ensures Inv(AddTimer(f, sID, ms, interval))
  {
    if f.walk.At? && Micros(ms) == 0 {
      assert f.nextId !in f.walk.hand;
    }
  }

  lemma DelKeepsInv(f: Flat, id: Id)
    requires Inv(f) && id in f.live
    ensures Inv(DelTimer(f, id))
  {
    if f.walk.At? {
      KeepElems(f.walk.hand, DelTimer(f, id).live.Keys);
    }
  }

  lemma ActFrame(hash: Hash, f: Flat, n: Id, next: Option<Id>, a: Action)
    requires Inv(f) && n < f.nextId && Heads(f, n, next) && Safe(hash, f, n, next, a)
    ensures var g := Act(f, a);
      && Inv(g) && Heads(g, n, next) && g.now == f.now && g.fired == f.fired && f.nextId <= g.nextId
      && (forall x :: x in g.live && x < f.nextId ==> x in f.live && g.live[x] == f.live[x])
      && (forall x :: x in g.live && x >= f.nextId ==> g.live[x].endtime >= f.now)
  {
    match a
    case Add(sID, ms, interval) => AddKeepsHand(f, sID, ms, interval);
    case Del(x) =>
      DelKeepsInv(f, x);
      KeepHeads(f.walk.hand, DelTimer(f, x).live.Keys);
  }

  lemma IdsGivenOut(f: Flat)
    requires Inv(f)
    ensures forall n :: n in f.live ==> n < f.nextId
  {
  }

  /** What a callback leaves alone: the clock, the log, the timers it does not cancel, and the head of
    the walk. */
  lemma {:induction false} ActsFrame(hash: Hash, f: Flat, n: Id, next: Option<Id>, actions: seq<Action>)
    requires Inv(f) && n < f.nextId && Heads(f, n, next) && SafeActs(hash, f, n, next, actions)
    ensures var g := Acts(f, actions);
      && Inv(g) && Heads(g, n, next) && g.now == f.now && g.fired == f.fired && f.nextId <= g.nextId
      && (forall x :: x in g.live && x < f.nextId ==> x in f.live && g.live[x] == f.live[x])
      && (forall x :: x in g.live && x >= f.nextId ==> g.live[x].endtime >= f.now)
    decreases |actions|
  {
    hide Inv, Heads, Safe, Act;
    IdsGivenOut(f);
    if actions != [] {
      ActFrame(hash, f, n, next, actions[0]);
      ActsFrame(hash, Act(f, actions[0]), n, next, actions[1..]);
    }
  }

  /** The timers left in the walk when the last of it runs were added by its callback. */
  ghost predicate OnlyNew(f: Flat, n: Id, c: Flat) {
    c.walk.At? && forall y :: y in c.walk.hand && y != n ==> y in c.live && c.live[y].endtime == f.now
  }

  lemma CalledKeeps(hash: Hash, script: Script, f: Flat)
    requires WellBehaved(hash, script) && Inv(f) && f.walk.At? && f.walk.hand != []
    ensures var n := f.walk.hand[0];
      var c := Called(script, f, n);
      && n in f.live && Turn(f, n) == f.now
      && Inv(c) && Heads(c, n, Fetched(f)) && c.now == f.now && c.fired == f.fired + [Firing(n, f.now)]
      && f.nextId <= c.nextId
      && (forall x :: x in c.live && x < f.nextId ==> x in f.live && c.live[x] == f.live[x])
      && (forall x :: x in c.live && x >= f.nextId ==> c.live[x].endtime >= f.now)
      && (Fetched(f) == None ==> OnlyNew(f, n, c))
  {
    var n, l := f.walk.hand[0], Logged(f, f.walk.hand[0]);
    HeadsAtCall(l);
    ActsFrame(hash, l, n, Fetched(f), script(n, l));
    var c := Called(script, f, n);
    if Fetched(f) == None {
      assert f.walk.hand == [n];
      forall y | y in c.walk.hand && y != n ensures y in c.live && c.live[y].endtime == f.now {
        assert y in f.walk.hand || y >= f.nextId;
      }
    }
  }

  lemma SettleKeepsInv(f: Flat, c: Flat, n: Id)
    requires Inv(c) && n < c.nextId && Heads(c, n, Fetched(f)) && c.now == f.now
    requires Fetched(f) == None ==> OnlyNew(f, n, c)
    ensures var g := Settle(c, n); Inv(if Fetched(f).Some? then g else g.(walk := Done))
  {
    if n in c.live {
      WithoutElems(c.walk.hand, n);
      var rest := Without(c.walk.hand, n);
      assert forall y :: y in rest + [n] <==> y in rest || y == n;
    }
  }

  /** What was fetched is first once the runner has been settled. */
  lemma FetchedIsNext(c: Flat, n: Id, next: Option<Id>)
    requires Heads(c, n, next) && next.Some? && NoDup(c.walk.hand)
    ensures Settle(c, n).walk.At? && Settle(c, n).walk.hand != [] && Settle(c, n).walk.hand[0] == next.value
  {
    if n in c.live {
      WithoutHead(c.walk.hand);
    }
  }

  /** Every step keeps the invariant. */
  lemma ApplyKeepsInv(hash: Hash, script: Script, f: Flat, s: Step)
    requires WellBehaved(hash, script) && Inv(f) && Enabled(f, s)
    ensures Inv(Apply(script, f, s)) && f.nextId <= Apply(script, f, s).nextId
  {
    match s
    case Open(_) =>
    case Fire(n) =>
      CalledKeeps(hash, script, f);
      SettleKeepsInv(f, Called(script, f, n), n);
    case Tick =>
    case CallAdd(sID, ms, interval) => AddKeepsHand(f, sID, ms, interval);
    case CallDel(n) => DelKeepsInv(f, n);
  }

  // ---- Exactness over whole runs ----

  /** The times at which the callback of `n` ran. */
  function TimesOf(log: seq<Firing>, n: Id): seq<nat> {
    if log == [] then []
    else
      var last := log[|log| - 1];
      TimesOf(log[..|log| - 1], n) + if last.id == n then [last.at] else []
  }

  lemma TimesOfOneMore(log: seq<Firing>, n: Id, f: Firing)
    ensures TimesOf(log + [f], n) == TimesOf(log, n) + if f.id == n then [f.at] else []
  {
    assert (log + [f])[..|log|] == log;
  }

  /** Some callback, or a caller, removed timer `n` during the trace. */
  ghost predicate Cancelled(script: Script, f: Flat, trace: seq<Step>, n: Id) {
    if trace == [] then false
    else
      var init, last := trace[..|trace| - 1], trace[|trace| - 1];
      var m := After(script, f, init);
      || Cancelled(script, f, init, n)
      || (last.Fire? && n in m.live && n !in Called(script, m, last.id).live)
      || (last.CallDel? && n in m.live && n !in Apply(script, m, last).live)
  }

  /** Where timer `n`, live in `f`, stands in `g`. */
  ghost predicate OnSchedule(f: Flat, g: Flat, n: Id)
    requires n in f.live
  {
    var t := f.live[n];
    var period := Micros(t.interval);
    if n in g.live then
      var u := g.live[n];
      && u.sID == t.sID && u.interval == t.interval
      && OnGrid(Turn(f, n), period, Turn(g, n))
      && (t.interval == 0 ==> Turn(g, n) == Turn(f, n))
      && (Turn(g, n) == Turn(f, n) || Turn(g, n) <= g.now + period)
      && TimesOf(g.fired, n) == TimesOf(f.fired, n) + Schedule(Turn(f, n), period, Turn(g, n))
    else
      t.interval == 0 && Turn(f, n) <= g.now && TimesOf(g.fired, n) == TimesOf(f.fired, n) + [Turn(f, n)]
  }

  lemma OnScheduleAtStart(f: Flat, n: Id)
    requires n in f.live
    ensures OnSchedule(f, f, n)
  {
    assert Schedule(Turn(f, n), Micros(f.live[n].interval), Turn(f, n)) == [];
  }

  /** In every run, a timer that nobody cancels keeps to its schedule, step by step. */
  lemma {:induction false} StaysOnSchedule(hash: Hash, script: Script, f: Flat, trace: seq<Step>, n: Id)
    requires WellBehaved(hash, script) && Inv(f) && Allowed(script, f, trace)
    requires n in f.live && ValidInterval(f.live[n].interval) && !Cancelled(script, f, trace, n)
    ensures Inv(After(script, f, trace))
    ensures n < After(script, f, trace).nextId
    ensures OnSchedule(f, After(script, f, trace), n)
  {
    hide WellBehaved, Inv, OnSchedule, ValidInterval, Called, Settle, Turn;
    if trace == [] {
      IdsGivenOut(f);
      OnScheduleAtStart(f, n);
    } else {
      var init, last := trace[..|trace| - 1], trace[|trace| - 1];
      StaysOnSchedule(hash, script, f, init, n);
      var m := After(script, f, init);
      ApplyKeepsInv(hash, script, m, last);
      if last.Fire? {
        FireKeepsSchedule(hash, script, f, m, n);
      } else {
        CallKeepsSchedule(script, f, m, last, n);
      }
    }
  }

  /** A step that leaves timer `n` and its turn alone. */
  lemma StillOnSchedule(f: Flat, m: Flat, g: Flat, n: Id)
    requires n in f.live && OnSchedule(f, m, n) && m.now <= g.now
    requires n in m.live <==> n in g.live
    requires n in m.live ==>
      g.live[n].sID == m.live[n].sID && g.live[n].interval == m.live[n].interval && Turn(g, n) == Turn(m, n)
    requires TimesOf(g.fired, n) == TimesOf(m.fired, n)
    ensures OnSchedule(f, g, n)
  {
  }

  lemma CallKeepsSchedule(script: Script, f: Flat, m: Flat, s: Step, n: Id)
    requires Inv(m) && Enabled(m, s) && !s.Fire? && n in f.live && n < m.nextId && OnSchedule(f, m, n)
    requires s.CallDel? && n in m.live ==> n in Apply(script, m, s).live
    ensures OnSchedule(f, Apply(script, m, s), n)
  {
    hide OnSchedule, TimesOf, Micros;
    StillOnSchedule(f, m, Apply(script, m, s), n);
  }

  lemma FireKeepsSchedule(hash: Hash, script: Script, f: Flat, m: Flat, n: Id)
    requires WellBehaved(hash, script) && Inv(m) && m.walk.At? && m.walk.hand != []
    requires n in f.live && n < m.nextId && OnSchedule(f, m, n) && ValidInterval(f.live[n].interval)
    requires n in m.live ==> n in Called(script, m, m.walk.hand[0]).live
    ensures OnSchedule(f, Apply(script, m, Fire(m.walk.hand[0])), n)
  {
    hide WellBehaved, Inv, OnSchedule, TimesOf, ValidInterval, Called, Heads;
    var x := m.walk.hand[0];
    CalledKeeps(hash, script, m);
    TimesOfOneMore(m.fired, n, Firing(x, m.now));
    if x == n {
      OwnFireKeepsSchedule(f, m, Called(script, m, x), Apply(script, m, Fire(x)), n);
    } else {
      OtherTurnStays(hash, script, m, n);
      StillOnSchedule(f, m, Apply(script, m, Fire(x)), n);
    }
  }

  /** While another timer runs, the turn of `n` stays: it is not passed by, since it was not left out
    of the walk. */
  lemma OtherTurnStays(hash: Hash, script: Script, m: Flat, n: Id)
    requires WellBehaved(hash, script) && Inv(m) && m.walk.At? && m.walk.hand != [] && n != m.walk.hand[0]
      && n < m.nextId
    requires n in m.live ==> n in Called(script, m, m.walk.hand[0]).live
    ensures var g := Apply(script, m, Fire(m.walk.hand[0]));
      && (n in m.live <==> n in g.live)
      && (n in m.live ==> g.live[n] == m.live[n] && Turn(g, n) == Turn(m, n))
  {
    CalledKeeps(hash, script, m);
    hide WellBehaved, Called, Heads;
    if Fetched(m) == None && n in m.live {
      assert m.walk.hand == [m.walk.hand[0]];
      assert n !in m.walk.hand;
    }
  }

  lemma OwnFireKeepsSchedule(f: Flat, m: Flat, c: Flat, g: Flat, n: Id)
    requires n in f.live && OnSchedule(f, m, n) && ValidInterval(f.live[n].interval)
    requires n in m.live && Turn(m, n) == m.now && m.walk.At? && n in c.live && c.live[n] == m.live[n] && c.now == m.now
    requires TimesOf(c.fired, n) == TimesOf(m.fired, n) + [m.now]
    requires g.now == c.now && g.fired == c.fired && (g.live == Settle(c, n).live)
    ensures OnSchedule(f, g, n)
  {
    hide TimesOf, Micros;
    var t := f.live[n];
    if t.interval > 0 {
      assert g.live[n].endtime == m.now + Micros(t.interval) && Turn(g, n) == m.now + Micros(t.interval);
      GridStep(Turn(f, n), Micros(t.interval), m.now);
    }
  }

  lemma LastTick(script: Script, f: Flat, trace: seq<Step>, n: Id)
    requires Allowed(script, f, trace + [Tick]) && !Cancelled(script, f, trace + [Tick], n)
    ensures var m := After(script, f, trace);
      && Allowed(script, f, trace) && Enabled(m, Tick) && !Cancelled(script, f, trace, n)
      && After(script, f, trace + [Tick]) == m.(now := m.now + 1, walk := NotBegun)
  {
    assert (trace + [Tick])[..|trace|] == trace;
  }

  /** When the clock may step, what is on schedule has run all it should. */
  lemma AtRest(f: Flat, m: Flat, n: Id)
    requires Inv(m) && n in f.live && OnSchedule(f, m, n) && Enabled(m, Tick)
    ensures TimesOf(m.fired, n) == TimesOf(f.fired, n) + Schedule(Turn(f, n), Micros(f.live[n].interval), m.now + 1)
    ensures n !in m.live <==> f.live[n].interval == 0 && Turn(f, n) <= m.now
  {
    hide TimesOf, OnGrid;
    if n in m.live {
      assert Turn(m, n) > m.now;
      GridGap(Turn(f, n), Micros(f.live[n].interval), Turn(m, n), m.now + 1);
    }
  }

  /** Exactness. In every run of calls and callbacks up to a tick, a timer that nobody cancels has run at
    exactly the times its turn and its period say: never early, never late, never twice, none
    missed. */
  lemma Exactness(hash: Hash, script: Script, f: Flat, trace: seq<Step>, n: Id)
    requires WellBehaved(hash, script) && Inv(f) && Allowed(script, f, trace + [Tick])
    requires n in f.live && ValidInterval(f.live[n].interval) && !Cancelled(script, f, trace + [Tick], n)
    ensures var g := After(script, f, trace + [Tick]);
      && TimesOf(g.fired, n) == TimesOf(f.fired, n) + Schedule(Turn(f, n), Micros(f.live[n].interval), g.now)
      && (n !in g.live <==> f.live[n].interval == 0 && Turn(f, n) < g.now)
  {
    hide After, Cancelled, Allowed, WellBehaved, Inv, OnSchedule, Enabled, Schedule, TimesOf, Micros, ValidInterval,
      Turn;
    var m := After(script, f, trace);
    LastTick(script, f, trace, n);
    StaysOnSchedule(hash, script, f, trace, n);
    AtRest(f, m, n);
  }

  /** A timer that a callback adds with no delay has its turn now just when another timer was still to
    run after the running one; otherwise the walk is over, and its turn comes when the hand is back.
    By exactness these are the times at which it runs. */
  lemma ZeroDelayAdd(hash: Hash, script: Script, f: Flat, trace: seq<Step>, x: Id)
    requires WellBehaved(hash, script) && Inv(f) && f.walk.At? && f.walk.hand != []
    requires var g := Apply(script, f, Fire(f.walk.hand[0]));
      && x >= f.nextId && x in g.live && g.live[x].endtime == f.now && ValidInterval(g.live[x].interval)
      && Allowed(script, g, trace + [Tick]) && !Cancelled(script, g, trace + [Tick], x)
    ensures var g := Apply(script, f, Fire(f.walk.hand[0]));
      var h := After(script, g, trace + [Tick]);
      var start := if |f.walk.hand| > 1 then f.now else f.now + TVR_SIZE;
      TimesOf(h.fired, x) == TimesOf(g.fired, x) + Schedule(start, Micros(g.live[x].interval), h.now)
  {
    hide After, Cancelled, Allowed, WellBehaved, Inv, Schedule, TimesOf, Micros, ValidInterval, Called;
    var g := Apply(script, f, Fire(f.walk.hand[0]));
    ApplyKeepsInv(hash, script, f, Fire(f.walk.hand[0]));
    CalledKeeps(hash, script, f);
    Exactness(hash, script, g, trace, x);
  }

  /** A timer that is gone, having been cancelled or having run its one shot, never runs again. */
  lemma {:induction false} GoneStaysGone(hash: Hash, script: Script, f: Flat, trace: seq<Step>, n: Id)
    requires WellBehaved(hash, script) && Inv(f) && Allowed(script, f, trace)
    requires n !in f.live && n < f.nextId
    ensures var g := After(script, f, trace);
      Inv(g) && n !in g.live && n < g.nextId && TimesOf(g.fired, n) == TimesOf(f.fired, n)
  {
    hide WellBehaved, Inv, TimesOf, Called;
    if trace != [] {
      var init, last := trace[..|trace| - 1], trace[|trace| - 1];
      GoneStaysGone(hash, script, f, init, n);
      var m := After(script, f, init);
      ApplyKeepsInv(hash, script, m, last);
      if last.Fire? {
        CalledKeeps(hash, script, m);
        TimesOfOneMore(m.fired, n, Firing(last.id, m.now));
      }
    }
  }
}

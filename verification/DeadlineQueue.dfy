/** What `TimerQueue::handle` is meant to do: run every timer that is due, earliest deadline first. */
module DeadlineQueue {
  import opened Microseconds
  import opened Options
  import opened Sets

  /** Addresses: nobody chooses their order, and 0 is none of them. */
  type Id = nat

  datatype Entry = Entry(deadline: nat, id: Id, interval: uint)

  /** The order of `std::set<std::pair<std::uint64_t, Timer>>`. */
  predicate Before(a: Entry, b: Entry) { a.deadline < b.deadline || (a.deadline == b.deadline && a.id < b.id) }

  ghost predicate Sorted(q: seq<Entry>) { forall i, j :: 0 <= i < j < |q| ==> Before(q[i], q[j]) }

  /** A delay of zero counts as 0.1 ms. */
  function Delay(ms: uint): uint { if ms > 0 then Micros(ms) else 100 }

  // ---- Set operations ----

  function Insert(q: seq<Entry>, e: Entry): seq<Entry> {
    if q == [] then [e]
    else if Before(e, q[0]) then [e] + q
    else if Before(q[0], e) then [q[0]] + Insert(q[1..], e)
    else q
  }

  /** Erases the first entry with that id, as `delTimer` does. */
  function Erase(q: seq<Entry>, id: Id): seq<Entry> {
    if q == [] then [] else if q[0].id == id then q[1..] else [q[0]] + Erase(q[1..], id)
  }

  ghost predicate UniqueIds(q: seq<Entry>) { forall a, b :: a in q && b in q && a.id == b.id ==> a == b }

  lemma {:induction false} InsertIsAdd(q: seq<Entry>, e: Entry)
    requires Sorted(q) && forall a :: a in q ==> a.id != e.id
    ensures Sorted(Insert(q, e)) && forall a :: a in Insert(q, e) <==> a in q || a == e
    ensures q != [] && Before(q[0], e) ==> Insert(q, e)[0] == q[0]
  {
    if q != [] {
      var rest := q[1..];
      assert q == [q[0]] + rest;
      assert q[0] in q;
      if Before(e, q[0]) {
        forall i, j | 0 <= i < j < |q| + 1 ensures Before(([e] + q)[i], ([e] + q)[j]) {}
      } else {
        InsertIsAdd(rest, e);
        forall a | a in Insert(rest, e) ensures Before(q[0], a) {}
      }
    }
  }

  lemma {:induction false} EraseIsRemove(q: seq<Entry>, id: Id)
    requires Sorted(q) && UniqueIds(q)
    ensures Sorted(Erase(q, id)) && UniqueIds(Erase(q, id))
    ensures forall a :: a in Erase(q, id) <==> a in q && a.id != id
    ensures q != [] && q[0].id != id ==> Erase(q, id) != [] && Erase(q, id)[0] == q[0]
  {
    EraseElems(q, id);
    EraseSorted(q, id);
  }

  lemma {:induction false} EraseElems(q: seq<Entry>, id: Id)
    requires Sorted(q) && UniqueIds(q)
    ensures forall a :: a in Erase(q, id) <==> a in q && a.id != id
  {
    if q != [] {
      var rest := q[1..];
      assert q == [q[0]] + rest;
      assert forall a :: a in rest ==> a in q && Before(q[0], a);
      if q[0].id != id {
        EraseElems(rest, id);
      }
    }
  }

  lemma {:induction false} EraseSorted(q: seq<Entry>, id: Id)
    requires Sorted(q)
    ensures Sorted(Erase(q, id)) && forall a :: a in Erase(q, id) ==> a in q
  {
    if q != [] && q[0].id != id {
      var rest := q[1..];
      EraseSorted(rest, id);
      forall a | a in Erase(rest, id) ensures Before(q[0], a) {}
    }
  }

  // ---- States and callbacks ----

  /** `used` holds all ids ever given out, `fired` the entries run so far, `cancelled` the ids
    whose timers were cancelled. */
  datatype Timers = Timers(queue: seq<Entry>, used: set<Id>, fired: seq<Entry>, cancelled: set<Id>)

  /** What a callback may do; `clock` is what it reads from the clock. */
  datatype Action = Add(id: Id, clock: nat, ms: uint, interval: uint) | Cancel(id: Id)

  /** What the callback of a timer does, given the state and the clock value at which it is called. */
  type Script = (Id, Timers, nat) -> seq<Action>

  function AddTimer(s: Timers, id: Id, clock: nat, ms: uint, interval: uint): Timers {
    s.(queue := Insert(s.queue, Entry(clock + Delay(ms), id, interval)), used := s.used + {id})
  }

  function Ids(q: seq<Entry>): set<Id> { set e | e in q :: e.id }

  function DelTimer(s: Timers, id: Id): Timers {
    if id in Ids(s.queue) then s.(queue := Erase(s.queue, id), cancelled := s.cancelled + {id}) else s
  }

  function Act(s: Timers, a: Action): Timers {
    match a
    case Add(id, clock, ms, interval) => AddTimer(s, id, clock, ms, interval)
    case Cancel(id) => DelTimer(s, id)
  }

  function Acts(s: Timers, actions: seq<Action>): Timers
    decreases |actions|
  {
    if actions == [] then s else Acts(Act(s, actions[0]), actions[1..])
  }

  /** New timers have new ids, the clock has not gone back, and 32-bit arithmetic has not made a
    delay or a period vanish. */
  ghost predicate Fresh(s: Timers, now: nat, a: Action) {
    a.Add? ==> (
      && a.id !in s.used && a.id != 0 && a.clock >= now && Delay(a.ms) > 0
      && (a.interval > 0 ==> Micros(a.interval) > 0))
  }

  ghost predicate AllFresh(s: Timers, now: nat, actions: seq<Action>)
    decreases |actions|
  {
    actions == [] || (Fresh(s, now, actions[0]) && AllFresh(Act(s, actions[0]), now, actions[1..]))
  }

  /** The timer behind the first. */
  function Second(q: seq<Entry>): Option<Entry> { if |q| > 1 then Some(q[1]) else None }

  /** What a callback of `e` may cancel. When it has cancelled its own timer, the source goes on from the
    iterator `next` that it took before the callback, and it finds out by a mark that any later
    cancelling of a first timer overwrites. */
  ghost predicate PoliteAct(s: Timers, e: Entry, next: Option<Entry>, a: Action) {
    a.Cancel? && a.id in Ids(s.queue) ==>
      if e in s.queue then a.id == e.id && next.Some? ==> next.value in s.queue
      else a.id != s.queue[0].id && (next.Some? ==> a.id != next.value.id)
  }

  ghost predicate Polite(s: Timers, e: Entry, next: Option<Entry>, actions: seq<Action>)
    decreases |actions|
  {
    actions == [] || (PoliteAct(s, e, next, actions[0]) && Polite(Act(s, actions[0]), e, next, actions[1..]))
  }

  /** Every callback keeps to that, whenever it is called. */
  ghost predicate WellBehaved(script: Script) {
    forall s, now :: Inv(s) && s.queue != [] && s.queue[0].deadline <= now ==>
      && AllFresh(s, now, script(s.queue[0].id, s, now))
      && Polite(s, s.queue[0], Second(s.queue), script(s.queue[0].id, s, now))
  }

  ghost predicate Inv(s: Timers) {
    && Sorted(s.queue) && UniqueIds(s.queue) && s.cancelled <= s.used
    && (forall e :: e in s.queue ==>
         e.id in s.used && e.id !in s.cancelled && e.id != 0 && (e.interval > 0 ==> Micros(e.interval) > 0))
  }

  /** Callbacks that do nothing, add one timer at a clock value not before that of the call, or cancel any
    one timer are well behaved. */
  lemma UsualCallbacks(script: Script)
    requires forall s, now :: Inv(s) && s.queue != [] && s.queue[0].deadline <= now ==>
      var actions := script(s.queue[0].id, s, now);
      actions == [] || (|actions| == 1 && Fresh(s, now, actions[0]))
    ensures WellBehaved(script)
  {
    forall s, now | Inv(s) && s.queue != [] && s.queue[0].deadline <= now
      ensures AllFresh(s, now, script(s.queue[0].id, s, now))
      ensures Polite(s, s.queue[0], Second(s.queue), script(s.queue[0].id, s, now))
    {
      assert s.queue[0] in s.queue && (|s.queue| > 1 ==> s.queue[1] in s.queue);
    }
  }

  // ---- Running what is due ----

  function Logged(s: Timers, e: Entry): Timers { s.(fired := s.fired + [e]) }

  function Called(script: Script, s: Timers, e: Entry, now: nat): Timers {
    Acts(Logged(s, e), script(e.id, Logged(s, e), now))
  }

  /** Back from its callback, a timer is re-armed or dropped, unless it was cancelled meanwhile. */
  function Settled(c: Timers, e: Entry, now: nat): Timers {
    if e !in c.queue then c
    else if e.interval > 0 then
      c.(queue := Insert(Erase(c.queue, e.id), Entry(now + Micros(e.interval), e.id, e.interval)))
    else c.(queue := Erase(c.queue, e.id))
  }

  /** One timer runs at clock value `now`. */
  function Fire(script: Script, s: Timers, e: Entry, now: nat): Timers { Settled(Called(script, s, e, now), e, now) }

  ghost function Due(q: seq<Entry>, now: nat): set<Entry> { set e | e in q && e.deadline <= now }

  /** While the first entry is due, it runs. */
  ghost function Drain(script: Script, s: Timers, now: nat): Timers
    requires Inv(s) && WellBehaved(script)
    decreases |Due(s.queue, now)|
  {
    if s.queue == [] || s.queue[0].deadline > now then s
    else
      FireKeeps(script, s, now);
      Drain(script, Fire(script, s, s.queue[0], now), now)
  }

  /** What a callback leaves alone. */
  lemma {:induction false} ActsFrame(s: Timers, now: nat, actions: seq<Action>)
    requires Inv(s) && AllFresh(s, now, actions)
    ensures var t := Acts(s, actions);
      && Inv(t) && t.fired == s.fired && s.used <= t.used && s.cancelled <= t.cancelled
      && (forall e :: e in t.queue ==> e in s.queue || (e.deadline > now && e.id !in s.used))
      && (forall e :: e in s.queue ==> (e in t.queue <==> Cancel(e.id) !in actions))
      && (forall e :: e in s.queue && Cancel(e.id) in actions ==> e.id in t.cancelled)
    decreases |actions|
  {
    if actions != [] {
      var a := actions[0];
      assert actions == [a] + actions[1..];
      hide Inv, Act, Fresh;
      ActFrame(s, now, a);
      ActsFrame(Act(s, a), now, actions[1..]);
    }
  }

  lemma ActFrame(s: Timers, now: nat, a: Action)
    requires Inv(s) && Fresh(s, now, a)
    ensures var t := Act(s, a);
      && Inv(t) && t.fired == s.fired && s.used <= t.used && s.cancelled <= t.cancelled
      && (forall e :: e in t.queue ==> e in s.queue || (e.deadline > now && e.id !in s.used))
      && (forall e :: e in s.queue ==> e.id in s.used && (e in t.queue <==> Cancel(e.id) != a))
      && (forall e :: e in s.queue && Cancel(e.id) == a ==> e.id in t.cancelled)
  {
    match a {
      case Add(id, clock, ms, interval) => InsertIsAdd(s.queue, Entry(clock + Delay(ms), id, interval));
      case Cancel(id) => EraseIsRemove(s.queue, id);
    }
  }

  lemma PoliteStep(s: Timers, now: nat, e: Entry, next: Option<Entry>, a: Action)
    requires Inv(s) && Fresh(s, now, a) && PoliteAct(s, e, next, a) && e.deadline <= now && e.id in s.used
    requires next.Some? ==> next.value.id != e.id
    requires if e in s.queue then s.queue[0] == e else next.Some? ==> next.value in s.queue
    ensures var t := Act(s, a);
      if e in t.queue then e in s.queue && t.queue[0] == e else next.Some? ==> next.value in t.queue
  {
    match a {
      case Add(id, clock, ms, interval) => InsertIsAdd(s.queue, Entry(clock + Delay(ms), id, interval));
      case Cancel(id) => EraseIsRemove(s.queue, id);
    }
  }

  /** A callback of `e` that cancels its own timer leaves the one to come `next` in the set. */
  lemma {:induction false} PoliteKeeps(s: Timers, now: nat, e: Entry, next: Option<Entry>, actions: seq<Action>)
    requires Inv(s) && AllFresh(s, now, actions) && Polite(s, e, next, actions) && e.deadline <= now && e.id in s.used
    requires next.Some? ==> next.value.id != e.id
    requires if e in s.queue then s.queue[0] == e else next.Some? ==> next.value in s.queue
    ensures e !in Acts(s, actions).queue && next.Some? ==> next.value in Acts(s, actions).queue
    decreases |actions|
  {
    hide Inv, Act, Fresh, PoliteAct;
    if actions != [] {
      ActFrame(s, now, actions[0]);
      PoliteStep(s, now, e, next, actions[0]);
      PoliteKeeps(Act(s, actions[0]), now, e, next, actions[1..]);
    }
  }

  /** The callback of the first entry leaves the set in order. */
  lemma CallKeeps(script: Script, s: Timers, now: nat)
    requires Inv(s) && WellBehaved(script) && s.queue != [] && s.queue[0].deadline <= now
    ensures var e, c := s.queue[0], Called(script, s, s.queue[0], now);
      && Inv(c) && c.fired == s.fired + [e] && s.used <= c.used && s.cancelled <= c.cancelled
      && (forall a :: a in c.queue ==> a in s.queue || (a.deadline > now && a.id !in s.used))
      && (forall a :: a in s.queue ==> a in c.queue || a.id in c.cancelled)
  {
    var e := s.queue[0];
    ActsFrame(Logged(s, e), now, script(e.id, Logged(s, e), now));
  }

  /** Erasing an entry, or putting it back with another deadline, keeps the others. */
  lemma RearmKeeps(c: Timers, e: Entry, later: Entry)
    requires Inv(c) && e in c.queue && later.id == e.id && later.interval == e.interval
    ensures var gone := Erase(c.queue, e.id);
      && Inv(c.(queue := gone)) && Inv(c.(queue := Insert(gone, later)))
      && (forall a :: a in gone <==> a in c.queue && a != e)
      && (forall a :: a in Insert(gone, later) <==> (a in c.queue && a != e) || a == later)
  {
    EraseIsRemove(c.queue, e.id);
    InsertIsAdd(Erase(c.queue, e.id), later);
  }

  lemma FewerDue(q: seq<Entry>, q': seq<Entry>, e: Entry, now: nat)
    requires e in q && e.deadline <= now
    requires forall a :: a in q' ==> (a in q && a != e) || a.deadline > now
    ensures |Due(q', now)| < |Due(q, now)|
  {
    assert Due(q', now) <= Due(q, now) - {e};
    SubsetSmaller(Due(q', now), Due(q, now) - {e});
  }

  /** Firing the first entry, which is due, takes it out of what is due and puts nothing in. */
  lemma FireKeeps(script: Script, s: Timers, now: nat)
    requires Inv(s) && WellBehaved(script) && s.queue != [] && s.queue[0].deadline <= now
    ensures var e, t := s.queue[0], Fire(script, s, s.queue[0], now);
      && Inv(t) && t.fired == s.fired + [e] && s.used <= t.used && s.cancelled <= t.cancelled
      && (forall a :: a in t.queue ==>
            (a in s.queue && a != e) || (a.deadline > now && a.id !in s.used)
            || (a == Entry(now + Micros(e.interval), e.id, e.interval) && e.interval > 0))
      && (forall a :: a in s.queue && a != e ==> a in t.queue || a.id in t.cancelled)
      && (e.interval > 0 ==> Entry(now + Micros(e.interval), e.id, e.interval) in t.queue || e.id in t.cancelled)
      && |Due(t.queue, now)| < |Due(s.queue, now)|
  {
    var e, t := s.queue[0], Fire(script, s, s.queue[0], now);
    assert e in s.queue && (e.interval > 0 ==> Micros(e.interval) > 0);
    hide WellBehaved, Inv, Called, Erase, Insert, Micros, Due;
    CallKeeps(script, s, now);
    var c := Called(script, s, e, now);
    if e in c.queue {
      RearmKeeps(c, e, Entry(now + Micros(e.interval), e.id, e.interval));
    }
    FewerDue(s.queue, t.queue, e, now);
  }

  // ---- Theorems ----

  /** The state when the turn of `e` comes: all that is due before it has run. */
  ghost function AtTurnOf(script: Script, s: Timers, now: nat, e: Entry): Timers
    requires Inv(s) && WellBehaved(script)
    decreases |Due(s.queue, now)|
  {
    if s.queue == [] || s.queue[0].deadline > now || !Before(s.queue[0], e) then s
    else
      FireKeeps(script, s, now);
      AtTurnOf(script, Fire(script, s, s.queue[0], now), now, e)
  }

  /** `handle` at clock value `now`, seen as a whole: of the timers that are due it runs exactly those
    that nobody has cancelled when their turn comes, each once, in the order of deadline and id. */
  lemma {:induction false} DrainRunsDue(script: Script, s: Timers, now: nat) returns (ran: seq<Entry>)
    requires Inv(s) && WellBehaved(script)
    ensures var t := Drain(script, s, now);
      && t.fired == s.fired + ran && Sorted(ran)
      && (forall e :: e in ran ==> e in s.queue && e.deadline <= now)
      && (forall e :: e in s.queue && e.deadline <= now ==>
            (e in ran <==> e.id !in AtTurnOf(script, s, now, e).cancelled))
      && (forall e :: e in s.queue && e.deadline <= now ==> e in ran || e.id in t.cancelled)
    decreases |Due(s.queue, now)|
  {
    hide Fire, Drain, AtTurnOf, WellBehaved, Inv, Micros, Due, Before, Sorted;
    if s.queue == [] || s.queue[0].deadline > now {
      ran := [];
      assert s.fired + ran == s.fired;
      NothingDue(script, s, now);
    } else {
      var e := s.queue[0];
      var u := Fire(script, s, e, now);
      DrainOnce(script, s, now);
      FireKeeps(script, s, now);
      var rest := DrainRunsDue(script, u, now);
      ran := [e] + rest;
      assert s.fired + ran == u.fired + rest;
      DrainKeepsCancelled(script, u, now);
      FirstRuns(s.queue, u.queue, rest, now, Drain(script, u, now).cancelled);
      forall a | a in s.queue && a.deadline <= now
        ensures a in ran <==> a.id !in AtTurnOf(script, s, now, a).cancelled
      {
        TurnComes(script, s, now, a);
      }
    }
  }

  /** The first timer has its turn at once; for another one it comes after the first has run. */
  lemma TurnComes(script: Script, s: Timers, now: nat, e: Entry)
    requires Inv(s) && WellBehaved(script) && s.queue != [] && s.queue[0].deadline <= now && e in s.queue
    ensures var u := Fire(script, s, s.queue[0], now);
      && Inv(u)
      && (e == s.queue[0] ==> e.id !in AtTurnOf(script, s, now, e).cancelled)
      && (e != s.queue[0] ==> AtTurnOf(script, s, now, e) == AtTurnOf(script, u, now, e))
      && (e != s.queue[0] && e.id in u.cancelled ==> e.id in AtTurnOf(script, s, now, e).cancelled)
  {
    FireKeeps(script, s, now);
    TurnKeepsCancelled(script, Fire(script, s, s.queue[0], now), now, e);
  }

  lemma {:induction false} TurnKeepsCancelled(script: Script, s: Timers, now: nat, e: Entry)
    requires Inv(s) && WellBehaved(script)
    ensures s.cancelled <= AtTurnOf(script, s, now, e).cancelled
    decreases |Due(s.queue, now)|
  {
    if s.queue != [] && s.queue[0].deadline <= now {
      FireKeeps(script, s, now);
      TurnKeepsCancelled(script, Fire(script, s, s.queue[0], now), now, e);
    }
  }

  lemma NothingDue(script: Script, s: Timers, now: nat)
    requires Inv(s) && WellBehaved(script) && (s.queue == [] || s.queue[0].deadline > now)
    ensures Drain(script, s, now) == s && Sorted([]) && forall e :: e in s.queue ==> e.deadline > now
  {
  }

  lemma DrainOnce(script: Script, s: Timers, now: nat)
    requires Inv(s) && WellBehaved(script) && s.queue != [] && s.queue[0].deadline <= now
    ensures Sorted(s.queue) && Inv(Fire(script, s, s.queue[0], now))
    ensures Drain(script, s, now) == Drain(script, Fire(script, s, s.queue[0], now), now)
    ensures s.queue[0].interval > 0 ==> Micros(s.queue[0].interval) > 0
  {
    assert s.queue[0] in s.queue;
    FireKeeps(script, s, now);
  }

  /** The first of `q` has run, leaving `q'`; of that `rest` has run. */
  lemma FirstRuns(q: seq<Entry>, q': seq<Entry>, rest: seq<Entry>, now: nat, cancelled: set<Id>)
    requires Sorted(q) && q != [] && q[0].deadline <= now && Sorted(rest)
    requires forall a :: a in q' && a.deadline <= now ==> a in q && a != q[0]
    requires forall a :: a in q && a != q[0] ==> a in q' || a.id in cancelled
    requires forall a :: a in rest ==> a in q' && a.deadline <= now
    requires forall a :: a in q' && a.deadline <= now ==> a in rest || a.id in cancelled
    ensures var ran := [q[0]] + rest;
      && Sorted(ran)
      && (forall e :: e in ran ==> e in q && e.deadline <= now)
      && (forall e :: e in q && e.deadline <= now ==> e in ran || e.id in cancelled)
  {
    forall a | a in rest ensures Before(q[0], a) {}
  }

  /** And this is what it leaves: nothing due; the timers that were not due, unless cancelled; each
    periodic timer that ran, re-armed for `now` plus its period, unless cancelled; and new timers. */
  lemma {:induction false} DrainLeavesRest(script: Script, s: Timers, now: nat)
    requires Inv(s) && WellBehaved(script)
    ensures var t := Drain(script, s, now);
      && Inv(t)
      && (forall a :: a in t.queue ==> a.deadline > now)
      && (forall a :: a in s.queue && a.deadline > now ==> a in t.queue || a.id in t.cancelled)
      && (forall e :: e in t.fired && e !in s.fired && e.interval > 0 ==>
            Entry(now + Micros(e.interval), e.id, e.interval) in t.queue || e.id in t.cancelled)
      && (forall a :: a in t.queue ==>
            (a in s.queue) || a.id !in s.used
            || (exists e :: e in s.queue && e.deadline <= now && e.interval > 0
                  && a == Entry(now + Micros(e.interval), e.id, e.interval)))
    decreases |Due(s.queue, now)|
  {
    hide Fire, Drain, WellBehaved, Inv, Micros, Due, Before, Sorted;
    if s.queue == [] || s.queue[0].deadline > now {
      NothingDue(script, s, now);
    } else {
      var e := s.queue[0];
      var u := Fire(script, s, e, now);
      DrainOnce(script, s, now);
      FireKeeps(script, s, now);
      DrainLeavesRest(script, u, now);
      DrainKeepsCancelled(script, u, now);
    }
  }

  lemma {:induction false} DrainKeepsCancelled(script: Script, s: Timers, now: nat)
    requires Inv(s) && WellBehaved(script)
    ensures s.cancelled <= Drain(script, s, now).cancelled
    decreases |Due(s.queue, now)|
  {
    if s.queue != [] && s.queue[0].deadline <= now {
      FireKeeps(script, s, now);
      DrainKeepsCancelled(script, Fire(script, s, s.queue[0], now), now);
    }
  }

  // ---- Whole runs ----

  /** Calls from outside. */
  datatype Op = OpAdd(id: Id, clock: nat, ms: uint, interval: uint) | OpDel(id: Id) | OpHandle(now: nat)

  ghost predicate Permitted(s: Timers, op: Op) {
    match op
    case OpAdd(id, clock, ms, interval) => id !in s.used && id != 0 && (interval > 0 ==> Micros(interval) > 0)
    case OpDel(_) => true
    case OpHandle(_) => true
  }

  ghost function Serve(script: Script, s: Timers, op: Op): (t: Timers)
    requires Inv(s) && WellBehaved(script) && Permitted(s, op)
    ensures Inv(t)
  {
    ServeKeeps(script, s, op);
    match op
    case OpAdd(id, clock, ms, interval) => AddTimer(s, id, clock, ms, interval)
    case OpDel(id) => DelTimer(s, id)
    case OpHandle(now) => Drain(script, s, now)
  }

  lemma ServeKeeps(script: Script, s: Timers, op: Op)
    requires Inv(s) && WellBehaved(script) && Permitted(s, op)
    ensures op.OpAdd? ==> Inv(AddTimer(s, op.id, op.clock, op.ms, op.interval))
    ensures op.OpDel? ==> Inv(DelTimer(s, op.id))
    ensures op.OpHandle? ==> Inv(Drain(script, s, op.now))
  {
    match op
    case OpAdd(id, clock, ms, interval) => InsertIsAdd(s.queue, Entry(clock + Delay(ms), id, interval));
    case OpDel(id) => EraseIsRemove(s.queue, id);
    case OpHandle(now) => DrainLeavesRest(script, s, now);
  }

  ghost predicate AllPermitted(script: Script, s: Timers, ops: seq<Op>)
    requires Inv(s) && WellBehaved(script)
    decreases |ops|
  {
    ops == [] || (Permitted(s, ops[0]) && AllPermitted(script, Serve(script, s, ops[0]), ops[1..]))
  }

  ghost function After(script: Script, s: Timers, ops: seq<Op>): (t: Timers)
    requires Inv(s) && WellBehaved(script) && AllPermitted(script, s, ops)
    ensures Inv(t)
    decreases |ops|
  {
    if ops == [] then s else After(script, Serve(script, s, ops[0]), ops[1..])
  }

  /** The timer `id` was given out and is not in the set. */
  ghost predicate Gone(s: Timers, id: Id) { id in s.used && id !in Ids(s.queue) }

  /** What ran between two states is none of `id`'s doing. */
  ghost predicate NotRun(s: Timers, t: Timers, id: Id) {
    s.fired <= t.fired && forall i :: |s.fired| <= i < |t.fired| ==> t.fired[i].id != id
  }

  lemma {:induction false} DrainKeepsGone(script: Script, s: Timers, now: nat, id: Id)
    requires Inv(s) && WellBehaved(script) && Gone(s, id)
    ensures Gone(Drain(script, s, now), id) && NotRun(s, Drain(script, s, now), id)
    decreases |Due(s.queue, now)|
  {
    hide Fire, Drain, WellBehaved, Inv, Micros, Due, Before, Sorted;
    if s.queue == [] || s.queue[0].deadline > now {
      NothingDue(script, s, now);
    } else {
      DrainOnce(script, s, now);
      FireKeeps(script, s, now);
      assert s.queue[0].id in Ids(s.queue);
      DrainKeepsGone(script, Fire(script, s, s.queue[0], now), now, id);
    }
  }

  /** In every run of calls and callbacks, a timer that is gone, having been cancelled or having run its
    one shot, never runs again. */
  lemma {:induction false} GoneStaysGone(script: Script, s: Timers, ops: seq<Op>, id: Id)
    requires Inv(s) && WellBehaved(script) && AllPermitted(script, s, ops) && Gone(s, id)
    ensures Gone(After(script, s, ops), id) && NotRun(s, After(script, s, ops), id)
    decreases |ops|
  {
    hide WellBehaved, Inv, Drain, Micros;
    if ops != [] {
      ServeKeepsGone(script, s, ops[0], id);
      GoneStaysGone(script, Serve(script, s, ops[0]), ops[1..], id);
    }
  }

  lemma ServeKeepsGone(script: Script, s: Timers, op: Op, id: Id)
    requires Inv(s) && WellBehaved(script) && Permitted(s, op) && Gone(s, id)
    ensures Gone(Serve(script, s, op), id) && NotRun(s, Serve(script, s, op), id)
  {
    match op
    case OpAdd(x, clock, ms, interval) => InsertIsAdd(s.queue, Entry(clock + Delay(ms), x, interval));
    case OpDel(x) => EraseIsRemove(s.queue, x);
    case OpHandle(now) => DrainKeepsGone(script, s, now, id);
  }

  /** Cancelling makes a timer gone. */
  lemma CancelledIsGone(s: Timers, id: Id)
    requires Inv(s) && (id in s.cancelled || id in Ids(s.queue))
    ensures Gone(DelTimer(s, id), id)
  {
    EraseIsRemove(s.queue, id);
  }
}

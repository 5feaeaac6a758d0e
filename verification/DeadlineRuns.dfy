/** When the timers of `TimerQueue` run, over whole runs of calls. */
module DeadlineRuns {
  import opened DeadlineQueue
  import opened Microseconds
  import opened Options

  // ---- What is added ----

  /** The deadline of a timer added at clock value `clock`, in microseconds: `ms` milliseconds later, or 0.1
    milliseconds if that is none. */
  function DeadlineOf(clock: nat, ms: uint): nat { clock + if ms > 0 then 1000 * ms else 100 }

  /** `addTimer` adds that one entry. */
  lemma AddsOneEntry(script: Script, s: Timers, id: Id, clock: nat, ms: uint, interval: uint)
    requires Inv(s) && WellBehaved(script) && ms <= 4294967 && Permitted(s, OpAdd(id, clock, ms, interval))
    ensures var t := Serve(script, s, OpAdd(id, clock, ms, interval));
      && (forall e :: e in t.queue <==> e in s.queue || e == Entry(DeadlineOf(clock, ms), id, interval))
      && t.fired == s.fired && t.cancelled == s.cancelled
  {
    InsertIsAdd(s.queue, Entry(DeadlineOf(clock, ms), id, interval));
  }

  /** The entry that the addition at index `i` makes. */
  function Made(actions: seq<Action>, i: nat): Entry
    requires i < |actions| && actions[i].Add?
  {
    var Add(id, clock, ms, interval) := actions[i];
    Entry(clock + if ms > 0 then Micros(ms) else 100, id, interval)
  }

  /** What a callback adds is in the set afterwards just when it has not cancelled it again. */
  lemma {:induction false} CallbackAdds(s: Timers, now: nat, actions: seq<Action>, i: nat)
    requires Inv(s) && AllFresh(s, now, actions) && i < |actions| && actions[i].Add?
    ensures Made(actions, i) in Acts(s, actions).queue <==> Cancel(actions[i].id) !in actions[i + 1..]
    decreases |actions|
  {
    hide Inv, Act, Fresh, Micros;
    var a, rest := actions[0], actions[1..];
    ActFrame(s, now, a);
    if i == 0 {
      OneAddition(s, now, a);
      ActsFrame(Act(s, a), now, rest);
    } else {
      CallbackAdds(Act(s, a), now, rest, i - 1);
      assert actions[i] == rest[i - 1] && actions[i + 1..] == rest[i..];
    }
  }

  /** And nothing else is new in the set. */
  lemma {:induction false} CallbackAddsOnly(s: Timers, now: nat, actions: seq<Action>, e: Entry)
    requires Inv(s) && AllFresh(s, now, actions) && e in Acts(s, actions).queue && e !in s.queue
    ensures exists i :: 0 <= i < |actions| && actions[i].Add? && e == Made(actions, i)
    decreases |actions|
  {
    hide Inv, Act, Fresh, Micros;
    if actions != [] {
      var a, rest := actions[0], actions[1..];
      ActFrame(s, now, a);
      OneAddition(s, now, a);
      if e in Act(s, a).queue {
        assert actions[0].Add? && e == Made(actions, 0);
      } else {
        CallbackAddsOnly(Act(s, a), now, rest, e);
        var k :| 0 <= k < |rest| && rest[k].Add? && e == Made(rest, k);
        assert actions[k + 1] == rest[k];
      }
    }
  }

  lemma OneAddition(s: Timers, now: nat, a: Action)
    requires Inv(s) && Fresh(s, now, a)
    ensures forall e :: e in Act(s, a).queue && e !in s.queue ==> a.Add? && e == Made([a], 0)
    ensures a.Add? ==> Made([a], 0) in Act(s, a).queue
  {
    match a {
      case Add(id, clock, ms, interval) => InsertIsAdd(s.queue, Entry(clock + Delay(ms), id, interval));
      case Cancel(id) => EraseIsRemove(s.queue, id);
    }
  }

  // ---- Exactness ----

  /** The deadlines with which timer `id` has run, in order. */
  function DeadlinesOf(log: seq<Entry>, id: Id): seq<nat> {
    if log == [] then []
    else
      var last := log[|log| - 1];
      DeadlinesOf(log[..|log| - 1], id) + if last.id == id then [last.deadline] else []
  }

  /** The deadlines with which a timer is to run in a list of calls: once in the first `handle` at or after its
    deadline, and, if it has a period, again that long after the clock value of that call. */
  function DueIn(ops: seq<Op>, deadline: nat, period: nat): seq<nat>
    decreases |ops|
  {
    if ops == [] then []
    else if ops[0].OpHandle? && deadline <= ops[0].now then
      [deadline] + if period == 0 then [] else DueIn(ops[1..], ops[0].now + period, period)
    else DueIn(ops[1..], deadline, period)
  }

  lemma {:induction false} DeadlinesAppend(log: seq<Entry>, more: seq<Entry>, id: Id)
    ensures DeadlinesOf(log + more, id) == DeadlinesOf(log, id) + DeadlinesOf(more, id)
  {
    if more == [] {
      assert log + more == log;
    } else {
      var k := |more| - 1;
      assert (log + more)[..|log| + k] == log + more[..k];
      DeadlinesAppend(log, more[..k], id);
    }
  }

  /** In a list in order, whose only entry of that id is `e`, if any. */
  lemma {:induction false} OnceInOrder(ran: seq<Entry>, e: Entry)
    requires Sorted(ran) && forall a :: a in ran && a.id == e.id ==> a == e
    ensures DeadlinesOf(ran, e.id) == if e in ran then [e.deadline] else []
  {
    if ran != [] {
      var k := |ran| - 1;
      assert ran == ran[..k] + [ran[k]];
      OnceInOrder(ran[..k], e);
      assert ran[k] == e ==> e !in ran[..k];
    }
  }

  /** A periodic timer that was due is set again for the clock value of the call plus its period. */
  lemma {:induction false} DrainRearms(script: Script, s: Timers, now: nat, e: Entry)
    requires Inv(s) && WellBehaved(script) && e in s.queue && e.deadline <= now && e.interval > 0
    ensures var t := Drain(script, s, now);
      Entry(now + Micros(e.interval), e.id, e.interval) in t.queue || e.id in t.cancelled
    decreases |Due(s.queue, now)|
  {
    hide Fire, Drain, WellBehaved, Inv, Micros, Due, Before, Sorted;
    HeadIsDue(s, now, e);
    var u := Fire(script, s, s.queue[0], now);
    DrainOnce(script, s, now);
    FireKeeps(script, s, now);
    DrainLeavesRest(script, u, now);
    DrainKeepsCancelled(script, u, now);
    if e != s.queue[0] && e in u.queue {
      DrainRearms(script, u, now, e);
    }
  }

  lemma HeadIsDue(s: Timers, now: nat, e: Entry)
    requires Inv(s) && e in s.queue && e.deadline <= now
    ensures s.queue != [] && s.queue[0].deadline <= now && s.queue[0] in s.queue
  {
    assert e == s.queue[0] || Before(s.queue[0], e);
  }

  lemma {:induction false} DrainKeepsUsed(script: Script, s: Timers, now: nat)
    requires Inv(s) && WellBehaved(script)
    ensures s.used <= Drain(script, s, now).used
    decreases |Due(s.queue, now)|
  {
    hide Fire, Drain, WellBehaved, Inv, Micros, Due, Before, Sorted;
    if s.queue == [] || s.queue[0].deadline > now {
      NothingDue(script, s, now);
    } else {
      DrainOnce(script, s, now);
      FireKeeps(script, s, now);
      DrainKeepsUsed(script, Fire(script, s, s.queue[0], now), now);
    }
  }

  lemma OnlyEntry(s: Timers, e: Entry)
    requires Inv(s) && e in s.queue
    ensures e.id in s.used && forall a :: a in s.queue && a.id == e.id ==> a == e
  {
  }

  /** What one call of `handle` does for one timer. */
  lemma HandleRuns(script: Script, s: Timers, now: nat, e: Entry)
    requires Inv(s) && WellBehaved(script) && e in s.queue && e.id !in Drain(script, s, now).cancelled
    ensures var t := Drain(script, s, now);
      && Inv(t)
      && DeadlinesOf(t.fired, e.id) == DeadlinesOf(s.fired, e.id) + (if e.deadline <= now then [e.deadline] else [])
      && (e.deadline > now ==> e in t.queue)
      && (e.deadline <= now && e.interval > 0 ==> Entry(now + Micros(e.interval), e.id, e.interval) in t.queue)
      && (e.deadline <= now && e.interval == 0 ==> Gone(t, e.id))
  {
    hide Drain, WellBehaved, Inv, Micros, Sorted, DeadlinesOf;
    var ran := DrainRunsDue(script, s, now);
    OnlyEntry(s, e);
    DeadlinesAppend(s.fired, ran, e.id);
    OnceInOrder(ran, e);
    DrainLeavesRest(script, s, now);
    DrainKeepsUsed(script, s, now);
    if e.deadline <= now && e.interval > 0 {
      DrainRearms(script, s, now, e);
    }
  }

  lemma GoneRunsNoMore(script: Script, s: Timers, ops: seq<Op>, id: Id)
    requires Inv(s) && WellBehaved(script) && AllPermitted(script, s, ops) && Gone(s, id)
    ensures DeadlinesOf(After(script, s, ops).fired, id) == DeadlinesOf(s.fired, id)
  {
    hide WellBehaved, Inv, After, DeadlinesOf;
    GoneStaysGone(script, s, ops, id);
    var t := After(script, s, ops);
    var more := t.fired[|s.fired|..];
    assert t.fired == s.fired + more;
    DeadlinesAppend(s.fired, more, id);
    NotIn(more, id);
  }

  lemma {:induction false} NotIn(log: seq<Entry>, id: Id)
    requires forall i :: 0 <= i < |log| ==> log[i].id != id
    ensures DeadlinesOf(log, id) == []
  {
    if log != [] {
      NotIn(log[..|log| - 1], id);
    }
  }

  lemma ServeKeepsCancelled(script: Script, s: Timers, op: Op)
    requires Inv(s) && WellBehaved(script) && Permitted(s, op)
    ensures s.cancelled <= Serve(script, s, op).cancelled
  {
    if op.OpHandle? {
      DrainKeepsCancelled(script, s, op.now);
    }
  }

  lemma {:induction false} RunKeepsCancelled(script: Script, s: Timers, ops: seq<Op>)
    requires Inv(s) && WellBehaved(script) && AllPermitted(script, s, ops)
    ensures s.cancelled <= After(script, s, ops).cancelled
    decreases |ops|
  {
    hide Inv, WellBehaved, Serve;
    if ops != [] {
      ServeKeepsCancelled(script, s, ops[0]);
      RunKeepsCancelled(script, Serve(script, s, ops[0]), ops[1..]);
    }
  }

  /** A call other than `handle` leaves a timer that it does not cancel alone. */
  lemma OtherCallKeeps(script: Script, s: Timers, op: Op, e: Entry)
    requires Inv(s) && WellBehaved(script) && Permitted(s, op) && !op.OpHandle? && e in s.queue
    ensures var t := Serve(script, s, op); t.fired == s.fired && (e in t.queue || e.id in t.cancelled)
  {
    match op
    case OpAdd(x, clock, ms, interval) => InsertIsAdd(s.queue, Entry(clock + Delay(ms), x, interval));
    case OpDel(x) => EraseIsRemove(s.queue, x);
  }

  lemma ServeHandle(script: Script, s: Timers, now: nat)
    requires Inv(s) && WellBehaved(script)
    ensures Serve(script, s, OpHandle(now)) == Drain(script, s, now)
  {
  }

  /** Exactness. In every run of calls and callbacks, a timer that nobody cancels runs in just those calls of
    `handle` that its deadline and its period say, once in each. */
  lemma {:induction false} Exactness(script: Script, s: Timers, ops: seq<Op>, e: Entry)
    requires Inv(s) && WellBehaved(script) && AllPermitted(script, s, ops)
    requires e in s.queue && e.id !in After(script, s, ops).cancelled
    ensures DeadlinesOf(After(script, s, ops).fired, e.id)
      == DeadlinesOf(s.fired, e.id) + DueIn(ops, e.deadline, Micros(e.interval))
    decreases |ops|
  {
    hide Inv, WellBehaved, Serve, DeadlinesOf, Micros, Drain;
    if ops != [] {
      var op, t, rest := ops[0], Serve(script, s, ops[0]), ops[1..];
      RunKeepsCancelled(script, t, rest);
      if op.OpHandle? {
        ServeHandle(script, s, op.now);
        HandleRuns(script, s, op.now, e);
        ValidPeriod(s, e);
        if e.deadline > op.now {
          Exactness(script, t, rest, e);
        } else if e.interval > 0 {
          Exactness(script, t, rest, Entry(op.now + Micros(e.interval), e.id, e.interval));
        } else {
          GoneRunsNoMore(script, t, rest, e.id);
        }
      } else {
        OtherCallKeeps(script, s, op, e);
        Exactness(script, t, rest, e);
      }
    }
  }

  lemma ValidPeriod(s: Timers, e: Entry)
    requires Inv(s) && e in s.queue
    ensures Micros(e.interval) == 0 <==> e.interval == 0
  {
  }

  // ---- From the empty set on ----

  const NONE := Timers([], {}, [], {})

  ghost predicate OnlyUsed(s: Timers) { forall e :: e in s.fired ==> e.id in s.used }

  lemma {:induction false} DrainLogsUsed(script: Script, s: Timers, now: nat)
    requires Inv(s) && WellBehaved(script) && OnlyUsed(s)
    ensures OnlyUsed(Drain(script, s, now))
    decreases |Due(s.queue, now)|
  {
    hide Fire, Drain, WellBehaved, Inv, Micros, Due, Before, Sorted;
    if s.queue == [] || s.queue[0].deadline > now {
      NothingDue(script, s, now);
    } else {
      DrainOnce(script, s, now);
      FireKeeps(script, s, now);
      OnlyEntry(s, s.queue[0]);
      DrainLogsUsed(script, Fire(script, s, s.queue[0], now), now);
    }
  }

  lemma {:induction false} RunLogsUsed(script: Script, s: Timers, ops: seq<Op>)
    requires Inv(s) && WellBehaved(script) && AllPermitted(script, s, ops) && OnlyUsed(s)
    ensures OnlyUsed(After(script, s, ops))
    decreases |ops|
  {
    hide Inv, WellBehaved;
    if ops != [] {
      if ops[0].OpHandle? {
        DrainLogsUsed(script, s, ops[0].now);
      }
      RunLogsUsed(script, Serve(script, s, ops[0]), ops[1..]);
    }
  }

  lemma AddedToRuns(script: Script, s: Timers, id: Id, clock: nat, ms: uint, interval: uint, ops: seq<Op>)
    requires Inv(s) && WellBehaved(script) && ms <= 4294967 && interval <= 4294967 && OnlyUsed(s)
    requires Permitted(s, OpAdd(id, clock, ms, interval))
    requires var t := Serve(script, s, OpAdd(id, clock, ms, interval));
      AllPermitted(script, t, ops) && id !in After(script, t, ops).cancelled
    ensures var t := Serve(script, s, OpAdd(id, clock, ms, interval));
      DeadlinesOf(After(script, t, ops).fired, id) == DueIn(ops, DeadlineOf(clock, ms), 1000 * interval)
  {
    hide Inv, WellBehaved, Serve, After;
    AddsOneEntry(script, s, id, clock, ms, interval);
    NotIn(s.fired, id);
    var t := Serve(script, s, OpAdd(id, clock, ms, interval));
    Exactness(script, t, ops, Entry(DeadlineOf(clock, ms), id, interval));
  }

  /** In every run from the empty set on, a timer that nobody cancels runs in the first call of `handle` at or
    after `ms` milliseconds from the clock value read when it was added, and then every `interval`
    milliseconds from call to call. */
  lemma AddedRunsOnTime(script: Script, before: seq<Op>, id: Id, clock: nat, ms: uint, interval: uint, ops: seq<Op>)
    requires WellBehaved(script) && ms <= 4294967 && interval <= 4294967 && AllPermitted(script, NONE, before)
    requires var s := After(script, NONE, before);
      Permitted(s, OpAdd(id, clock, ms, interval))
      && var t := Serve(script, s, OpAdd(id, clock, ms, interval));
      AllPermitted(script, t, ops) && id !in After(script, t, ops).cancelled
    ensures var t := Serve(script, After(script, NONE, before), OpAdd(id, clock, ms, interval));
      DeadlinesOf(After(script, t, ops).fired, id) == DueIn(ops, DeadlineOf(clock, ms), 1000 * interval)
  {
    hide WellBehaved, Serve, After, Inv, AllPermitted, OnlyUsed, Due, DeadlinesOf, Permitted;
    NoneUsed();
    RunLogsUsed(script, NONE, before);
    AddedToRuns(script, After(script, NONE, before), id, clock, ms, interval, ops);
  }

  lemma NoneUsed()
    ensures Inv(NONE) && OnlyUsed(NONE)
  {
  }
}

/** The timer queue: an ordered set of deadlines that is walked while callbacks change it. */
module TimerQueue {
  import opened Options
  import opened Links
  import opened Microseconds
  import opened DeadlineQueue

  ghost predicate AllLater(q: seq<Entry>, now: nat) { forall e :: e in q ==> e.deadline > now }

  /** The walk stands at the first entry, or it is past all that is due. */
  ghost predicate Cursor(q: seq<Entry>, it: Option<Entry>, now: nat) {
    it == Begin(q) || (AllLater(q, now) && (it == None || it.value.deadline > now))
  }

  /** Moving on from the first entry of `q0`, which is gone from `q`. */
  lemma CursorMoves(q0: seq<Entry>, q: seq<Entry>, now: nat)
    requires q0 != [] && Sorted(q0) && Sorted(q)
    requires forall a :: a in q ==> (a in q0 && a != q0[0]) || a.deadline > now
    requires |q0| > 1 && q0[1].deadline <= now ==> q0[1] in q
    ensures Cursor(q, Next(q0, q0[0]), now)
  {
    var it := Begin(q0[1..]);
    if it != None && it.value.deadline <= now {
      assert q[0] in q;
      assert q0 == [q0[0]] + q0[1..];
    } else {
      forall a | a in q ensures a.deadline > now {
        if a in q0 && a != q0[0] {
          assert q0 == [q0[0]] + q0[1..];
        }
      }
    }
  }

  /** What the walk may count on once the callback of the first entry has returned. */
  lemma CallFacts(script: Script, s: Timers, now: nat)
    requires Inv(s) && WellBehaved(script) && s.queue != [] && s.queue[0].deadline <= now
    ensures var e, c := s.queue[0], Called(script, s, s.queue[0], now);
      && Inv(c)
      && (forall a :: a in c.queue ==> a in s.queue || a.deadline > now)
      && (e !in c.queue && |s.queue| > 1 ==> s.queue[1] in c.queue)
  {
    var e, l := s.queue[0], Logged(s, s.queue[0]);
    assert e in s.queue && (|s.queue| > 1 ==> s.queue[1] in s.queue && Before(s.queue[0], s.queue[1]));
    ActsFrame(l, now, script(e.id, l, now));
    PoliteKeeps(l, now, e, Second(s.queue), script(e.id, l, now));
  }

  lemma SettleFacts(s: Timers, timer: Entry, now: nat, later: Entry)
    requires Inv(s) && s.queue != [] && s.queue[0] == timer
    requires later == Entry(now + if timer.interval > 0 then Micros(timer.interval) else 1, timer.id, timer.interval)
    ensures var gone := Erase(s.queue, timer.id);
      && Inv(s.(queue := gone)) && Inv(s.(queue := Insert(gone, later)))
      && Cursor(gone, Next(s.queue, timer), now) && Cursor(Insert(gone, later), Next(s.queue, timer), now)
      && Ids(gone) <= Ids(s.queue) && Ids(Insert(gone, later)) <= Ids(s.queue)
      && (forall a :: a in gone <==> a in s.queue && a != timer)
      && (forall a :: a in Insert(gone, later) <==> (a in s.queue && a != timer) || a == later)
  {
    assert timer in s.queue;
    RearmKeeps(s, timer, later);
  }

  lemma {:induction false} EraseAt(q: seq<Entry>, id: Id, i: nat)
    requires i < |q| && q[i].id == id && forall k :: 0 <= k < i ==> q[k].id != id
    ensures Erase(q, id) == q[..i] + q[i + 1..]
  {
    if i > 0 {
      EraseAt(q[1..], id, i - 1);
      assert q[..i] == [q[0]] + q[1..][..i - 1] && q[1..][i..] == q[i + 1..];
    }
  }

  lemma DelTimerAt(s: Timers, id: Id, i: nat)
    requires Inv(s) && i < |s.queue| && s.queue[i].id == id && forall k :: 0 <= k < i ==> s.queue[k].id != id
    ensures var t := DelTimer(s, id);
      && t == s.(queue := s.queue[..i] + s.queue[i + 1..], cancelled := s.cancelled + {id})
      && Inv(t) && id in s.used && id !in Ids(t.queue) && Ids(t.queue) <= Ids(s.queue)
  {
    assert s.queue[i] in s.queue;
    EraseAt(s.queue, id, i);
    hide Erase, Sorted, UniqueIds;
    EraseIsRemove(s.queue, id);
  }

  class TimerQueue {
    const script: Script
    var tmqueue: seq<Entry>
    var rhTimerId: Id
    var used: set<Id>
    var fired: seq<Entry>
    var cancelled: set<Id>

    function View(): Timers
      reads this
    {
      Timers(tmqueue, used, fired, cancelled)
    }

    ghost predicate Valid()
      reads this
    {
      Inv(View()) && (rhTimerId != 0 ==> rhTimerId in used && rhTimerId !in Ids(tmqueue))
    }

    constructor (script: Script)
      ensures Valid() && View() == Timers([], {}, [], {}) && this.script == script
    {
      this.script := script;
      tmqueue, rhTimerId, used, fired, cancelled := [], 0, {}, [], {};
    }

    method AddTimer(id: Id, clock: nat, ms: uint, interval: uint)
      requires Valid() && id !in used && id != 0 && (interval > 0 ==> Micros(interval) > 0)
      modifies `tmqueue, `used
      ensures Valid() && View() == DeadlineQueue.AddTimer(old(View()), id, clock, ms, interval)
    {
      var e := Entry(clock + Delay(ms), id, interval);
      InsertIsAdd(tmqueue, e);
      tmqueue := Insert(tmqueue, e);
      used := used + {id};
    }

    method DelTimer(id: Id)
      requires Valid()
      modifies `tmqueue, `rhTimerId, `cancelled
      ensures Valid() && View() == DeadlineQueue.DelTimer(old(View()), id)
      ensures rhTimerId == if old(tmqueue) != [] && old(tmqueue)[0].id == id then id else old(rhTimerId)
    {
      hide Inv;
      var i := 0;
      while i < |tmqueue|
        invariant i <= |tmqueue| && forall k :: 0 <= k < i ==> tmqueue[k].id != id
        invariant tmqueue == old(tmqueue) && rhTimerId == old(rhTimerId) && cancelled == old(cancelled)
        decreases |tmqueue| - i
      {
        if tmqueue[i].id == id {
          DelTimerAt(View(), id, i);
          if i == 0 {
            rhTimerId := id;
          }
          tmqueue := tmqueue[..i] + tmqueue[i + 1..];
          cancelled := cancelled + {id};
          return;
        }
        i := i + 1;
      }
    }

    /** Runs the callback of the first entry, which is due. */
    method Call(now: nat)
      requires Valid() && tmqueue != [] && tmqueue[0].deadline <= now && WellBehaved(script)
      modifies `tmqueue, `used, `rhTimerId, `cancelled, `fired
      ensures Valid() && View() == Called(script, old(View()), old(tmqueue)[0], now)
      ensures old(tmqueue)[0] in tmqueue ==> tmqueue[0] == old(tmqueue)[0]
      ensures rhTimerId == old(tmqueue)[0].id <==> old(tmqueue)[0] !in tmqueue
    {
      ghost var e, next := tmqueue[0], Second(tmqueue);
      assert e in tmqueue;
      var id := tmqueue[0].id;
      fired := fired + [tmqueue[0]];
      var actions := script(id, View(), now);
      while actions != []
        invariant Valid() && e.id in used
        invariant Acts(View(), actions) == Called(script, old(View()), e, now)
        invariant AllFresh(View(), now, actions) && Polite(View(), e, next, actions)
        invariant e in tmqueue ==> tmqueue[0] == e
        invariant e !in tmqueue ==> e.id !in Ids(tmqueue) && rhTimerId == e.id
        decreases |actions|
      {
        Perform(actions[0], e, next, now);
        actions := actions[1..];
      }
      assert e in tmqueue ==> e.id in Ids(tmqueue);
    }

    method Perform(a: Action, ghost e: Entry, ghost next: Option<Entry>, ghost now: nat)
      requires Valid() && Fresh(View(), now, a) && PoliteAct(View(), e, next, a) && e.deadline <= now && e.id in used
      requires e in tmqueue ==> tmqueue[0] == e
      requires e !in tmqueue ==> e.id !in Ids(tmqueue)
      modifies `tmqueue, `used, `rhTimerId, `cancelled
      ensures Valid() && View() == Act(old(View()), a) && e.id in used
      ensures e in tmqueue ==> tmqueue[0] == e
      ensures e in old(tmqueue) && e !in tmqueue ==> a == Cancel(e.id) && rhTimerId == e.id
      ensures e !in tmqueue ==> e.id !in Ids(tmqueue)
      ensures e !in old(tmqueue) ==> e !in tmqueue && rhTimerId == old(rhTimerId)
    {
      match a
      case Add(id, clock, ms, interval) =>
        InsertIsAdd(tmqueue, Entry(clock + Delay(ms), id, interval));
        AddTimer(id, clock, ms, interval);
      case Cancel(id) =>
        EraseIsRemove(tmqueue, id);
        DelTimer(id);
    }

    /** Erases the timer that has run, or re-arms it. Of what was in the set only that timer is gone,
      a periodic one is back with its next deadline, and from the iterator that is returned the walk
      still comes to everything that is due. */
    method Settle(timer: Entry, currtime: nat) returns (it: Option<Entry>)
      requires Valid() && tmqueue != [] && tmqueue[0] == timer
      modifies `tmqueue
      ensures Valid() && Cursor(tmqueue, it, currtime)
      ensures var later := Entry(currtime + Micros(timer.interval), timer.id, timer.interval);
        forall a :: a in tmqueue <==> (a in old(tmqueue) && a != timer) || (a == later && timer.interval > 0)
      ensures View() == Settled(old(View()), timer, currtime)
    {
      assert timer in tmqueue;
      ghost var delay := if timer.interval > 0 then Micros(timer.interval) else 1;
      ghost var later := Entry(currtime + delay, timer.id, timer.interval);
      hide Inv, Sorted, UniqueIds, Micros, Erase, Insert, Next;
      SettleFacts(View(), timer, currtime, later);
      it := Next(tmqueue, timer);
      tmqueue := Erase(tmqueue, timer.id);
      if timer.interval > 0 {
        var endtime := currtime + Micros(timer.interval);
        tmqueue := Insert(tmqueue, Entry(endtime, timer.id, timer.interval));
      }
    }

    /** `handle` runs what is due, whatever the callbacks do to the set meanwhile. */
    method Handle(currtime: nat)
      requires Valid() && WellBehaved(script)
      modifies this
      ensures Valid() && View() == Drain(script, old(View()), currtime)
    {
      var it := Begin(tmqueue);
      while it.Some?
        invariant Valid() && Cursor(tmqueue, it, currtime)
        invariant Drain(script, View(), currtime) == Drain(script, old(View()), currtime)
        decreases |Due(tmqueue, currtime)|, it.Some?
      {
        if it.value.deadline <= currtime {
          it := RunFirst(it.value, currtime);
        } else {
          break;
        }
      }
    }

    /** One round of the walk: the first entry is due. */
    method RunFirst(timer: Entry, currtime: nat) returns (it: Option<Entry>)
      requires Valid() && WellBehaved(script)
      requires Cursor(tmqueue, Some(timer), currtime) && timer.deadline <= currtime
      modifies this
      ensures Valid() && Cursor(tmqueue, it, currtime)
      ensures old(tmqueue) != [] && old(tmqueue)[0] == timer && View() == Fire(script, old(View()), timer, currtime)
      ensures |Due(tmqueue, currtime)| < |Due(old(tmqueue), currtime)|
      ensures Drain(script, View(), currtime) == Drain(script, old(View()), currtime)
    {
      hide WellBehaved, Sorted, Micros, Due, Erase, Insert, Next;
      CallFacts(script, View(), currtime);
      FireKeeps(script, View(), currtime);
      var tmpIt := Next(tmqueue, timer);
      ghost var q0 := tmqueue;
      Call(currtime);
      if rhTimerId == timer.id {
        rhTimerId := 0;
        it := tmpIt;
        CursorMoves(q0, tmqueue, currtime);
      } else {
        it := Settle(timer, currtime);
      }
    }

    /** Every run of calls is a run of the specification. */
    method RunAll(ops: seq<Op>)
      requires Valid() && WellBehaved(script) && AllPermitted(script, View(), ops)
      modifies this
      ensures Valid() && View() == After(script, old(View()), ops)
    {
      hide WellBehaved, Inv, Drain, Micros;
      var rest := ops;
      while rest != []
        invariant Valid() && AllPermitted(script, View(), rest)
        invariant After(script, View(), rest) == After(script, old(View()), ops)
        decreases |rest|
      {
        match rest[0] {
          case OpAdd(id, clock, ms, interval) => AddTimer(id, clock, ms, interval);
          case OpDel(id) => DelTimer(id);
          case OpHandle(now) => Handle(now);
        }
        rest := rest[1..];
      }
    }

  }
}

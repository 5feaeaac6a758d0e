/** Whether a call of `handle` comes to its end. */
module HandleEnding {
  import opened FlatScheduler
  import opened Links
  import opened Microseconds
  import opened Options
  import opened WalkEnding

  // ---- Periods that meet ----

  /** Two vanished periods whose turns meet by the time `t`. */
  ghost predicate Stuck(g: Flat, x: Id, y: Id, t: nat) {
    && x in g.live && y in g.live && x != y
    && Meet(g, x, y, t) && Turn(g, x) % TVR_SIZE == t % TVR_SIZE
  }

  /** Two timers whose periods have vanished, and whose turns meet when the hand comes round, stop every
    run, with whatever callbacks: unless one of them is cancelled, the clock never gets past the later of
    the two turns. */
  lemma MeetingStopsClock(hash: Hash, script: Script, f: Flat, trace: seq<Step>, x: Id, y: Id)
    requires WellBehaved(hash, script) && Inv(f) && Allowed(script, f, trace)
    requires x in f.live && y in f.live && x != y && Turn(f, y) <= Turn(f, x) && Meet(f, x, y, Turn(f, x))
    requires !Cancelled(script, f, trace, x) && !Cancelled(script, f, trace, y)
    ensures After(script, f, trace).now <= Turn(f, x)
  {
    hide WellBehaved, After, Allowed, Cancelled, Meet;
    StaysStuck(hash, script, f, trace, x, y, Turn(f, x));
  }

  lemma {:induction false} StaysStuck(hash: Hash, script: Script, f: Flat, trace: seq<Step>, x: Id, y: Id, t: nat)
    requires WellBehaved(hash, script) && Inv(f) && Allowed(script, f, trace) && Stuck(f, x, y, t)
    requires !Cancelled(script, f, trace, x) && !Cancelled(script, f, trace, y)
    ensures var g := After(script, f, trace);
      Inv(g) && x < g.nextId && y < g.nextId && Stuck(g, x, y, t) && g.now <= t
  {
    hide WellBehaved, Inv, Called, Stuck, Apply, Enabled;
    if trace == [] {
      StuckBound(f, x, y, t);
    } else {
      var init, last := trace[..|trace| - 1], trace[|trace| - 1];
      StaysStuck(hash, script, f, init, x, y, t);
      StuckBound(After(script, f, init), x, y, t);
      StuckStep(hash, script, After(script, f, init), last, x, y, t);
    }
  }

  lemma StuckBound(g: Flat, x: Id, y: Id, t: nat)
    requires Inv(g) && Stuck(g, x, y, t)
    ensures g.now <= t && x < g.nextId && y < g.nextId && x in g.live && y in g.live
  {
  }

  lemma StuckStep(hash: Hash, script: Script, m: Flat, s: Step, x: Id, y: Id, t: nat)
    requires WellBehaved(hash, script) && Inv(m) && Enabled(m, s) && Stuck(m, x, y, t)
    requires s.Fire? ==> x in Called(script, m, s.id).live && y in Called(script, m, s.id).live
    requires s.CallDel? ==> x in Apply(script, m, s).live && y in Apply(script, m, s).live
    ensures var g := Apply(script, m, s);
      Inv(g) && x < g.nextId && y < g.nextId && Stuck(g, x, y, t) && g.now <= t
  {
    var g := Apply(script, m, s);
    ApplyKeepsInv(hash, script, m, s);
    if s.Fire? {
      FireStaysStuck(hash, script, m, x, y, t);
    } else {
      StuckBound(m, x, y, t);
      hide WellBehaved, Called;
      assert Stuck(g, x, y, t);
    }
    StuckBound(g, x, y, t);
  }

  lemma FireStaysStuck(hash: Hash, script: Script, m: Flat, x: Id, y: Id, t: nat)
    requires WellBehaved(hash, script) && Inv(m) && m.walk.At? && m.walk.hand != [] && Stuck(m, x, y, t)
    requires x in Called(script, m, m.walk.hand[0]).live && y in Called(script, m, m.walk.hand[0]).live
    ensures Stuck(Apply(script, m, Fire(m.walk.hand[0])), x, y, t)
  {
    hide WellBehaved, Called, Heads;
    var n := m.walk.hand[0];
    StuckBound(m, x, y, t);
    CalledKeeps(hash, script, m);
    if x != n {
      OtherTurnStays(hash, script, m, x);
    }
    if y != n {
      OtherTurnStays(hash, script, m, y);
    }
    if x == n || y == n {
      OwnTurnMoves(m, Called(script, m, n), if x == n then y else x, t);
    }
  }

  /** The runner, if its period has vanished, has its next turn now or one round later, and the latter
    only when the other is still to come. */
  lemma OwnTurnMoves(m: Flat, c: Flat, other: Id, t: nat)
    requires Inv(m) && m.walk.At? && m.walk.hand != []
    requires var n := m.walk.hand[0];
      && n in m.live && Turn(m, n) == m.now && n in c.live && c.live[n] == m.live[n] && c.now == m.now && c.walk.At?
      && Vanished(m.live[n]) && other in m.live && other != n && Turn(m, other) <= t
      && m.now % TVR_SIZE == t % TVR_SIZE && Turn(m, other) % TVR_SIZE == t % TVR_SIZE && m.now <= t
    ensures var n := m.walk.hand[0];
      var s := Settle(c, n);
      var g := if Fetched(m).Some? then s else s.(walk := Done);
      && n in g.live && Vanished(g.live[n]) && Turn(g, n) <= t && Turn(g, n) % TVR_SIZE == t % TVR_SIZE
  {
    var n := m.walk.hand[0];
    if Fetched(m) == None {
      assert m.walk.hand == [n] && other !in m.walk.hand;
      assert m.now < t;
    }
  }

  /** Adding two timers with the same delay and the period 2^29 ms is enough. */
  lemma TwoVanishedPeriods(hash: Hash, script: Script, f: Flat, a: string, b: string, ms: uint, trace: seq<Step>)
    requires WellBehaved(hash, script) && Inv(f) && f.walk.NotBegun?
    requires var g := AddTimer(AddTimer(f, a, ms, 0x2000_0000), b, ms, 0x2000_0000);
      && Allowed(script, g, trace) && !Cancelled(script, g, trace, f.nextId)
      && !Cancelled(script, g, trace, f.nextId + 1)
    ensures var g := AddTimer(AddTimer(f, a, ms, 0x2000_0000), b, ms, 0x2000_0000);
      && !Apart(g, f.now + Micros(ms))
      && After(script, g, trace).now <= f.now + Micros(ms)
  {
    hide WellBehaved, After, Allowed, Cancelled, Inv;
    var g := AddTimer(AddTimer(f, a, ms, 0x2000_0000), b, ms, 0x2000_0000);
    AddKeepsHand(f, a, ms, 0x2000_0000);
    AddKeepsHand(AddTimer(f, a, ms, 0x2000_0000), b, ms, 0x2000_0000);
    MicrosVanish(0x2000_0000);
    assert Meet(g, f.nextId, f.nextId + 1, f.now + Micros(ms));
    MeetingStopsClock(hash, script, g, trace, f.nextId, f.nextId + 1);
  }

  // ---- Clocks that go on ----

  /** The steps a call of `handle` takes. */
  ghost predicate OwnSteps(trace: seq<Step>) { forall s :: s in trace ==> s.Open? || s.Fire? || s.Tick? }

  lemma {:induction false} Enumerate(ids: set<Id>) returns (hand: seq<Id>)
    ensures NoDup(hand) && forall n :: n in hand <==> n in ids
    decreases ids
  {
    hand := [];
    if ids != {} {
      var x :| x in ids;
      var rest := Enumerate(ids - {x});
      hand := [x] + rest;
    }
  }

  /** A trace that begins with a step. */
  lemma StepFirst(script: Script, f: Flat, s: Step, rest: seq<Step>)
    requires Enabled(f, s) && Allowed(script, Apply(script, f, s), rest)
    ensures Allowed(script, f, [s] + rest)
    ensures After(script, f, [s] + rest) == After(script, Apply(script, f, s), rest)
  {
    NoSteps(script, f);
    OneMore(script, f, [], s);
    assert [] + [s] == [s];
    Compose(script, f, [s], rest);
  }

  lemma FireStays(hash: Hash, script: Script, f: Flat)
    requires WellBehaved(hash, script) && Inv(f) && f.walk.At? && f.walk.hand != []
    ensures var g := Apply(script, f, Fire(f.walk.hand[0])); g.now == f.now && !g.walk.NotBegun?
  {
    CalledKeeps(hash, script, f);
  }

  /** A walk that ends within `k` callbacks runs down to the next tick. */
  lemma {:induction false} WalkDown(hash: Hash, script: Script, f: Flat, until: nat, k: nat) returns (trace: seq<Step>)
    requires WellBehaved(hash, script) && KeepsApart(script)
    requires Inv(f) && !f.walk.NotBegun? && EndsWithin(script, f, k) && Apart(f, until)
    ensures OwnSteps(trace) && Allowed(script, f, trace)
    ensures var g := After(script, f, trace); Inv(g) && Enabled(g, Tick) && Apart(g, until) && g.now == f.now
    decreases k
  {
    hide WellBehaved, KeepsApart, Inv, Apart, Apply, After, Allowed;
    if Enabled(f, Tick) {
      NoSteps(script, f);
      trace := [];
    } else {
      var s := Fire(f.walk.hand[0]);
      OneFewer(script, f, k);
      ApplyKeepsInv(hash, script, f, s);
      ApplyKeepsApart(hash, script, f, s, until);
      FireStays(hash, script, f);
      var rest := WalkDown(hash, script, Apply(script, f, s), until, k - 1);
      StepFirst(script, f, s, rest);
      trace := [s] + rest;
    }
  }

  /** One round of the loop of `handle`. */
  lemma Round(hash: Hash, script: Script, f: Flat, until: nat) returns (trace: seq<Step>)
    requires WellBehaved(hash, script) && KeepsApart(script) && WalksEnd(script)
    requires Inv(f) && f.walk.NotBegun? && f.now <= until && Apart(f, until)
    ensures OwnSteps(trace) && Allowed(script, f, trace)
    ensures var g := After(script, f, trace); Inv(g) && g.walk.NotBegun? && g.now == f.now + 1 && Apart(g, until)
  {
    hide WellBehaved, KeepsApart, Inv, Apart, Apply, After, Allowed, EndsWithin, Turn;
    var hand := Enumerate(set n | n in f.live && Turn(f, n) == f.now);
    var open := Opened(script, f, hand);
    ApplyKeepsInv(hash, script, f, Open(hand));
    ApplyKeepsApart(hash, script, f, Open(hand), until);
    ApartIsLone(open, until);
    assert Ends(script, open);
    var k: nat :| EndsWithin(script, open, k);
    var down := WalkDown(hash, script, open, until, k);
    StepFirst(script, f, Open(hand), down);
    trace := [Open(hand)] + down;
    var end := After(script, f, trace);
    ApplyKeepsInv(hash, script, end, Tick);
    ApplyKeepsApart(hash, script, end, Tick, until);
    Ticked(script, end);
    OneMore(script, f, trace, Tick);
    trace := trace + [Tick];
  }

  lemma Opened(script: Script, f: Flat, hand: seq<Id>) returns (g: Flat)
    ensures g == Apply(script, f, Open(hand)) && g == f.(walk := At(hand))
  {
    g := f.(walk := At(hand));
  }

  lemma Ticked(script: Script, f: Flat)
    ensures Apply(script, f, Tick) == f.(now := f.now + 1, walk := NotBegun)
  {
  }

  lemma {:induction false} ClockGoesOn(hash: Hash, script: Script, f: Flat, curr: nat) returns (trace: seq<Step>)
    requires WellBehaved(hash, script) && KeepsApart(script) && WalksEnd(script)
    requires Inv(f) && f.walk.NotBegun? && Apart(f, curr)
    ensures OwnSteps(trace) && Allowed(script, f, trace) && After(script, f, trace).now > curr
    decreases curr + 1 - f.now
  {
    hide WellBehaved, KeepsApart, WalksEnd, Inv, Apart, After, Allowed;
    if f.now > curr {
      NoSteps(script, f);
      trace := [];
    } else {
      var round := Round(hash, script, f, curr);
      var rest := ClockGoesOn(hash, script, After(script, f, round), curr);
      Compose(script, f, round, rest);
      trace := round + rest;
    }
  }

  /** Callbacks that only add cancel nothing. */
  lemma {:induction false} NothingCancelled(hash: Hash, script: Script, f: Flat, trace: seq<Step>, x: Id)
    requires WellBehaved(hash, script) && Inv(f) && Allowed(script, f, trace) && OwnSteps(trace)
    requires forall f: Flat :: Inv(f) && f.walk.At? && f.walk.hand != [] ==> AllAdds(script(f.walk.hand[0], f))
    ensures Inv(After(script, f, trace)) && !Cancelled(script, f, trace, x)
  {
    hide WellBehaved, Inv, AllAdds, Apply, Called;
    if trace != [] {
      var init, last := trace[..|trace| - 1], trace[|trace| - 1];
      assert last in trace;
      NothingCancelled(hash, script, f, init, x);
      var m := After(script, f, init);
      ApplyKeepsInv(hash, script, m, last);
      if last.Fire? {
        LoggedInv(m);
        AdderKeepsAll(script, m);
      }
    }
  }

  /** What most callbacks do: add timers with a delay, and with periods that do not vanish. */
  ghost predicate AddsLater(actions: seq<Action>) { AllAdds(actions) && Delayed(actions) && ValidPeriods(actions) }

  /** With such callbacks a call of `handle` at clock value `curr` ends, whatever the number of timers,
    just when no two periods that have vanished meet by then. */
  lemma HandleEndsIff(hash: Hash, script: Script, f: Flat, curr: nat)
    requires forall f: Flat :: Inv(f) && f.walk.At? && f.walk.hand != [] ==> AddsLater(script(f.walk.hand[0], f))
    requires Inv(f) && f.walk.NotBegun?
    ensures (exists trace :: OwnSteps(trace) && Allowed(script, f, trace) && After(script, f, trace).now > curr) <==>
      Apart(f, curr)
  {
    hide Inv, After, Allowed, Cancelled, Turn, Vanished;
    UsualCallbacks(hash, script);
    ValidPeriodsKeepApart(hash, script);
    DelayedWalksEnd(hash, script);
    if Apart(f, curr) {
      var trace := ClockGoesOn(hash, script, f, curr);
    } else {
      var x, y :| x in f.live && y in f.live && Meet(f, x, y, curr) && x != y;
      forall trace | OwnSteps(trace) && Allowed(script, f, trace) ensures After(script, f, trace).now <= curr {
        NothingCancelled(hash, script, f, trace, x);
        NothingCancelled(hash, script, f, trace, y);
        if Turn(f, y) <= Turn(f, x) {
          MeetingStopsClock(hash, script, f, trace, x, y);
        } else {
          MeetingStopsClock(hash, script, f, trace, y, x);
        }
      }
    }
  }
}

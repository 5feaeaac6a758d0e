/** What the calls and the callbacks' calls of the timing wheel come to: when a timer that was added
  runs, and which timers a cancellation takes away.
*/
module AddedTimers {
  import opened FlatScheduler
  import opened Microseconds
  import opened Options
  import opened Schedules

  // ---- Calls from outside ----

  function Start(now: nat): Flat { Flat(now, map[], 0, [], NotBegun) }

  /** Only timers that were added have run. */
  ghost predicate OnlyGivenOut(f: Flat) { forall e :: e in f.fired ==> e.id < f.nextId }

  lemma {:induction false} FiredWereAdded(hash: Hash, script: Script, now: nat, trace: seq<Step>)
    requires WellBehaved(hash, script) && Allowed(script, Start(now), trace)
    ensures var f := After(script, Start(now), trace); Inv(f) && OnlyGivenOut(f)
  {
    hide WellBehaved, Inv, Called, Settle;
    if trace == [] {
      assert Inv(Start(now)) by { StartInv(now); }
    } else {
      var init, last := trace[..|trace| - 1], trace[|trace| - 1];
      FiredWereAdded(hash, script, now, init);
      var m := After(script, Start(now), init);
      ApplyKeepsInv(hash, script, m, last);
      if last.Fire? {
        FireLogsOne(hash, script, m);
      }
    }
  }

  lemma StartInv(now: nat)
    ensures Inv(Start(now))
  {
  }

  lemma FireLogsOne(hash: Hash, script: Script, m: Flat)
    requires WellBehaved(hash, script) && Inv(m) && m.walk.At? && m.walk.hand != []
    ensures var n := m.walk.hand[0];
      n < m.nextId && Apply(script, m, Fire(n)).fired == m.fired + [Firing(n, m.now)]
  {
    CalledKeeps(hash, script, m);
  }

  lemma {:induction false} NeverRan(log: seq<Firing>, n: Id)
    requires forall e :: e in log ==> e.id != n
    ensures TimesOf(log, n) == []
  {
    if log != [] {
      NeverRan(log[..|log| - 1], n);
    }
  }

  /** In every run, a timer added between calls of `handle` runs, unless somebody cancels it, `ms`
    milliseconds later, and then every `interval` milliseconds: at those microseconds and no others. */
  lemma AddedRunsOnTime(hash: Hash, script: Script, start: nat, before: seq<Step>, sID: string, ms: uint,
    interval: uint, trace: seq<Step>)
    requires WellBehaved(hash, script) && ms <= 4294967 && interval <= 4294967
    requires Allowed(script, Start(start), before)
    requires var f := After(script, Start(start), before);
      && Enabled(f, CallAdd(sID, ms, interval))
      && var g := Apply(script, f, CallAdd(sID, ms, interval));
      && Allowed(script, g, trace + [Tick]) && !Cancelled(script, g, trace + [Tick], f.nextId)
    ensures var f := After(script, Start(start), before);
      var g := Apply(script, f, CallAdd(sID, ms, interval));
      var end := After(script, g, trace + [Tick]);
      && f.nextId in g.live && g.live[f.nextId].sID == sID && g.live[f.nextId].interval == interval
      && g.live - {f.nextId} == f.live && f.nextId !in f.live
      && TimesOf(end.fired, f.nextId) == Schedule(f.now + 1000 * ms, 1000 * interval, end.now)
  {
    hide WellBehaved, After, Allowed, Cancelled, Schedule, Settle, Called;
    var f := After(script, Start(start), before);
    var g := Apply(script, f, CallAdd(sID, ms, interval));
    FiredWereAdded(hash, script, start, before);
    NeverRan(f.fired, f.nextId);
    ApplyKeepsInv(hash, script, f, CallAdd(sID, ms, interval));
    Exactness(hash, script, g, trace, f.nextId);
  }

  /** Cancelling a timer from outside takes away the timers of its name and no others. */
  lemma CancelTakesTheName(script: Script, f: Flat, n: Id, y: Id)
    requires Enabled(f, CallDel(n))
    ensures var g := Apply(script, f, CallDel(n));
      && (y in g.live <==> y in f.live && f.live[y].sID != f.live[n].sID)
      && (y in g.live ==> g.live[y] == f.live[y])
      && g.now == f.now && g.fired == f.fired && g.nextId == f.nextId
  {
  }

  // ---- Calls from callbacks ----

  /** How many timers the first `i` actions add. */
  function AddsBefore(actions: seq<Action>, i: nat): nat
    requires i <= |actions|
  {
    if i == 0 then 0 else AddsBefore(actions, i - 1) + if actions[i - 1].Add? then 1 else 0
  }

  /** The id that the addition at index `i` gives out. */
  function NewId(f: Flat, actions: seq<Action>, i: nat): Id
    requires i < |actions|
  {
    f.nextId + AddsBefore(actions, i)
  }

  /** Timer `x` bears the name `name`, there already or added by these actions. */
  ghost predicate Bears(f: Flat, actions: seq<Action>, x: Id, name: string) {
    || (x in f.live && f.live[x].sID == name)
    || exists i :: 0 <= i < |actions| && AddsNamed(f, actions, i, x, name)
  }

  ghost predicate AddsNamed(f: Flat, actions: seq<Action>, i: nat, x: Id, name: string)
    requires i < |actions|
  {
    actions[i].Add? && NewId(f, actions, i) == x && actions[i].sID == name
  }

  /** The action at index `j` cancels a timer of that name. */
  ghost predicate CancelsName(f: Flat, actions: seq<Action>, j: nat, name: string)
    requires j < |actions|
  {
    actions[j].Del? && Bears(f, actions, actions[j].id, name)
  }

  /** Some action from index `from` on does. */
  ghost predicate NameGoes(f: Flat, actions: seq<Action>, from: nat, name: string) {
    exists j :: from <= j < |actions| && CancelsName(f, actions, j, name)
  }

  /** What a list of actions comes to. */
  ghost predicate Effects(f: Flat, actions: seq<Action>, c: Flat) {
    && c.now == f.now && c.fired == f.fired && c.nextId == f.nextId + AddsBefore(actions, |actions|)
    && (forall y :: y in f.live ==> (y in c.live <==> !NameGoes(f, actions, 0, f.live[y].sID)))
    && (forall y :: y in f.live && y in c.live ==> c.live[y] == f.live[y])
    && (forall i {:trigger actions[i]} :: 0 <= i < |actions| && actions[i].Add? ==> NewTimer(f, actions, i, c))
    && (forall y :: y in c.live && y !in f.live ==>
          exists i :: 0 <= i < |actions| && actions[i].Add? && NewId(f, actions, i) == y)
  }

  /** The timer added at index `i` is there unless a later action cancels one of its name. */
  ghost predicate NewTimer(f: Flat, actions: seq<Action>, i: nat, c: Flat)
    requires i < |actions| && actions[i].Add?
  {
    var x, a := NewId(f, actions, i), actions[i];
    && (x in c.live <==> !NameGoes(f, actions, i + 1, a.sID))
    && (x in c.live ==> c.live[x] == Timer(a.sID, a.interval, f.now + Micros(a.ms)))
  }

  lemma {:induction false} AddsGrow(actions: seq<Action>, i: nat, j: nat)
    requires i <= j <= |actions|
    ensures AddsBefore(actions, i) <= AddsBefore(actions, j)
    ensures i < j && actions[i].Add? ==> AddsBefore(actions, i) < AddsBefore(actions, j)
  {
    if i < j {
      AddsGrow(actions, i, j - 1);
    }
  }

  lemma {:induction false} AddsOfPrefix(actions: seq<Action>, a: Action, i: nat)
    requires i <= |actions|
    ensures AddsBefore(actions + [a], i) == AddsBefore(actions, i)
  {
    if i > 0 {
      AddsOfPrefix(actions, a, i - 1);
    }
  }

  /** Only timers whose ids were given out are cancelled. */
  ghost predicate Known(f: Flat, actions: seq<Action>) {
    forall j :: 0 <= j < |actions| && actions[j].Del? ==> actions[j].id < f.nextId + AddsBefore(actions, |actions|)
  }

  /** A live timer bears just the name it has. */
  lemma BearsItsName(f: Flat, actions: seq<Action>, c: Flat, x: Id, name: string)
    requires Effects(f, actions, c) && x in c.live && forall n :: n in f.live ==> n < f.nextId
    ensures Bears(f, actions, x, name) <==> c.live[x].sID == name
  {
    if x !in f.live {
      var i :| 0 <= i < |actions| && actions[i].Add? && NewId(f, actions, i) == x;
      assert NewTimer(f, actions, i, c);
      forall k | 0 <= k < |actions| && AddsNamed(f, actions, k, x, name) ensures k == i {
        AddsGrow(actions, if i < k then i else k, if i < k then k else i);
      }
      assert c.live[x].sID == name ==> AddsNamed(f, actions, i, x, name);
    }
  }

  /** Who bears a name that was given out does not change by another action. */
  lemma BearsStays(f: Flat, actions: seq<Action>, a: Action, x: Id, name: string)
    requires x < f.nextId + AddsBefore(actions, |actions|)
    ensures Bears(f, actions + [a], x, name) <==> Bears(f, actions, x, name)
  {
    var n := |actions|;
    forall i | 0 <= i < n ensures AddsNamed(f, actions + [a], i, x, name) <==> AddsNamed(f, actions, i, x, name) {
      AddsOfPrefix(actions, a, i);
    }
    AddsOfPrefix(actions, a, n);
    assert NewId(f, actions + [a], n) > x;
  }

  lemma GoesOneMore(f: Flat, actions: seq<Action>, a: Action, from: nat, name: string)
    requires Known(f, actions) && from <= |actions|
    ensures NameGoes(f, actions + [a], from, name) <==>
      NameGoes(f, actions, from, name) || CancelsName(f, actions + [a], |actions|, name)
  {
    hide Bears;
    forall j | 0 <= j < |actions|
      ensures CancelsName(f, actions + [a], j, name) <==> CancelsName(f, actions, j, name)
    {
      if actions[j].Del? {
        BearsStays(f, actions, a, actions[j].id, name);
      }
    }
  }

  /** A cancellation of `a.id`, which is there, takes just the timers of its name. */
  lemma LastCancels(f: Flat, actions: seq<Action>, c: Flat, a: Action, name: string)
    requires Effects(f, actions, c) && a.Del? && a.id in c.live
    requires (forall n :: n in f.live ==> n < f.nextId) && forall n :: n in c.live ==> n < c.nextId
    ensures CancelsName(f, actions + [a], |actions|, name) <==> c.live[a.id].sID == name
  {
    BearsStays(f, actions, a, a.id, name);
    BearsItsName(f, actions, c, a.id, name);
  }

  /** One more action adds itself, if anything, to what makes names go. */
  ghost predicate GoesBy(f: Flat, actions: seq<Action>, c: Flat, a: Action) {
    forall from, name {:trigger NameGoes(f, actions + [a], from, name)} :: 0 <= from <= |actions| ==>
      (NameGoes(f, actions + [a], from, name) <==>
       NameGoes(f, actions, from, name) || (a.Del? && a.id in c.live && c.live[a.id].sID == name))
  }

  lemma LastGoesBy(f: Flat, actions: seq<Action>, c: Flat, a: Action)
    requires Effects(f, actions, c) && Known(f, actions) && (a.Del? ==> a.id in c.live)
    requires (forall n :: n in f.live ==> n < f.nextId) && forall n :: n in c.live ==> n < c.nextId
    ensures GoesBy(f, actions, c, a)
  {
    hide NameGoes, CancelsName, Bears, Effects;
    forall from, name | 0 <= from <= |actions|
      ensures NameGoes(f, actions + [a], from, name) <==>
        NameGoes(f, actions, from, name) || (a.Del? && c.live[a.id].sID == name)
    {
      GoesOneMore(f, actions, a, from, name);
      if a.Del? {
        LastCancels(f, actions, c, a, name);
      } else {
        NoCancel(f, actions + [a], |actions|, name);
      }
    }
  }

  lemma NewTimersStep(f: Flat, actions: seq<Action>, c: Flat, a: Action, i: nat)
    requires Effects(f, actions, c) && GoesBy(f, actions, c, a) && (a.Del? ==> a.id in c.live)
    requires forall n :: n in c.live ==> n < c.nextId
    requires i <= |actions| && (actions + [a])[i].Add?
    ensures NewTimer(f, actions + [a], i, Act(c, a))
  {
    hide NameGoes;
    AddsOfPrefix(actions, a, i);
    AddsOfPrefix(actions, a, |actions|);
    if i < |actions| {
      assert NewTimer(f, actions, i, c);
      AddsGrow(actions, i, |actions|);
    } else {
      NothingAfter(f, actions + [a], a.sID);
    }
  }

  lemma NewIdsStep(f: Flat, actions: seq<Action>, c: Flat, a: Action, y: Id)
    requires Effects(f, actions, c) && y in Act(c, a).live && y !in f.live
    ensures exists i :: 0 <= i < |actions + [a]| && (actions + [a])[i].Add? && NewId(f, actions + [a], i) == y
  {
    hide NameGoes, NewTimer;
    var more, k := actions + [a], |actions|;
    if y in c.live {
      var i :| 0 <= i < k && actions[i].Add? && NewId(f, actions, i) == y;
      AddsOfPrefix(actions, a, i);
      assert more[i].Add? && NewId(f, more, i) == y;
    } else {
      AddsOfPrefix(actions, a, k);
      assert more[k].Add? && NewId(f, more, k) == y;
    }
  }

  lemma EffectsStep(f: Flat, actions: seq<Action>, c: Flat, a: Action)
    requires Effects(f, actions, c) && Known(f, actions) && (a.Del? ==> a.id in c.live)
    requires (forall n :: n in f.live ==> n < f.nextId) && forall n :: n in c.live ==> n < c.nextId
    ensures Effects(f, actions + [a], Act(c, a)) && Known(f, actions + [a])
  {
    hide NameGoes, NewTimer;
    LastGoesBy(f, actions, c, a);
    AddsOfPrefix(actions, a, |actions|);
    forall i | 0 <= i < |actions + [a]| && (actions + [a])[i].Add? ensures NewTimer(f, actions + [a], i, Act(c, a)) {
      NewTimersStep(f, actions, c, a, i);
    }
    forall y | y in Act(c, a).live && y !in f.live
      ensures exists i :: 0 <= i < |actions + [a]| && (actions + [a])[i].Add? && NewId(f, actions + [a], i) == y
    {
      NewIdsStep(f, actions, c, a, y);
    }
  }

  lemma NoCancel(f: Flat, actions: seq<Action>, j: nat, name: string)
    requires j < |actions| && actions[j].Add?
    ensures !CancelsName(f, actions, j, name)
  {
  }

  lemma NothingAfter(f: Flat, actions: seq<Action>, name: string)
    ensures !NameGoes(f, actions, |actions|, name)
  {
  }

  lemma EffectsOfNone(f: Flat)
    ensures Effects(f, [], f) && Known(f, [])
  {
  }

  lemma {:induction false} EffectsOf(hash: Hash, f: Flat, n: Id, next: Option<Id>, done: seq<Action>, c: Flat,
    actions: seq<Action>)
    requires Effects(f, done, c) && Known(f, done) && forall x :: x in f.live ==> x < f.nextId
    requires Inv(c) && n < c.nextId && Heads(c, n, next) && SafeActs(hash, c, n, next, actions)
    ensures Effects(f, done + actions, Acts(c, actions))
    decreases |actions|
  {
    hide Inv, Heads, Effects, Known, Act, Safe;
    if actions == [] {
      assert done + actions == done;
    } else {
      var a := actions[0];
      CancelsLive(hash, c, n, next, a);
      ActFrame(hash, c, n, next, a);
      IdsGivenOut(c);
      EffectsStep(f, done, c, a);
      EffectsOf(hash, f, n, next, done + [a], Act(c, a), actions[1..]);
      assert done + [a] + actions[1..] == done + actions;
    }
  }

  lemma CancelsLive(hash: Hash, f: Flat, n: Id, next: Option<Id>, a: Action)
    requires Safe(hash, f, n, next, a)
    ensures a.Del? ==> a.id in f.live
  {
  }

  /** What the callback of `n` has done when it returns: timers go just when it has cancelled one of their
    name since they were added, and those it has added have the name, the period and the deadline it
    asked for. */
  lemma CallbackEffects(hash: Hash, script: Script, f: Flat)
    requires WellBehaved(hash, script) && Inv(f) && f.walk.At? && f.walk.hand != []
    ensures Effects(AtCall(f), CallsMade(script, f), Called(script, f, f.walk.hand[0]))
  {
    hide Effects, Known, SafeActs, Heads, Acts;
    var n := f.walk.hand[0];
    var l := Logged(f, n);
    HeadsAtCall(l);
    IdsGivenOut(l);
    EffectsOfNone(l);
    EffectsOf(hash, l, n, Fetched(f), [], l, script(n, l));
    assert [] + script(n, l) == script(n, l);
  }

  /** The state in which the callback of the first timer of the walk is called. */
  function AtCall(f: Flat): Flat
    requires f.walk.At? && f.walk.hand != []
  {
    f.(fired := f.fired + [Firing(f.walk.hand[0], f.now)])
  }

  /** The calls that this callback makes. */
  function CallsMade(script: Script, f: Flat): seq<Action>
    requires f.walk.At? && f.walk.hand != []
  {
    script(f.walk.hand[0], AtCall(f))
  }

  /** In every run, a timer that a callback adds with a delay, and that neither the rest of that callback
    nor anybody later cancels, runs `ms` milliseconds later, and then every `interval` milliseconds. */
  lemma CallbackAddRunsOnTime(hash: Hash, script: Script, start: nat, before: seq<Step>, i: nat, trace: seq<Step>)
    requires WellBehaved(hash, script) && Allowed(script, Start(start), before)
    requires var f := After(script, Start(start), before);
      && f.walk.At? && f.walk.hand != []
      && var actions, g := CallsMade(script, f), Apply(script, f, Fire(f.walk.hand[0]));
      && i < |actions| && actions[i].Add? && 0 < actions[i].ms <= 4294967 && actions[i].interval <= 4294967
      && !NameGoes(AtCall(f), actions, i + 1, actions[i].sID)
      && Allowed(script, g, trace + [Tick]) && !Cancelled(script, g, trace + [Tick], NewId(f, actions, i))
    ensures var f := After(script, Start(start), before);
      var Add(sID, ms, interval) := CallsMade(script, f)[i];
      var x, g := NewId(f, CallsMade(script, f), i), Apply(script, f, Fire(f.walk.hand[0]));
      var end := After(script, g, trace + [Tick]);
      && x in g.live && g.live[x].sID == sID && g.live[x].interval == interval
      && TimesOf(end.fired, x) == Schedule(f.now + 1000 * ms, 1000 * interval, end.now)
  {
    hide WellBehaved, After, Allowed, Cancelled, Schedule, NameGoes, Inv, Apply, Turn, TimesOf, OnlyGivenOut;
    var f := After(script, Start(start), before);
    FiredWereAdded(hash, script, start, before);
    CallbackAdds(hash, script, f, i);
    Exactness(hash, script, Apply(script, f, Fire(f.walk.hand[0])), trace, NewId(f, CallsMade(script, f), i));
  }

  /** What such an addition leaves when the callback has returned. */
  lemma CallbackAdds(hash: Hash, script: Script, f: Flat, i: nat)
    requires WellBehaved(hash, script) && Inv(f) && OnlyGivenOut(f) && f.walk.At? && f.walk.hand != []
    requires var actions := CallsMade(script, f);
      && i < |actions| && actions[i].Add? && 0 < actions[i].ms <= 4294967
      && !NameGoes(AtCall(f), actions, i + 1, actions[i].sID)
    ensures var Add(sID, ms, interval) := CallsMade(script, f)[i];
      var x, g := NewId(f, CallsMade(script, f), i), Apply(script, f, Fire(f.walk.hand[0]));
      && Inv(g) && x in g.live && g.live[x].sID == sID && g.live[x].interval == interval
      && Turn(g, x) == f.now + 1000 * ms && TimesOf(g.fired, x) == []
  {
    hide WellBehaved, Called, NameGoes, Inv, Effects, Apply, Turn;
    var n, actions := f.walk.hand[0], CallsMade(script, f);
    CallbackEffects(hash, script, f);
    NewInEffects(AtCall(f), actions, i, Called(script, f, n));
    SettledLater(hash, script, f, NewId(f, actions, i));
    NeverRan(f.fired + [Firing(n, f.now)], NewId(f, actions, i));
    FireStep(f);
    ApplyKeepsInv(hash, script, f, Fire(n));
  }

  lemma FireStep(f: Flat)
    requires f.walk.At? && f.walk.hand != []
    ensures Enabled(f, Fire(f.walk.hand[0]))
  {
  }

  lemma NewInEffects(f: Flat, actions: seq<Action>, i: nat, c: Flat)
    requires Effects(f, actions, c) && i < |actions| && actions[i].Add? && !NameGoes(f, actions, i + 1, actions[i].sID)
    ensures var x := NewId(f, actions, i);
      && x >= f.nextId && x in c.live
      && c.live[x] == Timer(actions[i].sID, actions[i].interval, f.now + Micros(actions[i].ms))
  {
    assert NewTimer(f, actions, i, c);
  }

  /** A timer added with a delay has its turn at its endtime once the callback has returned. */
  lemma SettledLater(hash: Hash, script: Script, f: Flat, x: Id)
    requires WellBehaved(hash, script) && Inv(f) && f.walk.At? && f.walk.hand != []
    requires x >= f.nextId && x in Called(script, f, f.walk.hand[0]).live
    requires Called(script, f, f.walk.hand[0]).live[x].endtime > f.now
    ensures var n, g := f.walk.hand[0], Apply(script, f, Fire(f.walk.hand[0]));
      && n < f.nextId && x in g.live && g.live[x] == Called(script, f, n).live[x]
      && Turn(g, x) == g.live[x].endtime
      && g.fired == f.fired + [Firing(n, f.now)]
  {
    CalledKeeps(hash, script, f);
  }
}

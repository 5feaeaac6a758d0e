/** Whether the walk of the timers that are due comes to an end. */
module WalkEnding {
  import opened FlatScheduler
  import opened Links
  import opened Microseconds
  import opened Options
  import opened Sets

  /** The walk is over after at most `k` more callbacks. */
  ghost predicate EndsWithin(script: Script, f: Flat, k: nat)
    decreases k
  {
    !f.walk.At? || f.walk.hand == []
    || (k > 0 && EndsWithin(script, Apply(script, f, Fire(f.walk.hand[0])), k - 1))
  }

  ghost predicate Ends(script: Script, f: Flat) { exists k: nat :: EndsWithin(script, f, k) }

  lemma OneFewer(script: Script, f: Flat, k: nat)
    requires EndsWithin(script, f, k) && f.walk.At? && f.walk.hand != []
    ensures k > 0 && EndsWithin(script, Apply(script, f, Fire(f.walk.hand[0])), k - 1)
  {
  }

  lemma EndsOneLater(script: Script, f: Flat)
    requires f.walk.At? && f.walk.hand != [] && Ends(script, Apply(script, f, Fire(f.walk.hand[0])))
    ensures Ends(script, f)
  {
    var k: nat :| EndsWithin(script, Apply(script, f, Fire(f.walk.hand[0])), k);
    assert EndsWithin(script, f, k + 1);
  }

  // ---- Periods that have vanished ----

  /** A periodic timer whose period wraps to zero: having run, it is due again at once. */
  predicate Vanished(t: Timer) { t.interval > 0 && Micros(t.interval) == 0 }

  function VanishedAhead(f: Flat): set<Id>
    requires f.walk.At?
  {
    set n | n in f.walk.hand && n in f.live && Vanished(f.live[n])
  }

  /** At most one of the timers in the walk is of that kind. */
  ghost predicate Lone(f: Flat)
    requires f.walk.At?
  {
    forall x, y :: x in VanishedAhead(f) && y in VanishedAhead(f) ==> x == y
  }

  predicate Meet(f: Flat, x: Id, y: Id, until: nat)
    requires x in f.live && y in f.live
  {
    && Vanished(f.live[x]) && Vanished(f.live[y]) && Turn(f, x) <= until && Turn(f, y) <= until
    && Turn(f, x) % TVR_SIZE == Turn(f, y) % TVR_SIZE
  }

  /** No two of them have turns up to `until` that meet when the hand comes round. */
  predicate Apart(f: Flat, until: nat) {
    forall x, y :: x in f.live && y in f.live && Meet(f, x, y, until) ==> x == y
  }

  /** Callbacks do not keep a walk going for ever in which at most one period has vanished. */
  ghost predicate WalksEnd(script: Script) {
    forall f: Flat :: Inv(f) && f.walk.At? && Lone(f) ==> Ends(script, f)
  }

  /** Callbacks add no timer with a vanished period that would meet another. */
  ghost predicate KeepsApart(script: Script) {
    forall f: Flat, until: nat :: Inv(f) && f.walk.At? && f.walk.hand != [] && Apart(f, until) ==>
      Apart(Called(script, f, f.walk.hand[0]), until)
  }

  lemma ApartIsLone(f: Flat, until: nat)
    requires Inv(f) && f.walk.At? && Apart(f, until) && f.now <= until
    ensures Lone(f)
  {
  }

  /** Turns that only move on by whole rounds of the hand stay apart. */
  lemma StayApart(f: Flat, g: Flat, until: nat)
    requires Apart(f, until)
    requires forall y :: y in g.live && Vanished(g.live[y]) ==>
      && y in f.live && Vanished(f.live[y]) && Turn(f, y) <= Turn(g, y)
      && Turn(g, y) % TVR_SIZE == Turn(f, y) % TVR_SIZE
    ensures Apart(g, until)
  {
    hide Vanished, Turn;
  }

  lemma SettleStaysApart(c: Flat, n: Id, g: Flat, until: nat)
    requires c.walk.At? && Apart(c, until) && (n in c.live ==> Turn(c, n) == c.now)
    requires g == Settle(c, n) || g == Settle(c, n).(walk := Done)
    ensures Apart(g, until)
  {
    hide Apart, Micros;
    StayApart(c, g, until);
  }

  /** The steps of a call of `handle` keep vanished periods apart. */
  lemma ApplyKeepsApart(hash: Hash, script: Script, f: Flat, s: Step, until: nat)
    requires WellBehaved(hash, script) && KeepsApart(script) && Inv(f) && Enabled(f, s) && Apart(f, until)
    requires s.Open? || s.Fire? || s.Tick?
    ensures Apart(Apply(script, f, s), until)
  {
    hide Apart, WellBehaved, Called, Settle, Vanished, Heads;
    match s
    case Open(_) => StayApart(f, Apply(script, f, s), until);
    case Fire(n) =>
      CalledKeeps(hash, script, f);
      SettleStaysApart(Called(script, f, n), n, Apply(script, f, s), until);
    case Tick => StayApart(f, Apply(script, f, s), until);
  }

  // ---- Usual callbacks ----

  ghost predicate AllAdds(actions: seq<Action>) { forall a :: a in actions ==> a.Add? }

  ghost predicate Delayed(actions: seq<Action>) { forall a :: a in actions && a.Add? ==> Micros(a.ms) > 0 }

  /** What callbacks usually do: add any number of timers, and in the end perhaps cancel their own. */
  ghost predicate Usual(hash: Hash, f: Flat, n: Id, next: Option<Id>, actions: seq<Action>) {
    AllAdds(actions) ||
    (actions != [] && AllAdds(actions[..|actions| - 1]) && actions[|actions| - 1] == Del(n)
     && Safe(hash, Acts(f, actions[..|actions| - 1]), n, next, Del(n)))
  }

  lemma UsualCallbacks(hash: Hash, script: Script)
    requires forall f: Flat :: Inv(f) && f.walk.At? && f.walk.hand != [] ==>
      Usual(hash, f, f.walk.hand[0], Fetched(f), script(f.walk.hand[0], f))
    ensures WellBehaved(hash, script)
  {
    forall f: Flat | Inv(f) && f.walk.At? && f.walk.hand != []
      ensures SafeActs(hash, f, f.walk.hand[0], Fetched(f), script(f.walk.hand[0], f))
    {
      UsualActions(hash, f, f.walk.hand[0], Fetched(f), script(f.walk.hand[0], f));
    }
  }

  lemma {:induction false} UsualActions(hash: Hash, f: Flat, n: Id, next: Option<Id>, actions: seq<Action>)
    requires Usual(hash, f, n, next, actions)
    ensures SafeActs(hash, f, n, next, actions)
    decreases |actions|
  {
    if actions != [] && actions[0].Add? {
      var rest := actions[1..];
      assert actions == [actions[0]] + rest;
      if !AllAdds(actions) {
        assert actions[..|actions| - 1] == [actions[0]] + rest[..|rest| - 1];
        assert ([actions[0]] + rest[..|rest| - 1])[1..] == rest[..|rest| - 1];
      }
      UsualActions(hash, Act(f, actions[0]), n, next, rest);
    }
  }

  /** Callbacks whose new timers have periods that do not vanish keep vanished periods apart. */
  lemma ValidPeriodsKeepApart(hash: Hash, script: Script)
    requires WellBehaved(hash, script)
    requires forall f: Flat :: Inv(f) && f.walk.At? && f.walk.hand != [] ==> ValidPeriods(script(f.walk.hand[0], f))
    ensures KeepsApart(script)
  {
    forall f: Flat, until: nat | Inv(f) && f.walk.At? && f.walk.hand != [] && Apart(f, until)
      ensures Apart(Called(script, f, f.walk.hand[0]), until)
    {
      var n := f.walk.hand[0];
      CalledKeeps(hash, script, f);
      NewOnesValid(Logged(f, n), script(n, Logged(f, n)));
      StayApart(f, Called(script, f, n), until);
    }
  }

  ghost predicate ValidPeriods(actions: seq<Action>) {
    forall a :: a in actions && a.Add? ==> ValidInterval(a.interval)
  }

  lemma {:induction false} NewOnesValid(f: Flat, actions: seq<Action>)
    requires ValidPeriods(actions) && forall n :: n in f.live ==> n < f.nextId
    ensures var g := Acts(f, actions);
      && f.nextId <= g.nextId
      && (forall x :: x in g.live && x < f.nextId ==> x in f.live && g.live[x] == f.live[x])
      && (forall x :: x in g.live && x >= f.nextId ==> !Vanished(g.live[x]))
    decreases |actions|
  {
    if actions != [] {
      assert actions == [actions[0]] + actions[1..];
      NewOnesValid(Act(f, actions[0]), actions[1..]);
    }
  }

  lemma {:induction false} NewOnesLater(f: Flat, actions: seq<Action>)
    requires Delayed(actions) && forall n :: n in f.live ==> n < f.nextId
    ensures var g := Acts(f, actions);
      && f.nextId <= g.nextId && g.now == f.now
      && (forall x :: x in g.live && x < f.nextId ==> x in f.live && g.live[x] == f.live[x])
      && (forall x :: x in g.live && x >= f.nextId ==> g.live[x].endtime > g.now)
    decreases |actions|
  {
    if actions != [] {
      assert actions == [actions[0]] + actions[1..];
      NewOnesLater(Act(f, actions[0]), actions[1..]);
    }
  }

  // ---- Callbacks that add with a delay ----

  ghost function Ahead(f: Flat): set<Id>
    requires f.walk.At?
  {
    set n | n in f.walk.hand
  }

  /** Each timer counts twice, and a vanished period at the head of the walk once more. */
  ghost function Left(f: Flat): nat
    requires f.walk.At?
  {
    var h := f.walk.hand;
    2 * |Ahead(f)| + if h != [] && h[0] in f.live && Vanished(f.live[h[0]]) then 1 else 0
  }

  /** When nothing is added without a delay, a walk with at most one vanished period ends. */
  lemma DelayedWalksEnd(hash: Hash, script: Script)
    requires WellBehaved(hash, script)
    requires forall f: Flat :: Inv(f) && f.walk.At? && f.walk.hand != [] ==> Delayed(script(f.walk.hand[0], f))
    ensures WalksEnd(script)
  {
    forall f: Flat | Inv(f) && f.walk.At? && Lone(f) ensures Ends(script, f) {
      DelayedEnds(hash, script, f);
    }
  }

  lemma {:induction false} DelayedEnds(hash: Hash, script: Script, f: Flat)
    requires WellBehaved(hash, script)
    requires forall f: Flat :: Inv(f) && f.walk.At? && f.walk.hand != [] ==> Delayed(script(f.walk.hand[0], f))
    requires Inv(f) && f.walk.At? && Lone(f)
    ensures Ends(script, f)
    decreases Left(f)
  {
    hide WellBehaved, Inv, Lone, Delayed, Apply, Left;
    if f.walk.hand == [] {
      assert EndsWithin(script, f, 0);
    } else {
      var g := Apply(script, f, Fire(f.walk.hand[0]));
      LoggedInv(f);
      ShorterWalk(hash, script, f);
      if g.walk.At? {
        DelayedEnds(hash, script, g);
      } else {
        assert EndsWithin(script, g, 0);
      }
      EndsOneLater(script, f);
    }
  }

  lemma LoggedInv(f: Flat)
    requires Inv(f) && f.walk.At? && f.walk.hand != []
    ensures Inv(Logged(f, f.walk.hand[0]))
  {
  }

  lemma ShorterWalk(hash: Hash, script: Script, f: Flat)
    requires WellBehaved(hash, script) && Inv(f) && f.walk.At? && f.walk.hand != [] && Lone(f)
    requires Delayed(script(f.walk.hand[0], Logged(f, f.walk.hand[0])))
    ensures var g := Apply(script, f, Fire(f.walk.hand[0]));
      && Inv(g) && (g.walk.At? ==> Lone(g) && Left(g) < Left(f))
  {
    hide WellBehaved, Acts, Delayed, Lone, Settle;
    var n := f.walk.hand[0];
    var g := Apply(script, f, Fire(n));
    ApplyKeepsInv(hash, script, f, Fire(n));
    if g.walk.At? {
      NothingNew(hash, script, f);
      FewerAhead(f, g);
    }
  }

  /** Nothing joins the walk; the runner leaves it unless its period has vanished, and then it goes to
    the end. */
  lemma NothingNew(hash: Hash, script: Script, f: Flat)
    requires WellBehaved(hash, script) && Inv(f) && f.walk.At? && f.walk.hand != []
    requires Delayed(script(f.walk.hand[0], Logged(f, f.walk.hand[0])))
    ensures var n, g := f.walk.hand[0], Apply(script, f, Fire(f.walk.hand[0]));
      && n in f.live
      && (forall y :: y in g.live && y < f.nextId ==> y in f.live && g.live[y].interval == f.live[y].interval)
      && (g.walk.At? ==>
            && (forall y :: y in g.walk.hand ==> y in f.walk.hand && y in f.live && y in g.live && y < f.nextId)
            && (n in g.walk.hand ==> Vanished(f.live[n]))
            && g.walk.hand != [] && g.walk.hand[0] != n)
  {
    var n, c := f.walk.hand[0], Called(script, f, f.walk.hand[0]);
    var g := Apply(script, f, Fire(n));
    ApplyKeepsInv(hash, script, f, Fire(n));
    CalledKeeps(hash, script, f);
    NewOnesLater(Logged(f, n), script(n, Logged(f, n)));
    if g.walk.At? {
      FetchedIsNext(c, n, Fetched(f));
    }
  }

  lemma FewerAhead(f: Flat, g: Flat)
    requires f.walk.At? && f.walk.hand != [] && g.walk.At? && Lone(f) && NoDup(f.walk.hand)
    requires var n := f.walk.hand[0];
      && n in f.live
      && (forall y :: y in g.walk.hand ==>
            y in f.walk.hand && y in f.live && y in g.live && g.live[y].interval == f.live[y].interval)
      && (n in g.walk.hand ==> Vanished(f.live[n]))
      && g.walk.hand != [] && g.walk.hand[0] != n
    ensures Lone(g) && Left(g) < Left(f)
  {
    var n := f.walk.hand[0];
    assert n in Ahead(f);
    assert forall z :: z in VanishedAhead(g) ==> z in VanishedAhead(f);
    if n in g.walk.hand {
      assert n in VanishedAhead(f);
      SubsetSmaller(Ahead(g), Ahead(f));
      assert g.walk.hand[0] !in VanishedAhead(f);
    } else {
      SubsetSmaller(Ahead(g), Ahead(f) - {n});
      assert |Ahead(f) - {n}| == |Ahead(f)| - 1;
    }
  }

  // ---- Walks that never end ----

  /** Adding loses no timer. */
  lemma {:induction false} AddsKeepLive(f: Flat, actions: seq<Action>)
    requires AllAdds(actions) && forall n :: n in f.live ==> n < f.nextId
    ensures forall n :: n in f.live ==> n in Acts(f, actions).live
    decreases |actions|
  {
    if actions != [] {
      assert actions == [actions[0]] + actions[1..];
      AddsKeepLive(Act(f, actions[0]), actions[1..]);
    }
  }

  /** Timers other than the runner, and a runner whose period has vanished, stay in a walk that goes on,
    if callbacks cancel nothing. */
  lemma StaysAhead(hash: Hash, script: Script, f: Flat, x: Id)
    requires WellBehaved(hash, script) && Inv(f) && f.walk.At? && |f.walk.hand| > 1 && x in f.walk.hand
    requires x in Called(script, f, f.walk.hand[0]).live
    requires x == f.walk.hand[0] ==> x in f.live && Vanished(f.live[x])
    ensures var g := Apply(script, f, Fire(f.walk.hand[0]));
      && Inv(g) && g.walk.At? && x in f.live && x in g.live && x in g.walk.hand
      && g.live[x].interval == f.live[x].interval
  {
    var n := f.walk.hand[0];
    ApplyKeepsInv(hash, script, f, Fire(n));
    CalledKeeps(hash, script, f);
    if Fetched(f).Some? {
      FetchedIsNext(Called(script, f, n), n, Fetched(f));
    }
  }

  lemma AdderKeepsAll(script: Script, f: Flat)
    requires Inv(f) && f.walk.At? && f.walk.hand != [] && AllAdds(script(f.walk.hand[0], Logged(f, f.walk.hand[0])))
    ensures forall n :: n in f.live ==> n in Called(script, f, f.walk.hand[0]).live
    ensures forall n :: n in f.walk.hand ==> n in f.live
  {
    AddsKeepLive(Logged(f, f.walk.hand[0]), script(f.walk.hand[0], Logged(f, f.walk.hand[0])));
  }

  lemma {:induction false} TwoVanishedNeverEnd(hash: Hash, script: Script, f: Flat, x: Id, y: Id, k: nat)
    requires WellBehaved(hash, script)
    requires forall f: Flat :: Inv(f) && f.walk.At? && f.walk.hand != [] ==> AllAdds(script(f.walk.hand[0], f))
    requires Inv(f) && f.walk.At? && x != y && x in f.walk.hand && y in f.walk.hand
    requires x in f.live && y in f.live && Vanished(f.live[x]) && Vanished(f.live[y])
    ensures !EndsWithin(script, f, k)
    decreases k
  {
    hide WellBehaved, Inv, AllAdds, Apply, Micros;
    if k > 0 {
      var g := Apply(script, f, Fire(f.walk.hand[0]));
      LoggedInv(f);
      AdderKeepsAll(script, f);
      StaysAhead(hash, script, f, x);
      StaysAhead(hash, script, f, y);
      TwoVanishedNeverEnd(hash, script, g, x, y, k - 1);
    }
  }

  /** When callbacks only add timers, and with a delay, a walk ends just when at most one of its timers has
    a period that has vanished. */
  lemma WalkEndsIff(hash: Hash, script: Script, f: Flat)
    requires forall f: Flat :: Inv(f) && f.walk.At? && f.walk.hand != [] ==>
      AllAdds(script(f.walk.hand[0], f)) && Delayed(script(f.walk.hand[0], f))
    requires Inv(f) && f.walk.At?
    ensures Ends(script, f) <==> Lone(f)
  {
    hide Inv, Apply;
    UsualCallbacks(hash, script);
    if Lone(f) {
      DelayedEnds(hash, script, f);
    } else {
      var x, y :| x in VanishedAhead(f) && y in VanishedAhead(f) && x != y;
      forall k: nat ensures !EndsWithin(script, f, k) {
        TwoVanishedNeverEnd(hash, script, f, x, y, k);
      }
    }
  }

  /** When every callback only adds timers, one or more of them with no delay, a walk ends just when it
    has at most one timer. */
  lemma EndlessAddsIff(hash: Hash, script: Script, f: Flat)
    requires forall f: Flat :: Inv(f) && f.walk.At? && f.walk.hand != [] ==> AddsNow(script(f.walk.hand[0], f))
    requires Inv(f) && f.walk.At?
    ensures Ends(script, f) <==> |f.walk.hand| <= 1
  {
    hide Inv;
    if f.walk.hand == [] {
      assert EndsWithin(script, f, 0);
    } else if |f.walk.hand| == 1 {
      assert EndsWithin(script, Apply(script, f, Fire(f.walk.hand[0])), 0);
      EndsOneLater(script, f);
    } else {
      UsualCallbacks(hash, script);
      forall k: nat ensures !EndsWithin(script, f, k) {
        NeverShort(hash, script, f, k);
      }
    }
  }

  ghost predicate AddsNow(actions: seq<Action>) {
    AllAdds(actions) && exists i :: 0 <= i < |actions| && Micros(actions[i].ms) == 0
  }

  lemma {:induction false} NeverShort(hash: Hash, script: Script, f: Flat, k: nat)
    requires WellBehaved(hash, script)
    requires forall f: Flat :: Inv(f) && f.walk.At? && f.walk.hand != [] ==> AddsNow(script(f.walk.hand[0], f))
    requires Inv(f) && f.walk.At? && |f.walk.hand| > 1
    ensures !EndsWithin(script, f, k)
    decreases k
  {
    hide WellBehaved, Inv, AddsNow, Apply;
    if k > 0 {
      LoggedInv(f);
      StillTwo(hash, script, f);
      NeverShort(hash, script, Apply(script, f, Fire(f.walk.hand[0])), k - 1);
    }
  }

  lemma StillTwo(hash: Hash, script: Script, f: Flat)
    requires WellBehaved(hash, script) && Inv(f) && f.walk.At? && |f.walk.hand| > 1
    requires AddsNow(script(f.walk.hand[0], Logged(f, f.walk.hand[0])))
    ensures var g := Apply(script, f, Fire(f.walk.hand[0])); Inv(g) && g.walk.At? && |g.walk.hand| > 1
  {
    var n, q, g := f.walk.hand[0], f.walk.hand[1], Apply(script, f, Fire(f.walk.hand[0]));
    assert q in f.walk.hand;
    AdderKeepsAll(script, f);
    StaysAhead(hash, script, f, q);
    CalledKeeps(hash, script, f);
    hide WellBehaved, Called, Acts, Heads;
    var x := NewNow(Logged(f, n), script(n, Logged(f, n)));
    assert x in g.walk.hand;
  }

  /** One of the new timers has its turn now. */
  lemma {:induction false} NewNow(f: Flat, actions: seq<Action>) returns (x: Id)
    requires AddsNow(actions) && forall n :: n in f.live ==> n < f.nextId
    ensures x >= f.nextId && x in Acts(f, actions).live && Acts(f, actions).live[x].endtime == f.now
    decreases |actions|
  {
    var rest := actions[1..];
    assert actions == [actions[0]] + rest;
    var g := Act(f, actions[0]);
    if Micros(actions[0].ms) == 0 {
      x := f.nextId;
      AddsKeepEntry(g, rest, x);
    } else {
      var i :| 0 <= i < |actions| && Micros(actions[i].ms) == 0;
      assert rest[i - 1] == actions[i];
      x := NewNow(g, rest);
    }
  }

  lemma {:induction false} AddsKeepEntry(f: Flat, actions: seq<Action>, x: Id)
    requires AllAdds(actions) && x in f.live && x < f.nextId
    ensures x in Acts(f, actions).live && Acts(f, actions).live[x] == f.live[x]
    decreases |actions|
  {
    if actions != [] {
      assert actions == [actions[0]] + actions[1..];
      AddsKeepEntry(Act(f, actions[0]), actions[1..], x);
    }
  }
}

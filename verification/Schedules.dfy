/** Times that repeat at a period. */
module Schedules {

  /** The times before `until`, from `start` on; a period of zero stands for a single time. */
  function Schedule(start: nat, period: nat, until: nat): seq<nat>
    decreases until - start
  {
    if start >= until then [] else if period == 0 then [start] else [start] + Schedule(start + period, period, until)
  }

  /** With a period, the entries are `period` apart from `start` on, all of them before `until`, and no more can
    be. */
  lemma {:induction false} ScheduleIs(start: nat, period: nat, until: nat, i: nat)
    requires period > 0
    ensures i < |Schedule(start, period, until)| <==> start + i * period < until
    ensures i < |Schedule(start, period, until)| ==> Schedule(start, period, until)[i] == start + i * period
    decreases i
  {
    if start < until && i > 0 {
      ScheduleIs(start + period, period, until, i - 1);
      assert (i - 1) * period == i * period - period;
    } else if i > 0 {
      assert i * period >= 0;
    }
  }

  ghost predicate OnGrid(start: nat, period: nat, t: nat)
    decreases t - start
  {
    t == start || (start < t && period > 0 && OnGrid(start + period, period, t))
  }

  lemma {:induction false} GridStep(start: nat, period: nat, t: nat)
    requires period > 0 && OnGrid(start, period, t)
    ensures OnGrid(start, period, t + period)
    ensures Schedule(start, period, t + period) == Schedule(start, period, t) + [t]
    decreases t - start
  {
    if t != start {
      GridStep(start + period, period, t);
    } else {
      assert Schedule(start + period, period, t + period) == [];
    }
  }

  lemma {:induction false} GridGap(start: nat, period: nat, t: nat, u: nat)
    requires OnGrid(start, period, t) && u <= t && (t == start || t < u + period)
    ensures Schedule(start, period, u) == Schedule(start, period, t)
    decreases t - start
  {
    if t != start {
      GridGap(start + period, period, t, u);
    }
  }
}

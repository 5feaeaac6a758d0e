/** When a timer runs that a callback of the simple timing wheel has added. */
module TimingWheelCallbacks {
  import opened Schedules
  import opened TimingWheel
  import opened TimingWheelRuns

  /** A delay or period is rounded down to whole ticks, but to no less than one. */
  lemma TicksExact(w: Wheel, ms: nat)
    requires w.tick > 0
    ensures ms >= w.tick ==> Ticks(w, ms) * w.tick <= ms < (Ticks(w, ms) + 1) * w.tick
    ensures ms < w.tick ==> Ticks(w, ms) == 1
  {
  }

  /** The slot of a timer added with this delay. */
  function SlotOf(w: Wheel, expiration: nat): nat
    requires w.tick > 0
  {
    (w.slotIdx + Ticks(w, expiration)) % SLOT_NUM
  }

  /** Each of the timers that are added has its one entry, armed for its delay. */
  lemma {:induction false} AddAllHas(w: Wheel, adds: seq<Add>, j: nat) returns (p: nat)
    requires Shape(w) && Distinct(w) && j < |adds|
    ensures var c, k, x := AddAll(w, adds), SlotOf(w, adds[j].expiration), w.nextId + j;
      && |w.slots[k]| <= p < |c.slots[k]| && Sole(c, x, k)
      && c.slots[k][p] == Armed(x, adds[j].interval, Ticks(w, adds[j].expiration), w.slotIdx)
    decreases |adds|
  {
    hide Distinct, Ticks, Armed, Grown, Sole, Absent, SameCounts;
    var m := Added(w, adds[0].expiration, adds[0].interval);
    AddedDistinct(w, adds[0].expiration, adds[0].interval);
    OneAdded(w, adds[0]);
    if j == 0 {
      p := |w.slots[SlotOf(w, adds[0].expiration)]|;
      AddAllPlaces(m, adds[1..], w.nextId);
      SamePlaces(m, AddAll(m, adds[1..]), w.nextId);
      AddAllKeeps(m, adds[1..], SlotOf(w, adds[0].expiration), p);
    } else {
      SameTick(w, m, adds[j].expiration);
      p := AddAllHas(m, adds[1..], j - 1);
    }
  }

  lemma OneAdded(w: Wheel, a: Add)
    requires Shape(w) && Distinct(w)
    ensures var m, k := Added(w, a.expiration, a.interval), SlotOf(w, a.expiration);
      && Shape(m) && m.tick == w.tick && m.slotIdx == w.slotIdx && m.nextId == w.nextId + 1
      && m.slots[k] == w.slots[k] + [Armed(w.nextId, a.interval, Ticks(w, a.expiration), w.slotIdx)]
      && (forall j :: 0 <= j < SLOT_NUM ==> w.slots[j] <= m.slots[j])
      && Sole(m, w.nextId, k)
  {
    NewIsAbsent(w);
    AddedPlaces(w, a.expiration, a.interval, w.nextId);
  }

  lemma AddAllKeeps(m: Wheel, adds: seq<Add>, k: nat, p: nat)
    requires Shape(m) && k < SLOT_NUM && p < |m.slots[k]|
    ensures p < |AddAll(m, adds).slots[k]| && AddAll(m, adds).slots[k][p] == m.slots[k][p]
  {
    AddAllGrows(m, adds);
  }

  /** Settling the runner leaves the other timers where they are, but for closing its gap. */
  lemma SettleLeaves(c: Wheel, i: nat, k: nat, p: nat) returns (q: nat)
    requires Shape(c) && i < |c.slots[c.slotIdx]| && k < SLOT_NUM && p < |c.slots[k]| && Sole(c, c.slots[k][p].id, k)
    requires (k == c.slotIdx ==> i < p) && c.slots[c.slotIdx][i].id != c.slots[k][p].id
    ensures var t, (m, i') := c.slots[k][p], Settle(c, i);
      && Shape(m) && m.tick == c.tick && m.slotIdx == c.slotIdx && i' <= |m.slots[m.slotIdx]|
      && q < |m.slots[k]| && m.slots[k][q] == t && (k == c.slotIdx ==> i' <= q) && Sole(m, t.id, k)
  {
    var list := c.slots[c.slotIdx];
    var m := Settle(c, i).0;
    SettleStep(c, i);
    SettlePlaces(c, i, c.slots[k][p].id);
    SamePlaces(c, m, c.slots[k][p].id);
    if k == c.slotIdx {
      q := p - 1;
      assert list[i + 1..][p - i - 1] == list[p];
      assert m.slots[k][i..][p - i - 1] == m.slots[k][q];
    } else {
      q := p;
    }
  }

  /** In the rest of a walk, a timer that waits comes one call nearer. */
  lemma WaitsInWalk(script: Script, w: Wheel, i: nat, k: nat, p: nat) returns (q: nat)
    requires Shape(w) && i <= |w.slots[w.slotIdx]| && k < SLOT_NUM && p < |w.slots[k]| && Sole(w, w.slots[k][p].id, k)
    requires (k == w.slotIdx ==> i <= p) && Remaining(w.slots[k][p], w.slotIdx) > 0
    ensures var t, r := w.slots[k][p], Walk(script, w, i);
      && Shape(r) && r.tick == w.tick && r.slotIdx == w.slotIdx && Sole(r, t.id, k) && q < |r.slots[k]|
      && r.slots[k][q].id == t.id && r.slots[k][q].interval == t.interval
      && Remaining(r.slots[k][q], (w.slotIdx + 1) % SLOT_NUM) == Remaining(t, w.slotIdx) - 1
  {
    hide Walk, Due, DueIds, Kept;
    var t, list := w.slots[k][p], w.slots[w.slotIdx];
    WalkRunsDue(script, w, i);
    DueIffNothingRemains(t, w.slotIdx);
    NotDueAhead(w, i, k, p);
    WalkPlaces(script, w, i, t.id);
    SamePlaces(w, Walk(script, w, i), t.id);
    if k == w.slotIdx {
      assert list[i..][p - i] == list[p];
      q := KeptHas(list[i..], p - i);
      q := q + i;
      assert (list[..i] + Kept(list[i..]))[q] == t.(round := t.round - 1);
    } else {
      q := p;
    }
  }

  lemma NotDueAhead(w: Wheel, i: nat, k: nat, p: nat)
    requires Shape(w) && i <= |w.slots[w.slotIdx]| && k < SLOT_NUM && p < |w.slots[k]| && Sole(w, w.slots[k][p].id, k)
    requires k == w.slotIdx ==> i <= p && w.slots[k][p].round > 0
    ensures Occurs(DueIds(w.slots[w.slotIdx][i..]), w.slots[k][p].id) == 0
  {
    var list, n := w.slots[w.slotIdx], w.slots[k][p].id;
    CountAppend(list[..i], list[i..], n);
    assert list[..i] + list[i..] == list;
    if k == w.slotIdx {
      assert list[i..][p - i] == list[p];
      CountAt(list[i..], p - i, n);
      SoleEntryDecides(list[i..], p - i);
    } else {
      OccursDue(list[i..], n);
    }
  }

  /** A timer that the callback of the due timer at index `i` adds, in whatever walk, runs on the call of its
    number of ticks, counted from the call that is under way, and then keeps to its period. */
  lemma CallbackAddedExactly(script: Script, w: Wheel, i: nat, j: nat, first: nat, ops: seq<Op>)
    requires Shape(w) && Distinct(w) && i < |w.slots[w.slotIdx]| && w.slots[w.slotIdx][i].round == 0
    requires var n := w.slots[w.slotIdx][i].id;
      var adds := script(n, w.(fired := w.fired + [n]));
      j < |adds| && (adds[j].interval > 0 ==> Ticks(w, adds[j].interval) % SLOT_NUM != 0)
    ensures var n := w.slots[w.slotIdx][i].id;
      var a := script(n, w.(fired := w.fired + [n]))[j];
      var r := Walk(script, w, i);
      var end := r.(slotIdx := (r.slotIdx + 1) % SLOT_NUM);
      && Shape(end)
      && Calls(script, end, first + 1, ops, w.nextId + j)
           == Schedule(first + Ticks(w, a.expiration), Period(w, a.interval), first + 1 + Handles(ops))
  {
    hide Distinct, Sole, Called, Settle, Walk, Ticks, Calls, Schedule, Handles, Due, DueIds, Remaining, Grown, Ahead,
      AddAll;
    var n := w.slots[w.slotIdx][i].id;
    var l := w.(fired := w.fired + [n]);
    var a := script(n, l)[j];
    var k := SlotOf(w, a.expiration);
    LoggedDistinct(w, n);
    WalkFires(script, w, i);
    FireStep(script, w, i);
    IdGivenOut(w, i);
    var c := CalledIs(script, w, n);
    SameTick(w, l, a.expiration);
    SameTick(w, l, a.interval);
    var p := AddAllHas(l, script(n, l), j);
    ArmedRemaining(w.nextId + j, a.interval, Ticks(w, a.expiration), w.slotIdx);
    var q := SettleLeaves(c, i, k, p);
    var (m, i') := Settle(c, i);
    var e := WaitsInWalk(script, m, i', k, q);
    var r := Walk(script, w, i);
    var end := r.(slotIdx := (r.slotIdx + 1) % SLOT_NUM);
    SamePlaces(r, end, w.nextId + j);
    SameTick(w, end, a.interval);
    Exactness(script, end, first + 1, ops, k, e);
  }

  lemma CalledIs(script: Script, w: Wheel, n: Id) returns (c: Wheel)
    requires Shape(w)
    ensures var l := w.(fired := w.fired + [n]); c == Called(script, w, n) == AddAll(l, script(n, l))
    ensures c.slotIdx == w.slotIdx && c.tick == w.tick && Shape(c)
  {
    c := Called(script, w, n);
    CalledBasics(script, w, n);
  }

  lemma LoggedDistinct(w: Wheel, n: Id)
    requires Shape(w) && Distinct(w)
    ensures Distinct(w.(fired := w.fired + [n]))
  {
    forall x ensures AtMostOnce(w.(fired := w.fired + [n]), x) {
      assert AtMostOnce(w, x);
      SamePlaces(w, w.(fired := w.fired + [n]), x);
    }
  }

  lemma IdGivenOut(w: Wheel, i: nat)
    requires Shape(w) && Distinct(w) && i < |w.slots[w.slotIdx]|
    ensures w.slots[w.slotIdx][i].id < w.nextId
  {
    EntryIsSole(w, w.slotIdx, i);
  }
}

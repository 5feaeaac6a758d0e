/** Whole runs of the simple timing wheel: on which calls a timer runs. */
module TimingWheelRuns {
  import opened Schedules
  import opened TimingWheel

  // ---- Counting the entries of a timer ----

  function Count(list: seq<Tim>, n: Id): nat {
    if list == [] then 0 else (if list[0].id == n then 1 else 0) + Count(list[1..], n)
  }

  function Occurs(ids: seq<Id>, n: Id): nat {
    if ids == [] then 0 else (if ids[0] == n then 1 else 0) + Occurs(ids[1..], n)
  }

  lemma {:induction false} CountAppend(a: seq<Tim>, b: seq<Tim>, n: Id)
    ensures Count(a + b, n) == Count(a, n) + Count(b, n)
  {
    if a == [] {
      assert a + b == b;
    } else {
      CountAppend(a[1..], b, n);
      assert (a + b)[1..] == a[1..] + b && (a + b)[0] == a[0];
    }
  }

  lemma {:induction false} OccursAppend(a: seq<Id>, b: seq<Id>, n: Id)
    ensures Occurs(a + b, n) == Occurs(a, n) + Occurs(b, n)
  {
    if a == [] {
      assert a + b == b;
    } else {
      OccursAppend(a[1..], b, n);
      assert (a + b)[1..] == a[1..] + b && (a + b)[0] == a[0];
    }
  }

  lemma CountAt(list: seq<Tim>, i: nat, n: Id)
    requires i < |list|
    ensures Count(list, n) == Count(list[..i], n) + (if list[i].id == n then 1 else 0) + Count(list[i + 1..], n)
  {
    CountAppend(list[..i], list[i..], n);
    assert list[..i] + list[i..] == list && list[i..][0] == list[i] && list[i..][1..] == list[i + 1..];
  }

  lemma CountRemoved(list: seq<Tim>, i: nat, n: Id)
    requires i < |list|
    ensures Count(list, n) == Count(list[..i] + list[i + 1..], n) + if list[i].id == n then 1 else 0
  {
    CountAt(list, i, n);
    CountAppend(list[..i], list[i + 1..], n);
  }

  lemma CountReplaced(list: seq<Tim>, i: nat, t: Tim, n: Id)
    requires i < |list| && t.id == list[i].id
    ensures Count(list[i := t], n) == Count(list, n)
  {
    CountAt(list, i, n);
    CountAt(list[i := t], i, n);
    assert list[i := t][..i] == list[..i] && list[i := t][i + 1..] == list[i + 1..];
  }

  /** Each run of a timer stands for an entry that is due. */
  lemma {:induction false} OccursDue(list: seq<Tim>, n: Id)
    ensures Occurs(DueIds(list), n) <= Count(list, n)
    decreases |list|
  {
    if list != [] {
      OccursDue(list[1..], n);
      OccursAppend(if list[0].round == 0 then [list[0].id] else [], DueIds(list[1..]), n);
    }
  }

  /** The only entry of a timer decides whether it runs. */
  lemma {:induction false} SoleEntryDecides(list: seq<Tim>, p: nat)
    requires p < |list| && Count(list, list[p].id) == 1
    ensures Occurs(DueIds(list), list[p].id) == if list[p].round == 0 then 1 else 0
    decreases |list|
  {
    var n := list[p].id;
    CountAt(list, p, n);
    OccursDue(list[..p], n);
    OccursDue(list[p + 1..], n);
    assert list == list[..p] + ([list[p]] + list[p + 1..]);
    DueAppend(list[..p], [list[p]] + list[p + 1..]);
    DueAppend([list[p]], list[p + 1..]);
    OccursAppend(DueIds(list[..p]), DueIds([list[p]] + list[p + 1..]), n);
    OccursAppend(DueIds([list[p]]), DueIds(list[p + 1..]), n);
  }

  // ---- Where a timer is ----

  /** Timer `n` has one entry, in slot `k`. */
  ghost predicate Sole(w: Wheel, n: Id, k: nat)
    requires Shape(w)
  {
    k < SLOT_NUM && n < w.nextId && forall j :: 0 <= j < SLOT_NUM ==> Count(w.slots[j], n) == if j == k then 1 else 0
  }

  ghost predicate Absent(w: Wheel, n: Id)
    requires Shape(w)
  {
    forall j :: 0 <= j < SLOT_NUM ==> Count(w.slots[j], n) == 0
  }

  ghost predicate AtMostOnce(w: Wheel, n: Id)
    requires Shape(w)
  {
    Absent(w, n) || exists k :: Sole(w, n, k)
  }

  /** No two entries have the same id, and no entry has an id still to be given out. */
  ghost predicate Distinct(w: Wheel)
    requires Shape(w)
  {
    forall n :: AtMostOnce(w, n)
  }

  ghost predicate SameCounts(w: Wheel, r: Wheel, n: Id)
    requires Shape(w) && Shape(r)
  {
    forall j :: 0 <= j < SLOT_NUM ==> Count(r.slots[j], n) == Count(w.slots[j], n)
  }

  lemma SamePlaces(w: Wheel, r: Wheel, n: Id)
    requires Shape(w) && Shape(r) && SameCounts(w, r, n) && w.nextId <= r.nextId
    ensures AtMostOnce(w, n) ==> AtMostOnce(r, n)
    ensures Absent(w, n) ==> Absent(r, n)
    ensures forall k :: Sole(w, n, k) ==> Sole(r, n, k)
  {
    if AtMostOnce(w, n) && !Absent(w, n) {
      var k :| Sole(w, n, k);
      assert Sole(r, n, k);
    }
  }

  lemma EntryIsSole(w: Wheel, k: nat, p: nat)
    requires Shape(w) && Distinct(w) && k < SLOT_NUM && p < |w.slots[k]|
    ensures Sole(w, w.slots[k][p].id, k)
  {
    var n := w.slots[k][p].id;
    CountAt(w.slots[k], p, n);
    assert AtMostOnce(w, n);
  }

  // ---- Adding ----

  lemma AppendCounts(w: Wheel, t: Tim, n: Id)
    requires |w.slots| == SLOT_NUM && t.slotIdx < SLOT_NUM
    ensures var r := Append(w, t);
      && |r.slots| == SLOT_NUM
      && forall j :: 0 <= j < SLOT_NUM ==>
           Count(r.slots[j], n) == Count(w.slots[j], n) + if j == t.slotIdx && t.id == n then 1 else 0
  {
    CountAppend(w.slots[t.slotIdx], [t], n);
  }

  lemma AddedPlaces(w: Wheel, expiration: nat, interval: nat, n: Id)
    requires Shape(w)
    ensures var r := Added(w, expiration, interval);
      && Shape(r) && r.nextId == w.nextId + 1
      && (n != w.nextId ==> SameCounts(w, r, n))
      && (n == w.nextId && Absent(w, n) ==> Sole(r, n, (w.slotIdx + Ticks(w, expiration)) % SLOT_NUM))
  {
    AppendCounts(w, Armed(w.nextId, interval, Ticks(w, expiration), w.slotIdx), n);
  }

  lemma NewIsAbsent(w: Wheel)
    requires Shape(w) && Distinct(w)
    ensures Absent(w, w.nextId)
  {
    assert AtMostOnce(w, w.nextId);
  }

  lemma AddedDistinct(w: Wheel, expiration: nat, interval: nat)
    requires Shape(w) && Distinct(w)
    ensures Shape(Added(w, expiration, interval)) && Distinct(Added(w, expiration, interval))
  {
    var r := Added(w, expiration, interval);
    AddedPlaces(w, expiration, interval, 0);
    NewIsAbsent(w);
    forall n ensures AtMostOnce(r, n) {
      AddedPlaces(w, expiration, interval, n);
      assert AtMostOnce(w, n);
      if n != w.nextId {
        SamePlaces(w, r, n);
      }
    }
  }

  lemma {:induction false} AddAllPlaces(w: Wheel, adds: seq<Add>, n: Id)
    requires Shape(w) && n < w.nextId
    ensures w.nextId <= AddAll(w, adds).nextId && SameCounts(w, AddAll(w, adds), n)
    decreases |adds|
  {
    if adds != [] {
      AddedPlaces(w, adds[0].expiration, adds[0].interval, n);
      AddAllPlaces(Added(w, adds[0].expiration, adds[0].interval), adds[1..], n);
    }
  }

  lemma {:induction false} AddAllDistinct(w: Wheel, adds: seq<Add>)
    requires Shape(w) && Distinct(w)
    ensures Distinct(AddAll(w, adds)) && w.nextId <= AddAll(w, adds).nextId
    decreases |adds|
  {
    if adds != [] {
      AddedDistinct(w, adds[0].expiration, adds[0].interval);
      AddedPlaces(w, adds[0].expiration, adds[0].interval, 0);
      AddAllDistinct(Added(w, adds[0].expiration, adds[0].interval), adds[1..]);
    }
  }

  // ---- The walk ----

  lemma CalledPlaces(script: Script, w: Wheel, id: Id, n: Id)
    requires Shape(w) && n < w.nextId
    ensures var c := Called(script, w, id); w.nextId <= c.nextId && SameCounts(w, c, n)
  {
    var l := w.(fired := w.fired + [id]);
    AddAllPlaces(l, script(id, l), n);
  }

  lemma CalledDistinct(script: Script, w: Wheel, id: Id)
    requires Shape(w) && Distinct(w)
    ensures Distinct(Called(script, w, id)) && w.nextId <= Called(script, w, id).nextId
  {
    var l := w.(fired := w.fired + [id]);
    forall n ensures AtMostOnce(l, n) {
      assert AtMostOnce(w, n);
      SamePlaces(w, l, n);
    }
    AddAllDistinct(l, script(id, l));
  }

  /** Settling takes out one entry of its timer, and puts one back if the timer is periodic. */
  lemma SettlePlaces(c: Wheel, i: nat, n: Id)
    requires Shape(c) && i < |c.slots[c.slotIdx]|
    ensures var t, r := c.slots[c.slotIdx][i], Settle(c, i).0;
      && Shape(r) && r.nextId == c.nextId
      && forall j :: 0 <= j < SLOT_NUM ==>
           Count(r.slots[j], n) == Count(c.slots[j], n)
             - (if j == c.slotIdx && t.id == n then 1 else 0)
             + (if t.id == n && t.interval > 0 && j == Rearmed(c, t).slotIdx then 1 else 0)
  {
    var list := c.slots[c.slotIdx];
    SettleStep(c, i);
    CountRemoved(list, i, n);
    var rest := c.(slots := c.slots[c.slotIdx := list[..i] + list[i + 1..]]);
    if list[i].interval > 0 {
      AppendCounts(rest, Rearmed(c, list[i]), n);
    }
  }

  lemma SettleDistinct(c: Wheel, i: nat)
    requires Shape(c) && Distinct(c) && i < |c.slots[c.slotIdx]|
    ensures Shape(Settle(c, i).0) && Distinct(Settle(c, i).0)
  {
    var t, r := c.slots[c.slotIdx][i], Settle(c, i).0;
    SettlePlaces(c, i, 0);
    EntryIsSole(c, c.slotIdx, i);
    forall n ensures AtMostOnce(r, n) {
      assert AtMostOnce(c, n);
      SettlePlaces(c, i, n);
      if n != t.id {
        SamePlaces(c, r, n);
      } else if t.interval > 0 {
        assert Sole(r, n, Rearmed(c, t).slotIdx);
      } else {
        assert Absent(r, n);
      }
    }
  }

  lemma AgedPlaces(w: Wheel, i: nat, n: Id)
    requires Shape(w) && i < |w.slots[w.slotIdx]| && w.slots[w.slotIdx][i].round > 0
    ensures var m := Aged(w, i); Shape(m) && SameCounts(w, m, n)
  {
    var list := w.slots[w.slotIdx];
    CountReplaced(list, i, list[i].(round := list[i].round - 1), n);
  }

  lemma {:induction false} WalkDistinct(script: Script, w: Wheel, i: nat)
    requires Shape(w) && Distinct(w) && i <= |w.slots[w.slotIdx]|
    ensures Shape(Walk(script, w, i)) && Distinct(Walk(script, w, i))
    decreases Due(w.slots[w.slotIdx][i..]), |w.slots[w.slotIdx]| - i
  {
    hide Distinct, Settle, Called, Kept, DueIds, Ahead;
    WalkRunsDue(script, w, i);
    var list := w.slots[w.slotIdx];
    if i == |list| {
    } else if list[i].round > 0 {
      AgedDistinct(w, i);
      AgesOne(script, w, i);
      WalkDistinct(script, Aged(w, i), i + 1);
    } else {
      FiresOne(script, w, i);
      CalledDistinct(script, w, list[i].id);
      SettleDistinct(Called(script, w, list[i].id), i);
      var (m, i') := Settle(Called(script, w, list[i].id), i);
      WalkDistinct(script, m, i');
    }
  }

  lemma AgedDistinct(w: Wheel, i: nat)
    requires Shape(w) && Distinct(w) && i < |w.slots[w.slotIdx]| && w.slots[w.slotIdx][i].round > 0
    ensures Shape(Aged(w, i)) && Distinct(Aged(w, i))
  {
    AgedPlaces(w, i, 0);
    forall n ensures AtMostOnce(Aged(w, i), n) {
      assert AtMostOnce(w, n);
      AgedPlaces(w, i, n);
      SamePlaces(w, Aged(w, i), n);
    }
  }

  /** A timer with no due entry ahead of the walk stays where it is. */
  lemma {:induction false} WalkPlaces(script: Script, w: Wheel, i: nat, n: Id)
    requires Shape(w) && i <= |w.slots[w.slotIdx]| && n < w.nextId && Occurs(DueIds(w.slots[w.slotIdx][i..]), n) == 0
    ensures var r := Walk(script, w, i); Shape(r) && w.nextId <= r.nextId && SameCounts(w, r, n)
    decreases Due(w.slots[w.slotIdx][i..]), |w.slots[w.slotIdx]| - i
  {
    WalkRunsDue(script, w, i);
    var list := w.slots[w.slotIdx];
    if i == |list| {
    } else if list[i].round > 0 {
      AgesOne(script, w, i);
      AgedPlaces(w, i, n);
      WaitingIsNotDue(list, i);
      WalkPlaces(script, Aged(w, i), i + 1, n);
    } else {
      FirePlaces(script, w, i, n);
      hide Called, Settle, Kept, Ahead, DueIds;
      var (m, i') := Settle(Called(script, w, list[i].id), i);
      WalkPlaces(script, m, i', n);
    }
  }

  lemma WaitingIsNotDue(list: seq<Tim>, i: nat)
    requires i < |list| && list[i].round > 0
    ensures DueIds(list[i..]) == DueIds(list[i + 1..])
  {
    assert list[i..][1..] == list[i + 1..];
  }

  /** One firing, seen from timer `n`. */
  lemma FirePlaces(script: Script, w: Wheel, i: nat, n: Id)
    requires Shape(w) && i < |w.slots[w.slotIdx]| && w.slots[w.slotIdx][i].round == 0 && n < w.nextId
    ensures var t, c := w.slots[w.slotIdx][i], Called(script, w, w.slots[w.slotIdx][i].id); i < |c.slots[c.slotIdx]|
    ensures var t, (m, i') := w.slots[w.slotIdx][i], Settle(Called(script, w, w.slots[w.slotIdx][i].id), i);
      && Shape(m) && m.slotIdx == w.slotIdx && m.tick == w.tick && w.nextId <= m.nextId && i' <= |m.slots[w.slotIdx]|
      && Walk(script, w, i) == Walk(script, m, i')
      && Due(m.slots[w.slotIdx][i'..]) < Due(w.slots[w.slotIdx][i..])
      && Occurs(DueIds(w.slots[w.slotIdx][i..]), n) == (if t.id == n then 1 else 0)
           + Occurs(DueIds(m.slots[w.slotIdx][i'..]), n)
      && Ahead(w.slots[w.slotIdx], i, m.slots[w.slotIdx], i')
      && forall j :: 0 <= j < SLOT_NUM ==>
           Count(m.slots[j], n) == Count(w.slots[j], n)
             - (if j == w.slotIdx && t.id == n then 1 else 0)
             + (if t.id == n && t.interval > 0 && j == Rearmed(w, t).slotIdx then 1 else 0)
  {
    var t := w.slots[w.slotIdx][i];
    FiresOne(script, w, i);
    FireStep(script, w, i);
    CalledPlaces(script, w, t.id, n);
    CalledBasics(script, w, t.id);
    var c := Called(script, w, t.id);
    SettlePlaces(c, i, n);
    hide Settle, Called, DueIds;
    var (m, i') := Settle(c, i);
    FewerDue(w.slots[w.slotIdx], i, m.slots[w.slotIdx], i');
    OccursAppend([t.id], DueIds(m.slots[w.slotIdx][i'..]), n);
  }

  /** Where timer `n` is once it has run: nowhere if it is a one-shot, else in the slot it is armed for. */
  ghost predicate Moved(w: Wheel, t: Tim, r: Wheel)
    requires Shape(w) && Shape(r)
  {
    if t.interval == 0 then Absent(r, t.id) && t.id < r.nextId else Sole(r, t.id, Rearmed(w, t).slotIdx)
  }

  lemma MovedOn(w: Wheel, w': Wheel, t: Tim, r: Wheel)
    requires Shape(w) && Shape(w') && Shape(r) && w'.tick == w.tick && w'.slotIdx == w.slotIdx && Moved(w', t, r)
    ensures Moved(w, t, r)
  {
  }

  /** The due entry at index `p` is the only one of its timer. */
  lemma {:induction false} WalkMovesSole(script: Script, w: Wheel, i: nat, p: nat)
    requires Shape(w) && i <= p < |w.slots[w.slotIdx]| && w.slots[w.slotIdx][p].round == 0
    requires Sole(w, w.slots[w.slotIdx][p].id, w.slotIdx)
    ensures Shape(Walk(script, w, i)) && Moved(w, w.slots[w.slotIdx][p], Walk(script, w, i))
    decreases Due(w.slots[w.slotIdx][i..]), |w.slots[w.slotIdx]| - i
  {
    hide Called, Settle, Kept, DueIds, Rearmed;
    WalkRunsDue(script, w, i);
    var list := w.slots[w.slotIdx];
    var t := list[p];
    if list[i].round > 0 {
      AgesOne(script, w, i);
      AgedPlaces(w, i, t.id);
      SamePlaces(w, Aged(w, i), t.id);
      WalkMovesSole(script, Aged(w, i), i + 1, p);
      MovedOn(w, Aged(w, i), t, Walk(script, w, i));
    } else {
      FirePlaces(script, w, i, t.id);
      var (m, i') := Settle(Called(script, w, list[i].id), i);
      if i == p {
        SoleRunsOnce(list, i);
        WalkPlaces(script, m, i', t.id);
      } else {
        OneOfTwo(list, i, p);
        assert SameCounts(w, m, t.id);
        SamePlaces(w, m, t.id);
        assert list[i + 1..][p - i - 1] == t && m.slots[w.slotIdx][i..][p - i - 1] == m.slots[w.slotIdx][p - 1];
        WalkMovesSole(script, m, i', p - 1);
        MovedOn(w, m, t, Walk(script, w, i));
      }
    }
  }

  lemma SoleRunsOnce(list: seq<Tim>, i: nat)
    requires i < |list| && Count(list, list[i].id) == 1
    ensures Occurs(DueIds(list[i..]), list[i].id) <= 1
  {
    CountAppend(list[..i], list[i..], list[i].id);
    assert list[..i] + list[i..] == list;
    OccursDue(list[i..], list[i].id);
  }

  lemma OneOfTwo(list: seq<Tim>, i: nat, p: nat)
    requires i < p < |list| && Count(list, list[p].id) == 1
    ensures list[i].id != list[p].id
  {
    CountAt(list, i, list[p].id);
    CountAt(list[i + 1..], p - i - 1, list[p].id);
  }

  // ---- Calls of `handle` ----

  lemma HandledDistinct(script: Script, w: Wheel)
    requires Shape(w) && Distinct(w)
    ensures Shape(Handled(script, w)) && Distinct(Handled(script, w))
  {
    HandleKeepsShape(script, w);
    WalkDistinct(script, w, 0);
    var r := Walk(script, w, 0);
    forall n ensures AtMostOnce(Handled(script, w), n) {
      assert AtMostOnce(r, n);
      SamePlaces(r, Handled(script, w), n);
    }
  }

  /** Calls from outside. */
  datatype Op = OpAdd(expiration: nat, interval: nat) | OpHandle

  function Serve(script: Script, w: Wheel, op: Op): (r: Wheel)
    requires Shape(w)
    ensures Shape(r)
  {
    match op
    case OpAdd(expiration, interval) =>
      AddedPlaces(w, expiration, interval, 0);
      Added(w, expiration, interval)
    case OpHandle =>
      HandleKeepsShape(script, w);
      Handled(script, w)
  }

  function Run(script: Script, w: Wheel, ops: seq<Op>): (r: Wheel)
    requires Shape(w)
    ensures Shape(r)
    decreases |ops|
  {
    if ops == [] then w else Run(script, Serve(script, w, ops[0]), ops[1..])
  }

  /** The object does as the specification says over whole runs. */
  method RunAll(wheel: TimingWheel, ops: seq<Op>)
    requires wheel.Valid()
    modifies wheel
    ensures wheel.Valid() && wheel.View() == Run(wheel.script, old(wheel.View()), ops)
  {
    var rest := ops;
    while rest != []
      invariant wheel.Valid() && Run(wheel.script, wheel.View(), rest) == Run(wheel.script, old(wheel.View()), ops)
      decreases |rest|
    {
      match rest[0] {
        case OpAdd(expiration, interval) => var _ := wheel.AddTimer(expiration, interval);
        case OpHandle => wheel.Handle();
      }
      rest := rest[1..];
    }
  }

  /** How many calls of `handle` there are. */
  function Handles(ops: seq<Op>): nat {
    if ops == [] then 0 else (if ops[0].OpHandle? then 1 else 0) + Handles(ops[1..])
  }

  /** The numbers of the calls of `handle` in which timer `n` runs, each as often as it runs in it, the
    first call having number `first`. */
  function Calls(script: Script, w: Wheel, first: nat, ops: seq<Op>, n: Id): seq<nat>
    requires Shape(w)
    decreases |ops|
  {
    if ops == [] then []
    else if ops[0].OpHandle? then
      seq(Occurs(DueIds(w.slots[w.slotIdx]), n), _ => first)
        + Calls(script, Serve(script, w, ops[0]), first + 1, ops[1..], n)
    else Calls(script, Serve(script, w, ops[0]), first, ops[1..], n)
  }

  /** These are all the runs of the timer in the log. */
  lemma {:induction false} CallsAreLogged(script: Script, w: Wheel, first: nat, ops: seq<Op>, n: Id)
    requires Shape(w)
    ensures Occurs(Run(script, w, ops).fired, n) == Occurs(w.fired, n) + |Calls(script, w, first, ops, n)|
    decreases |ops|
  {
    if ops != [] {
      var r := Serve(script, w, ops[0]);
      if ops[0].OpHandle? {
        HandleKeepsShape(script, w);
        OccursAppend(w.fired, DueIds(w.slots[w.slotIdx]), n);
        CallsAreLogged(script, r, first + 1, ops[1..], n);
      } else {
        CallsAreLogged(script, r, first, ops[1..], n);
      }
    }
  }

  /** Ids stay distinct in every run. */
  lemma {:induction false} AlwaysDistinct(script: Script, w: Wheel, ops: seq<Op>)
    requires Shape(w) && Distinct(w)
    ensures Distinct(Run(script, w, ops))
    decreases |ops|
  {
    if ops != [] {
      if ops[0].OpHandle? {
        HandledDistinct(script, w);
      } else {
        AddedDistinct(w, ops[0].expiration, ops[0].interval);
      }
      AlwaysDistinct(script, Serve(script, w, ops[0]), ops[1..]);
    }
  }

  /** A timer that is gone never runs again. */
  lemma {:induction false} GoneStaysGone(script: Script, w: Wheel, first: nat, ops: seq<Op>, n: Id)
    requires Shape(w) && n < w.nextId && Absent(w, n)
    ensures Calls(script, w, first, ops, n) == []
    decreases |ops|
  {
    if ops != [] {
      var r := Serve(script, w, ops[0]);
      if ops[0].OpHandle? {
        HandleKeepsShape(script, w);
        OccursDue(w.slots[w.slotIdx], n);
        assert w.slots[w.slotIdx][0..] == w.slots[w.slotIdx];
        WalkPlaces(script, w, 0, n);
        GoneStaysGone(script, r, first + 1, ops[1..], n);
      } else {
        AddedPlaces(w, ops[0].expiration, ops[0].interval, n);
        GoneStaysGone(script, r, first, ops[1..], n);
      }
    }
  }

  // ---- Exactness ----

  /** The period of a timer in ticks; zero for a one-shot. */
  function Period(w: Wheel, interval: nat): nat
    requires w.tick > 0
  {
    if interval == 0 then 0 else Ticks(w, interval)
  }

  /** In every run of calls and callbacks, a timer with n calls to go, that is a one-shot or whose period
    is no multiple of 60 ticks, runs on call n and then on every call one period later, counted from
    zero: once in each of these and in no other. */
  lemma {:induction false} Exactness(script: Script, w: Wheel, first: nat, ops: seq<Op>, k: nat, p: nat)
    requires Shape(w) && k < SLOT_NUM && p < |w.slots[k]| && Sole(w, w.slots[k][p].id, k)
    requires var t := w.slots[k][p]; t.interval > 0 ==> Ticks(w, t.interval) % SLOT_NUM != 0
    ensures Remaining(w.slots[k][p], w.slotIdx) >= 0
    ensures var t := w.slots[k][p];
      Calls(script, w, first, ops, t.id)
        == Schedule(first + Remaining(t, w.slotIdx), Period(w, t.interval), first + Handles(ops))
    decreases |ops|
  {
    hide Shape, Sole, Absent, DueIds, Occurs, Remaining, Ticks, Run, Calls, Handled, Added, Serve;
    SlotCount(w);
    var t := w.slots[k][p];
    ZeroIsUnderHand(w, k, p);
    CallsUnfold(script, w, first, ops, t.id);
    if ops != [] {
      var r := Serve(script, w, ops[0]);
      if ops[0].OpAdd? {
        AddKeepsEntry(script, w, ops[0], k, p);
        SameTick(w, r, t.interval);
        Exactness(script, r, first, ops[1..], k, p);
      } else if Remaining(t, w.slotIdx) > 0 {
        var q := SoleWaits(script, w, k, p);
        SameTick(w, r, t.interval);
        SlotCount(r);
        Exactness(script, r, first + 1, ops[1..], k, q);
      } else {
        SoleRuns(script, w, p);
        if t.interval == 0 {
          GoneStaysGone(script, r, first + 1, ops[1..], t.id);
        } else {
          var k', q := ComesBackSole(script, w, p);
          SameTick(w, r, t.interval);
          SlotCount(r);
          Exactness(script, r, first + 1, ops[1..], k', q);
        }
      }
    }
  }

  lemma CallsUnfold(script: Script, w: Wheel, first: nat, ops: seq<Op>, n: Id)
    requires Shape(w)
    ensures ops == [] ==> Calls(script, w, first, ops, n) == []
    ensures ops != [] && ops[0].OpAdd? ==>
      Calls(script, w, first, ops, n) == Calls(script, Serve(script, w, ops[0]), first, ops[1..], n)
    ensures ops != [] && ops[0].OpHandle? && Occurs(DueIds(w.slots[w.slotIdx]), n) == 0 ==>
      Calls(script, w, first, ops, n) == Calls(script, Serve(script, w, ops[0]), first + 1, ops[1..], n)
    ensures ops != [] && ops[0].OpHandle? && Occurs(DueIds(w.slots[w.slotIdx]), n) == 1 ==>
      Calls(script, w, first, ops, n) == [first] + Calls(script, Serve(script, w, ops[0]), first + 1, ops[1..], n)
  {
    hide Handled, Added, DueIds, Occurs, Serve;
    assert seq(1, _ => first) == [first] && seq(0, _ => first) == [];
  }

  lemma ZeroIsUnderHand(w: Wheel, k: nat, p: nat)
    requires Shape(w) && k < SLOT_NUM && p < |w.slots[k]|
    ensures var t := w.slots[k][p];
      && Remaining(t, w.slotIdx) >= 0
      && (Remaining(t, w.slotIdx) == 0 ==> k == w.slotIdx && t.round == 0)
      && (t.interval > 0 ==> Ticks(w, t.interval) > 0)
  {
    DueIffNothingRemains(w.slots[k][p], w.slotIdx);
  }

  /** Periods depend on the tick only. */
  lemma SameTick(w: Wheel, r: Wheel, interval: nat)
    requires w.tick > 0 && r.tick == w.tick
    ensures Ticks(r, interval) == Ticks(w, interval) && Period(r, interval) == Period(w, interval)
  {
  }

  lemma AddKeepsEntry(script: Script, w: Wheel, op: Op, k: nat, p: nat)
    requires Shape(w) && op.OpAdd? && k < SLOT_NUM && p < |w.slots[k]| && Sole(w, w.slots[k][p].id, k)
    ensures var t, r := w.slots[k][p], Serve(script, w, op);
      && r.tick == w.tick && r.slotIdx == w.slotIdx && |r.slots| == SLOT_NUM && p < |r.slots[k]| && r.slots[k][p] == t
      && Sole(r, t.id, k)
  {
    AddedPlaces(w, op.expiration, op.interval, w.slots[k][p].id);
    SamePlaces(w, Serve(script, w, op), w.slots[k][p].id);
  }

  lemma SoleWaits(script: Script, w: Wheel, k: nat, p: nat) returns (q: nat)
    requires Shape(w) && k < SLOT_NUM && p < |w.slots[k]| && Sole(w, w.slots[k][p].id, k)
    requires Remaining(w.slots[k][p], w.slotIdx) > 0
    ensures Occurs(DueIds(w.slots[w.slotIdx]), w.slots[k][p].id) == 0
    ensures var t, w' := w.slots[k][p], Serve(script, w, OpHandle);
      && w'.tick == w.tick && Sole(w', t.id, k) && q < |w'.slots[k]|
      && w'.slots[k][q].id == t.id && w'.slots[k][q].interval == t.interval
      && Remaining(w'.slots[k][q], w'.slotIdx) == Remaining(t, w.slotIdx) - 1
  {
    var t := w.slots[k][p];
    DueIffNothingRemains(t, w.slotIdx);
    if k == w.slotIdx {
      SoleEntryDecides(w.slots[k], p);
    } else {
      OccursDue(w.slots[w.slotIdx], t.id);
    }
    assert w.slots[w.slotIdx][0..] == w.slots[w.slotIdx];
    q := OneCall(script, w, k, p);
    WalkPlaces(script, w, 0, t.id);
    WalkRunsDue(script, w, 0);
    SamePlaces(w, Walk(script, w, 0), t.id);
    SamePlaces(Walk(script, w, 0), Handled(script, w), t.id);
  }

  /** The only entry of a timer, due under the hand, runs once. */
  lemma SoleRuns(script: Script, w: Wheel, p: nat)
    requires Shape(w) && p < |w.slots[w.slotIdx]| && Sole(w, w.slots[w.slotIdx][p].id, w.slotIdx)
    requires w.slots[w.slotIdx][p].round == 0
    ensures Occurs(DueIds(w.slots[w.slotIdx]), w.slots[w.slotIdx][p].id) == 1
    ensures var t, w' := w.slots[w.slotIdx][p], Serve(script, w, OpHandle);
      && w'.tick == w.tick && w'.slotIdx == (w.slotIdx + 1) % SLOT_NUM
      && (t.interval == 0 ==> Absent(w', t.id) && t.id < w'.nextId)
      && (t.interval > 0 ==> Sole(w', t.id, Rearmed(w, t).slotIdx))
  {
    var t := w.slots[w.slotIdx][p];
    SoleEntryDecides(w.slots[w.slotIdx], p);
    WalkMovesSole(script, w, 0, p);
    WalkRunsDue(script, w, 0);
    SamePlaces(Walk(script, w, 0), Handled(script, w), t.id);
  }

  lemma ComesBackSole(script: Script, w: Wheel, p: nat) returns (k: nat, q: nat)
    requires Shape(w) && p < |w.slots[w.slotIdx]| && Sole(w, w.slots[w.slotIdx][p].id, w.slotIdx)
    requires var t := w.slots[w.slotIdx][p]; t.round == 0 && t.interval > 0 && Ticks(w, t.interval) % SLOT_NUM != 0
    ensures var t, w' := w.slots[w.slotIdx][p], Serve(script, w, OpHandle);
      && w'.tick == w.tick && k < SLOT_NUM && Sole(w', t.id, k) && q < |w'.slots[k]|
      && w'.slots[k][q].id == t.id && w'.slots[k][q].interval == t.interval
      && Remaining(w'.slots[k][q], w'.slotIdx) == Ticks(w, t.interval) - 1
  {
    var t := w.slots[w.slotIdx][p];
    SoleRuns(script, w, p);
    PeriodicComesBack(script, w, 0, p);
    k := Rearmed(w, t).slotIdx;
    var slot := Walk(script, w, 0).slots[k];
    q :| 0 <= q < |slot| && slot[q] == Rearmed(w, t);
  }

  /** A timer that is added in any reachable state runs on the call of its number of ticks, and then
    keeps to its period. */
  lemma AddedExactly(script: Script, w: Wheel, expiration: nat, interval: nat, first: nat, ops: seq<Op>)
    requires Shape(w) && Distinct(w) && (interval > 0 ==> Ticks(w, interval) % SLOT_NUM != 0)
    ensures Shape(Added(w, expiration, interval))
    ensures Calls(script, Added(w, expiration, interval), first, ops, w.nextId)
      == Schedule(first + Ticks(w, expiration), Period(w, interval), first + Handles(ops))
  {
    hide Calls, Schedule, Handles, Distinct, Absent, Sole, Ticks;
    var ticks := Ticks(w, expiration);
    var k := (w.slotIdx + ticks) % SLOT_NUM;
    NewIsAbsent(w);
    AddedPlaces(w, expiration, interval, w.nextId);
    SameTick(w, Added(w, expiration, interval), interval);
    ArmedRemaining(w.nextId, interval, ticks, w.slotIdx);
    Exactness(script, Added(w, expiration, interval), first, ops, k, |w.slots[k]|);
  }

  /** Any timer of a reachable state has the one entry that exactness asks for. */
  lemma ReachableExactness(script: Script, w: Wheel, before: seq<Op>, first: nat, ops: seq<Op>, k: nat, p: nat)
    requires Shape(w) && Distinct(w)
    requires k < SLOT_NUM && p < |Run(script, w, before).slots[k]|
    requires var m := Run(script, w, before);
      m.slots[k][p].interval > 0 ==> Ticks(m, m.slots[k][p].interval) % SLOT_NUM != 0
    ensures var m := Run(script, w, before);
      var t := m.slots[k][p];
      && Remaining(t, m.slotIdx) >= 0
      && Calls(script, m, first, ops, t.id)
           == Schedule(first + Remaining(t, m.slotIdx), Period(m, t.interval), first + Handles(ops))
  {
    hide Calls, Schedule, Handles, Distinct, Sole, Run, Remaining, Ticks;
    AlwaysDistinct(script, w, before);
    EntryIsSole(Run(script, w, before), k, p);
    Exactness(script, Run(script, w, before), first, ops, k, p);
  }
}

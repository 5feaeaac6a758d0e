/** The simple timing wheel: 60 slots, and a count of rounds on each timer. */
module TimingWheel {
  import opened Seqs

  const SLOT_NUM := 60

  type Id = nat

  datatype Tim = Tim(id: Id, interval: nat, round: nat, slotIdx: nat)

  /** What a callback may do: add timers. */
  datatype Add = Add(expiration: nat, interval: nat)

  datatype Wheel = Wheel(tick: nat, slotIdx: nat, slots: seq<seq<Tim>>, nextId: Id, fired: seq<Id>)

  type Script = (Id, Wheel) -> seq<Add>

  ghost predicate Shape(w: Wheel) {
    && w.tick > 0 && w.slotIdx < SLOT_NUM && |w.slots| == SLOT_NUM
    && (forall k, i :: 0 <= k < SLOT_NUM && 0 <= i < |w.slots[k]| ==> w.slots[k][i].slotIdx == k)
  }

  /** A period or delay in ticks, at least one. */
  function Ticks(w: Wheel, ms: nat): (t: nat)
    requires w.tick > 0
    ensures t >= 1
  {
    if ms < w.tick then 1 else ms / w.tick
  }

  /** Calls of `handle` to come before the one that runs this timer, the hand standing at `hand`. */
  function Remaining(t: Tim, hand: nat): int { t.round * SLOT_NUM + (t.slotIdx - hand) % SLOT_NUM }

  /** A timer set `ticks` ahead. */
  function Armed(id: Id, interval: nat, ticks: nat, hand: nat): Tim {
    Tim(id, interval, ticks / SLOT_NUM, (hand + ticks) % SLOT_NUM)
  }

  lemma ArmedRemaining(id: Id, interval: nat, ticks: nat, hand: nat)
    requires hand < SLOT_NUM
    ensures Remaining(Armed(id, interval, ticks, hand), hand) == ticks
  {
  }

  /** A timer runs in this call just when nothing remains. */
  lemma DueIffNothingRemains(t: Tim, hand: nat)
    requires hand < SLOT_NUM && t.slotIdx < SLOT_NUM
    ensures Remaining(t, hand) >= 0
    ensures Remaining(t, hand) == 0 <==> t.slotIdx == hand && t.round == 0
  {
  }

  // ---- Calls from outside ----

  function Append(w: Wheel, t: Tim): Wheel
    requires |w.slots| == SLOT_NUM && t.slotIdx < SLOT_NUM
  {
    w.(slots := w.slots[t.slotIdx := w.slots[t.slotIdx] + [t]])
  }

  function Added(w: Wheel, expiration: nat, interval: nat): Wheel
    requires Shape(w)
  {
    Append(w, Armed(w.nextId, interval, Ticks(w, expiration), w.slotIdx)).(nextId := w.nextId + 1)
  }

  function AddAll(w: Wheel, adds: seq<Add>): (r: Wheel)
    requires Shape(w)
    ensures Shape(r)
    decreases |adds|
  {
    if adds == [] then w else AddAll(Added(w, adds[0].expiration, adds[0].interval), adds[1..])
  }

  /** `r` is `w` with timers appended; those appended under the hand are not due in this round. */
  ghost predicate Grown(w: Wheel, r: Wheel)
    requires Shape(w) && Shape(r)
  {
    && r.tick == w.tick && r.slotIdx == w.slotIdx
    && (forall k :: 0 <= k < SLOT_NUM ==> w.slots[k] <= r.slots[k])
    && (forall j :: |w.slots[w.slotIdx]| <= j < |r.slots[w.slotIdx]| ==> r.slots[w.slotIdx][j].round > 0)
  }

  lemma {:induction false} AddAllGrows(w: Wheel, adds: seq<Add>)
    requires Shape(w)
    ensures Grown(w, AddAll(w, adds)) && AddAll(w, adds).fired == w.fired
    decreases |adds|
  {
    if adds != [] {
      var m := Added(w, adds[0].expiration, adds[0].interval);
      AddAllGrows(m, adds[1..]);
    }
  }

  // ---- The walk of the slot under the hand ----

  function Due(list: seq<Tim>): nat {
    if list == [] then 0 else (if list[0].round == 0 then 1 else 0) + Due(list[1..])
  }

  function Called(script: Script, w: Wheel, id: Id): (r: Wheel)
    requires Shape(w)
    ensures Shape(r)
  {
    var l := w.(fired := w.fired + [id]);
    AddAll(l, script(id, l))
  }

  /** The timer at index `i` has run; where it goes, and the index the walk goes on from. */
  function Settle(w: Wheel, i: nat): (Wheel, nat)
    requires Shape(w) && i < |w.slots[w.slotIdx]|
  {
    var list := w.slots[w.slotIdx];
    var t := list[i];
    var rest := w.(slots := w.slots[w.slotIdx := list[..i] + list[i + 1..]]);
    if t.interval == 0 then (rest, i)
    else
      var t' := Armed(t.id, t.interval, Ticks(w, t.interval), w.slotIdx);
      // Spliced to the end of its own list, the last timer stays behind the walk.
      if t'.slotIdx == w.slotIdx && i + 1 == |list| then (Append(rest, t'), i + 1)
      else (Append(rest, t'), i)
  }

  lemma {:induction false} DueAppend(a: seq<Tim>, b: seq<Tim>)
    ensures Due(a + b) == Due(a) + Due(b)
    ensures DueIds(a + b) == DueIds(a) + DueIds(b)
    ensures Kept(a + b) == Kept(a) + Kept(b)
  {
    if a == [] {
      assert a + b == b;
    } else {
      DueAppend(a[1..], b);
      assert (a + b)[1..] == a[1..] + b && (a + b)[0] == a[0];
      Reassociate(if a[0].round == 0 then [a[0].id] else [], DueIds(a[1..]), DueIds(b));
      Reassociate(if a[0].round > 0 then [a[0].(round := a[0].round - 1)] else [], Kept(a[1..]), Kept(b));
    }
  }

  lemma {:induction false} NoneDue(b: seq<Tim>)
    requires forall j :: 0 <= j < |b| ==> b[j].round > 0
    ensures Due(b) == 0 && DueIds(b) == []
  {
    if b != [] {
      NoneDue(b[1..]);
    }
  }

  /** The ids of the timers that are due, in the order of the list. */
  function DueIds(list: seq<Tim>): seq<Id> {
    if list == [] then [] else (if list[0].round == 0 then [list[0].id] else []) + DueIds(list[1..])
  }

  /** The timers that wait, one round less to go. */
  function Kept(list: seq<Tim>): seq<Tim> {
    if list == [] then []
    else (if list[0].round > 0 then [list[0].(round := list[0].round - 1)] else []) + Kept(list[1..])
  }

  /** What is ahead of the walk after a timer at index `i`, which is due, has run and been settled:
    the old timers behind it and then only timers that are not due. */
  ghost predicate Ahead(list: seq<Tim>, i: nat, list': seq<Tim>, i': nat)
    requires i < |list|
  {
    && i <= i' <= |list'| && list'[..i] == list[..i]
    && (if i' == i then list[i + 1..] <= list'[i..] else i' == i + 1 == |list| == |list'|)
    && forall j :: |list| - 1 <= j < |list'| ==> list'[j].round > 0
  }

  /** The timer at index `i` is due, has been called and settled. */
  lemma FireStep(script: Script, w: Wheel, i: nat)
    requires Shape(w) && i < |w.slots[w.slotIdx]| && w.slots[w.slotIdx][i].round == 0
    ensures var list, c := w.slots[w.slotIdx], Called(script, w, w.slots[w.slotIdx][i].id);
      && Grown(w, c) && i < |c.slots[c.slotIdx]| && c.slots[c.slotIdx][i] == list[i]
      && c.fired == w.fired + [list[i].id]
      && var (r, i') := Settle(c, i);
      && Shape(r) && r.tick == w.tick && r.slotIdx == w.slotIdx && r.fired == c.fired
      && Ahead(list, i, r.slots[w.slotIdx], i')
      && (forall k :: 0 <= k < SLOT_NUM && k != w.slotIdx ==> w.slots[k] <= r.slots[k])
      && (list[i].interval > 0 ==>
            var t' := Armed(list[i].id, list[i].interval, Ticks(w, list[i].interval), w.slotIdx);
            t' in r.slots[t'.slotIdx])
  {
    var list, id := w.slots[w.slotIdx], w.slots[w.slotIdx][i].id;
    var l := w.(fired := w.fired + [id]);
    AddAllGrows(l, script(id, l));
    var c := Called(script, w, id);
    SettleStep(c, i);
  }

  lemma SettleStep(c: Wheel, i: nat)
    requires Shape(c) && i < |c.slots[c.slotIdx]|
    ensures var list, (r, i') := c.slots[c.slotIdx], Settle(c, i);
      && Shape(r) && r.tick == c.tick && r.slotIdx == c.slotIdx && r.fired == c.fired
      && var list' := r.slots[c.slotIdx];
      && i <= i' <= |list'| && list'[..i] == list[..i]
      && (if i' == i then list[i + 1..] <= list'[i..] else i' == i + 1 == |list| == |list'|)
      && (forall j :: |list| - 1 <= j < |list'| ==> list'[j].round > 0)
      && (forall k :: 0 <= k < SLOT_NUM && k != c.slotIdx ==> c.slots[k] <= r.slots[k])
      && (list[i].interval > 0 ==>
            var t' := Armed(list[i].id, list[i].interval, Ticks(c, list[i].interval), c.slotIdx);
            t' in r.slots[t'.slotIdx])
  {
    var list := c.slots[c.slotIdx];
    var rest := c.(slots := c.slots[c.slotIdx := list[..i] + list[i + 1..]]);
    assert Shape(rest);
  }

  /** The timer at index `i` waits one round less. */
  function Aged(w: Wheel, i: nat): Wheel
    requires Shape(w) && i < |w.slots[w.slotIdx]| && w.slots[w.slotIdx][i].round > 0
  {
    var list := w.slots[w.slotIdx];
    w.(slots := w.slots[w.slotIdx := list[i := list[i].(round := list[i].round - 1)]])
  }

  /** The list under the hand is walked from index `i` on. */
  function Walk(script: Script, w: Wheel, i: nat): Wheel
    requires Shape(w) && i <= |w.slots[w.slotIdx]|
    decreases Due(w.slots[w.slotIdx][i..]), |w.slots[w.slotIdx]| - i
  {
    var list := w.slots[w.slotIdx];
    if i == |list| then w
    else if list[i].round > 0 then
      Walk(script, Aged(w, i), i + 1)
    else
      FireStep(script, w, i);
      FewerDue(list, i, Settle(Called(script, w, list[i].id), i).0.slots[w.slotIdx],
        Settle(Called(script, w, list[i].id), i).1);
      Walk(script, Settle(Called(script, w, list[i].id), i).0, Settle(Called(script, w, list[i].id), i).1)
  }

  lemma FewerDue(list: seq<Tim>, i: nat, list': seq<Tim>, i': nat)
    requires i < |list| && list[i].round == 0 && Ahead(list, i, list', i')
    ensures Due(list'[i'..]) < Due(list[i..])
    ensures DueIds(list[i..]) == [list[i].id] + DueIds(list'[i'..])
    ensures Kept(list[i..]) <= list'[i..i'] + Kept(list'[i'..])
  {
    assert list[i..][1..] == list[i + 1..];
    if i' == i {
      var more := list'[i..][|list| - i - 1..];
      assert list'[i..] == list[i + 1..] + more;
      assert forall j :: 0 <= j < |more| ==> more[j] == list'[|list| - 1 + j];
      DueAppend(list[i + 1..], more);
      NoneDue(more);
      assert list'[i..i'] == [];
      assert list'[i..i'] + Kept(list'[i'..]) == Kept(list'[i'..]);
    } else {
      assert list'[i'..] == [] && list[i + 1..] == [];
    }
  }

  function Handled(script: Script, w: Wheel): Wheel
    requires Shape(w)
  {
    var r := Walk(script, w, 0);
    r.(slotIdx := (r.slotIdx + 1) % SLOT_NUM)
  }

  // ---- What one call does ----

  /** The walk as a whole: the due timers run, each once and in the order of their list; the timers
    that wait stay in order, each one round nearer; other slots only grow. */
  lemma {:induction false} WalkRunsDue(script: Script, w: Wheel, i: nat)
    requires Shape(w) && i <= |w.slots[w.slotIdx]|
    ensures var list, r := w.slots[w.slotIdx], Walk(script, w, i);
      && Shape(r) && r.tick == w.tick && r.slotIdx == w.slotIdx
      && r.fired == w.fired + DueIds(list[i..])
      && list[..i] + Kept(list[i..]) <= r.slots[w.slotIdx]
      && (forall k :: 0 <= k < SLOT_NUM && k != w.slotIdx ==> w.slots[k] <= r.slots[k])
    decreases Due(w.slots[w.slotIdx][i..]), |w.slots[w.slotIdx]| - i
  {
    var list := w.slots[w.slotIdx];
    if i == |list| {
      assert list[..i] + Kept(list[i..]) == list;
      assert w.fired + DueIds(list[i..]) == w.fired;
    } else if list[i].round > 0 {
      var aged := list[i].(round := list[i].round - 1);
      var m := Aged(w, i);
      WalkRunsDue(script, m, i + 1);
      Reassociate(list[..i], [aged], Kept(list[i + 1..]));
    } else {
      WalkFires(script, w, i);
      hide Settle, Called, Ahead, Kept, DueIds;
      FireStep(script, w, i);
      var (m, i') := Settle(Called(script, w, list[i].id), i);
      FewerDue(list, i, m.slots[w.slotIdx], i');
      WalkRunsDue(script, m, i');
      StepFires(list, i, m.slots[w.slotIdx], i', Walk(script, m, i').slots[w.slotIdx]);
      Reassociate(w.fired, [list[i].id], DueIds(m.slots[w.slotIdx][i'..]));
    }
  }

  lemma WalkFires(script: Script, w: Wheel, i: nat)
    requires Shape(w) && i < |w.slots[w.slotIdx]| && w.slots[w.slotIdx][i].round == 0
    ensures var c := Called(script, w, w.slots[w.slotIdx][i].id); i < |c.slots[c.slotIdx]|
    ensures var (m, i') := Settle(Called(script, w, w.slots[w.slotIdx][i].id), i);
      Shape(m) && i' <= |m.slots[m.slotIdx]| && Walk(script, w, i) == Walk(script, m, i')
  {
    FireStep(script, w, i);
  }

  lemma StepFires(list: seq<Tim>, i: nat, list': seq<Tim>, i': nat, last: seq<Tim>)
    requires i < |list| && list[i].round == 0 && Ahead(list, i, list', i')
    requires list'[..i'] + Kept(list'[i'..]) <= last
    ensures list[..i] + Kept(list[i..]) <= last
  {
    FewerDue(list, i, list', i');
    assert list'[..i'] == list[..i] + list'[i..i'];
    Reassociate(list[..i], list'[i..i'], Kept(list'[i'..]));
  }

  // ---- Countdown ----

  lemma HandleKeepsShape(script: Script, w: Wheel)
    requires Shape(w)
    ensures Shape(Handled(script, w)) && Handled(script, w).slotIdx == (w.slotIdx + 1) % SLOT_NUM
    ensures Handled(script, w).fired == w.fired + DueIds(w.slots[w.slotIdx])
  {
    WalkRunsDue(script, w, 0);
    assert w.slots[w.slotIdx][0..] == w.slots[w.slotIdx];
  }

  lemma {:induction false} KeptHas(list: seq<Tim>, p: nat) returns (q: nat)
    requires p < |list| && list[p].round > 0
    ensures q < |Kept(list)| && Kept(list)[q] == list[p].(round := list[p].round - 1)
  {
    if p == 0 {
      q := 0;
    } else {
      q := KeptHas(list[1..], p - 1);
      q := q + if list[0].round > 0 then 1 else 0;
    }
  }

  /** In one call of `handle`, whatever the callbacks add, a timer that waits comes exactly one call
    nearer. */
  lemma OneCall(script: Script, w: Wheel, k: nat, p: nat) returns (q: nat)
    requires Shape(w) && k < SLOT_NUM && p < |w.slots[k]| && Remaining(w.slots[k][p], w.slotIdx) > 0
    ensures var w', t := Handled(script, w), w.slots[k][p];
      && Shape(w') && q < |w'.slots[k]|
      && w'.slots[k][q].id == t.id && w'.slots[k][q].interval == t.interval
      && Remaining(w'.slots[k][q], w'.slotIdx) == Remaining(t, w.slotIdx) - 1
  {
    hide Walk, Due, DueIds, Kept;
    var t := w.slots[k][p];
    HandleKeepsShape(script, w);
    WalkRunsDue(script, w, 0);
    DueIffNothingRemains(t, w.slotIdx);
    if k == w.slotIdx {
      assert w.slots[k][0..] == w.slots[k] && w.slots[k][..0] + Kept(w.slots[k]) == Kept(w.slots[k]);
      q := KeptHas(w.slots[k], p);
    } else {
      q := p;
    }
  }

  // ---- Periods ----

  /** The timer that a periodic one has become once it has run. */
  function Rearmed(w: Wheel, t: Tim): (r: Tim)
    requires Shape(w)
    ensures r.slotIdx < SLOT_NUM
  {
    Armed(t.id, t.interval, Ticks(w, t.interval), w.slotIdx)
  }

  /** A timer is armed in the slot under the hand just for whole rounds, at least one. */
  lemma RearmedSlot(w: Wheel, t: Tim)
    requires Shape(w)
    ensures Rearmed(w, t).slotIdx == w.slotIdx <==> Ticks(w, t.interval) % SLOT_NUM == 0
    ensures Rearmed(w, t).slotIdx == w.slotIdx ==> Rearmed(w, t).round > 0
    ensures Rearmed(w, t) == Armed(t.id, t.interval, Ticks(w, t.interval), w.slotIdx)
    ensures Remaining(Rearmed(w, t), w.slotIdx) == Ticks(w, t.interval)
    ensures var again := Rearmed(w, t);
      var aged := if again.slotIdx == w.slotIdx then again.(round := again.round - 1) else again;
      Remaining(aged, (w.slotIdx + 1) % SLOT_NUM) == Ticks(w, t.interval) - 1
  {
    ArmedRemaining(t.id, t.interval, Ticks(w, t.interval), w.slotIdx);
  }

  lemma SlotCount(w: Wheel)
    requires Shape(w)
    ensures |w.slots| == SLOT_NUM && w.slotIdx < SLOT_NUM && w.tick > 0
  {
  }

  lemma ComesBackNow(script: Script, w: Wheel, i: nat)
    requires Shape(w) && i < |w.slots[w.slotIdx]|
    requires var t := w.slots[w.slotIdx][i]; t.round == 0 && t.interval > 0 && Ticks(w, t.interval) % SLOT_NUM != 0
    ensures var t', r := Rearmed(w, w.slots[w.slotIdx][i]), Walk(script, w, i);
      t'.slotIdx != w.slotIdx && |r.slots| == SLOT_NUM && t' in r.slots[t'.slotIdx]
  {
    hide Shape, Settle, Called, Walk, Due, DueIds, Kept, Ahead, Ticks, Rearmed, Armed, Grown;
    SlotCount(w);
    RearmedSlot(w, w.slots[w.slotIdx][i]);
    WalkFires(script, w, i);
    FireStep(script, w, i);
    var (m, i') := Settle(Called(script, w, w.slots[w.slotIdx][i].id), i);
    SlotCount(m);
    WalkRunsDue(script, m, i');
    SlotCount(Walk(script, m, i'));
  }

  /** A periodic timer that runs is armed again for its period, counted from this call, when that is
    no multiple of 60 ticks. */
  lemma {:induction false} PeriodicComesBack(script: Script, w: Wheel, i: nat, p: nat)
    requires Shape(w) && i <= p < |w.slots[w.slotIdx]|
    requires var t := w.slots[w.slotIdx][p]; t.round == 0 && t.interval > 0 && Ticks(w, t.interval) % SLOT_NUM != 0
    ensures var t', r := Rearmed(w, w.slots[w.slotIdx][p]), Walk(script, w, i);
      && |r.slots| == SLOT_NUM && t' in r.slots[t'.slotIdx]
      && Remaining(t', (w.slotIdx + 1) % SLOT_NUM) == Ticks(w, w.slots[w.slotIdx][p].interval) - 1
    decreases Due(w.slots[w.slotIdx][i..]), |w.slots[w.slotIdx]| - i
  {
    var list := w.slots[w.slotIdx];
    RearmedSlot(w, list[p]);
    if i == p {
      ComesBackNow(script, w, i);
    } else if list[i].round > 0 {
      var m := Aged(w, i);
      PeriodicComesBack(script, m, i + 1, p);
    } else {
      WalkFires(script, w, i);
      FireStep(script, w, i);
      hide Settle, Called, Walk, DueIds, Kept;
      var (m, i') := Settle(Called(script, w, list[i].id), i);
      FewerDue(list, i, m.slots[w.slotIdx], i');
      assert list[i + 1..][p - i - 1] == list[p] && m.slots[w.slotIdx][i..][p - i - 1] == m.slots[w.slotIdx][p - 1];
      PeriodicComesBack(script, m, i', p - 1);
    }
  }

  /** With a period that is a multiple of 60 ticks it depends on the place in the list: the timer
    comes back after its period just when another stands behind it by the time its callback has
    returned; the last one comes back 60 calls late. */
  lemma PeriodicMultiple(script: Script, w: Wheel, i: nat)
    requires Shape(w) && i < |w.slots[w.slotIdx]|
    requires var t := w.slots[w.slotIdx][i]; t.round == 0 && t.interval > 0 && Ticks(w, t.interval) % SLOT_NUM == 0
    ensures var t, t', r := w.slots[w.slotIdx][i], Rearmed(w, w.slots[w.slotIdx][i]), Walk(script, w, i);
      var c := Called(script, w, t.id);
      var last := i + 1 == |c.slots[w.slotIdx]|;
      var back := if last then t' else t'.(round := t'.round - 1);
      && t'.slotIdx == w.slotIdx && t'.round > 0 && |r.slots| == SLOT_NUM && back in r.slots[w.slotIdx]
      && Remaining(back, (w.slotIdx + 1) % SLOT_NUM) == Ticks(w, t.interval) - 1 + if last then 60 else 0
  {
    hide Shape, Settle, Called, Walk, DueIds, Due, Ticks, Rearmed, Armed, Grown;
    SlotCount(w);
    var t' := Rearmed(w, w.slots[w.slotIdx][i]);
    RearmedSlot(w, w.slots[w.slotIdx][i]);
    FireStep(script, w, i);
    WalkFires(script, w, i);
    var c := Called(script, w, w.slots[w.slotIdx][i].id);
    CalledBasics(script, w, w.slots[w.slotIdx][i].id);
    SettleMultiple(c, i);
    var (m, i') := Settle(c, i);
    WalkRunsDue(script, m, i');
    SlotCount(Walk(script, m, i'));
    EndsUp(m.slots[w.slotIdx], i, i', t', Walk(script, m, i').slots[w.slotIdx]);
  }

  lemma CalledBasics(script: Script, w: Wheel, id: Id)
    requires Shape(w)
    ensures var c := Called(script, w, id); |c.slots| == SLOT_NUM && c.slotIdx == w.slotIdx && c.tick == w.tick
    ensures forall t: Tim ::
      Rearmed(Called(script, w, id), t) == Rearmed(w, t)
        && Ticks(Called(script, w, id), t.interval) == Ticks(w, t.interval)
  {
    var l := w.(fired := w.fired + [id]);
    AddAllGrows(l, script(id, l));
  }

  /** The last timer of the list, either still ahead of the walk or just behind it, ends up in the list. */
  lemma EndsUp(list: seq<Tim>, i: nat, i': nat, t: Tim, last: seq<Tim>)
    requires i < |list| && list[|list| - 1] == t && t.round > 0 && (i' == i || i' == i + 1 == |list|)
    requires list[..i'] + Kept(list[i'..]) <= last
    ensures (if i' == i then t.(round := t.round - 1) else t) in last
  {
    if i' == i {
      assert list[i..][|list| - 1 - i] == t;
      var q := KeptHas(list[i..], |list| - 1 - i);
      assert (list[..i] + Kept(list[i..]))[i + q] == t.(round := t.round - 1);
    } else {
      assert (list[..i'] + Kept(list[i'..]))[i] == t;
    }
  }

  lemma SettleMultiple(c: Wheel, i: nat)
    requires Shape(c) && i < |c.slots[c.slotIdx]|
    requires var t := c.slots[c.slotIdx][i]; t.interval > 0 && Ticks(c, t.interval) % SLOT_NUM == 0
    ensures var list, t', (m, i') := c.slots[c.slotIdx], Rearmed(c, c.slots[c.slotIdx][i]), Settle(c, i);
      && |m.slots| == SLOT_NUM && t'.slotIdx == c.slotIdx && t'.round > 0
      && m.slots[c.slotIdx] == list[..i] + list[i + 1..] + [t']
      && i' == if i + 1 == |list| then i + 1 else i
  {
  }

  // ---- The object ----

  class TimingWheel {
    const tick: nat
    const script: Script
    var slotIdx: nat
    var slots: seq<seq<Tim>>
    var nextId: Id
    var fired: seq<Id>

    function View(): Wheel
      reads this
    {
      Wheel(tick, slotIdx, slots, nextId, fired)
    }

    ghost predicate Valid()
      reads this
    {
      Shape(View())
    }

    constructor (tick: nat, script: Script)
      requires tick > 0
      ensures Valid() && View() == Wheel(tick, 0, seq(SLOT_NUM, _ => []), 0, [])
    {
      this.tick, this.script := tick, script;
      slotIdx, slots, nextId, fired := 0, seq(SLOT_NUM, _ => []), 0, [];
    }

    method AddTimer(expiration: nat, interval: nat) returns (id: Id)
      requires Valid()
      modifies `slots, `nextId
      ensures Valid() && id == old(nextId) && View() == Added(old(View()), expiration, interval)
    {
      var ticks := if expiration < tick then 1 else expiration / tick;
      var round := ticks / SLOT_NUM;
      var idx := (slotIdx + ticks) % SLOT_NUM;
      id := nextId;
      nextId := nextId + 1;
      slots := slots[idx := slots[idx] + [Tim(id, interval, round, idx)]];
    }

    /** Runs the callback of a timer. */
    method Run(id: Id)
      requires Valid()
      modifies `slots, `nextId, `fired
      ensures Valid() && View() == Called(script, old(View()), id)
    {
      fired := fired + [id];
      var adds := script(id, View());
      while adds != []
        invariant Valid()
        invariant AddAll(View(), adds) == Called(script, old(View()), id)
        decreases |adds|
      {
        var _ := AddTimer(adds[0].expiration, adds[0].interval);
        adds := adds[1..];
      }
    }

    method Handle()
      requires Valid()
      modifies this
      ensures Valid() && View() == Handled(script, old(View()))
    {
      hide Called, DueIds, Due, Kept, Ahead, Grown, AddAll;
      var it: nat := 0;
      while it < |slots[slotIdx]|
        invariant Valid() && slotIdx == old(slotIdx) && it <= |slots[slotIdx]|
        invariant Walk(script, View(), it) == Walk(script, old(View()), 0)
        decreases Due(slots[slotIdx][it..]), |slots[slotIdx]| - it
      {
        if slots[slotIdx][it].round > 0 {
          AgesOne(script, View(), it);
          var tim := slots[slotIdx][it];
          slots := slots[slotIdx := slots[slotIdx][it := tim.(round := tim.round - 1)]];
          it := it + 1;
        } else {
          FiresOne(script, View(), it);
          Run(slots[slotIdx][it].id);
          it := Resettle(it);
        }
      }
      HandleKeepsShape(script, old(View()));
      slotIdx := (slotIdx + 1) % SLOT_NUM;
    }

    /** Splices a periodic timer that has run into its next slot, or erases it; returns where the walk goes on. */
    method Resettle(i: nat) returns (next: nat)
      requires Valid() && i < |slots[slotIdx]|
      modifies `slots
      ensures (View(), next) == Settle(old(View()), i)
    {
      var list := slots[slotIdx];
      var tim := list[i];
      var rest := list[..i] + list[i + 1..];
      if tim.interval > 0 {
        var ticks := if tim.interval < tick then 1 else tim.interval / tick;
        var idx := (slotIdx + ticks) % SLOT_NUM;
        var moved := tim.(round := ticks / SLOT_NUM, slotIdx := idx);
        next := if idx == slotIdx && i + 1 == |list| then i + 1 else i;
        slots := slots[slotIdx := rest];
        slots := slots[idx := slots[idx] + [moved]];
      } else {
        next := i;
        slots := slots[slotIdx := rest];
      }
    }
  }

  lemma AgesOne(script: Script, w: Wheel, i: nat)
    requires Shape(w) && i < |w.slots[w.slotIdx]| && w.slots[w.slotIdx][i].round > 0
    ensures var w' := Aged(w, i);
      && Shape(w') && Walk(script, w, i) == Walk(script, w', i + 1)
      && Due(w'.slots[w.slotIdx][i + 1..]) <= Due(w.slots[w.slotIdx][i..])
  {
  }

  lemma FiresOne(script: Script, w: Wheel, i: nat)
    requires Shape(w) && i < |w.slots[w.slotIdx]| && w.slots[w.slotIdx][i].round == 0
    ensures var c := Called(script, w, w.slots[w.slotIdx][i].id); i < |c.slots[c.slotIdx]| && c.slotIdx == w.slotIdx
    ensures var (m, i') := Settle(Called(script, w, w.slots[w.slotIdx][i].id), i);
      && Shape(m) && m.slotIdx == w.slotIdx && i' <= |m.slots[m.slotIdx]| && Walk(script, w, i) == Walk(script, m, i')
      && Due(m.slots[m.slotIdx][i'..]) < Due(w.slots[w.slotIdx][i..])
  {
    WalkFires(script, w, i);
    FireStep(script, w, i);
    var (m, i') := Settle(Called(script, w, w.slots[w.slotIdx][i].id), i);
    FewerDue(w.slots[w.slotIdx], i, m.slots[w.slotIdx], i');
  }
}

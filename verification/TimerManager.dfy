/** The hierarchical timing wheel with its hash table of names, step by step, against the flat scheduler. */
module TimerManager {
  import opened Links
  import opened Options
  import opened Microseconds
  import opened WheelGeometry
  import opened FlatScheduler
  import opened WalkEnding
  import opened WheelState

  class TimerManager {
    const hash: Hash
    const script: Script

    var jiffies: nat
    var rmNode: Option<Id>
    var nextId: Id
    var nodes: map<Id, Timer>
    var fired: seq<Firing>

    // The lists of the hash table and of the wheels, and the links a node keeps into them.
    var buckets: map<Bucket, seq<Id>>
    var htNode: map<Id, Bucket>
    var tw: map<Slot, seq<Id>>
    var twNode: map<Id, Slot>

    // ---- Invariant and abstraction ----

    ghost predicate Valid(drained: nat)
      reads this
    {
      && TableOk(hash, nodes, buckets, htNode) && WheelsOk(nodes.Keys, tw, twNode)
      && Placed(jiffies, drained, nodes, twNode)
      && NodesOk(nextId, rmNode, nodes)
    }

    /** The flat multiset of timers that the wheels stand for. */
    function View(): Flat
      reads this
    {
      Flat(jiffies, nodes, nextId, fired, NotBegun)
    }

    /** The same while the slot under the hand is walked. */
    function Inside(): Flat
      reads this
    {
      View().(walk := At(HandList(jiffies, tw)))
    }

    constructor (hash: Hash, script: Script, now: nat)
      ensures Valid(0) && View() == Flat(now, map[], 0, [], NotBegun) && this.script == script && this.hash == hash
    {
      this.hash, this.script := hash, script;
      jiffies, rmNode, nextId, nodes, fired := now, None, 0, map[], [];
      buckets := map i: nat | i < BUCKET_SIZE :: Bucket(i) := [];
      tw := map level: nat, idx: nat | level < 5 && idx < Size(level) :: Slot(level, idx) := [];
      htNode, twNode := map[], map[];
      new;
      assert forall b: Bucket :: b.idx < BUCKET_SIZE ==> Bucket(b.idx) in buckets;
      assert forall s: Slot :: ValidSlot(s) ==> Slot(s.level, s.idx) in tw;
    }

    // ---- Links ----

    /** `delete node->twNode`. */
    method UnlinkTw(n: Id)
      requires WheelsOk(twNode.Keys, tw, twNode) && n in twNode
      modifies `tw, `twNode
      ensures WheelsOk(twNode.Keys, tw, twNode)
      ensures tw == old(tw)[old(twNode)[n] := Without(old(tw)[old(twNode)[n]], n)]
      ensures twNode == old(twNode) - {n}
    {
      hide *;
      WheelsShrink(twNode.Keys, tw, twNode, n);
      tw := tw[twNode[n] := Without(tw[twNode[n]], n)];
      twNode := twNode - {n};
      assert twNode.Keys == old(twNode).Keys - {n};
    }

    /** `delete node->htNode; delete node->twNode; delete node;` */
    method Free(n: Id)
      requires TableOk(hash, nodes, buckets, htNode) && WheelsOk(nodes.Keys, tw, twNode) && n in nodes
      modifies `buckets, `htNode, `tw, `twNode, `nodes
      ensures TableOk(hash, nodes, buckets, htNode) && WheelsOk(nodes.Keys, tw, twNode)
      ensures nodes == old(nodes) - {n} && twNode == old(twNode) - {n}
      ensures tw == old(tw)[old(twNode)[n] := Without(old(tw)[old(twNode)[n]], n)]
      ensures buckets == old(buckets)[old(htNode)[n] := Without(old(buckets)[old(htNode)[n]], n)]
    {
      hide *;
      TableShrinks(hash, nodes, buckets, htNode, n);
      WheelsDomain(nodes.Keys, tw, twNode);
      buckets := buckets[htNode[n] := Without(buckets[htNode[n]], n)];
      htNode := htNode - {n};
      UnlinkTw(n);
      nodes := nodes - {n};
      assert nodes.Keys == twNode.Keys;
    }

    // ---- Calls ----

    /** Files a node into the wheel its deadline belongs to. */
    method AddTimerNode(n: Id)
      requires WheelsOk(twNode.Keys, tw, twNode) && n in nodes && n !in twNode
      requires jiffies <= nodes[n].endtime < jiffies + UINT_RANGE
      modifies `tw, `twNode
      ensures WheelsOk(twNode.Keys, tw, twNode)
      ensures var s := SlotFor(jiffies, nodes[n].endtime);
        s in old(tw) && tw == old(tw)[s := old(tw)[s] + [n]] && twNode == old(twNode)[n := s]
        && PlacedAt(jiffies, 4, nodes[n].endtime, s)
    {
      hide *;
      SlotForPlaces(jiffies, nodes[n].endtime);
      WheelsDomain(twNode.Keys, tw, twNode);
      var s := SlotFor(jiffies, nodes[n].endtime);
      WheelsGrow(twNode.Keys, tw, twNode, n, s);
      tw := tw[s := tw[s] + [n]];
      twNode := twNode[n := s];
      assert twNode.Keys == old(twNode).Keys + {n};
    }

    /** `HashTable::push_back` on a fresh node. */
    method PushBack(t: Timer) returns (id: Id)
      requires TableOk(hash, nodes, buckets, htNode) && NodesOk(nextId, rmNode, nodes)
      modifies `nextId, `nodes, `buckets, `htNode
      ensures TableOk(hash, nodes, buckets, htNode) && NodesOk(nextId, rmNode, nodes)
      ensures id == old(nextId) && nextId == id + 1 && id !in old(nodes) && nodes == old(nodes)[id := t]
      ensures var b := BucketOf(hash, t.sID); b in old(buckets) && buckets == old(buckets)[b := old(buckets)[b] + [id]]
    {
      hide *;
      id := nextId;
      NodesGrow(nextId, rmNode, nodes, t);
      TableGrows(hash, nodes, buckets, htNode, id, t);
      var b := BucketOf(hash, t.sID);
      nextId := nextId + 1;
      nodes := nodes[id := t];
      buckets := buckets[b := buckets[b] + [id]];
      htNode := htNode[id := b];
    }

    method AddTimer(sID: string, ms: uint, interval: uint, ghost drained: nat) returns (id: Id)
      requires Valid(drained) && drained <= 4
      modifies this
      ensures Valid(drained) && id == old(nextId) && rmNode == old(rmNode)
      ensures View() == FlatScheduler.AddTimer(old(View()), sID, ms, interval)
      ensures Inside() == FlatScheduler.AddTimer(old(Inside()), sID, ms, interval)
      ensures nodes == old(nodes)[id := Timer(sID, interval, jiffies + Micros(ms))] && jiffies == old(jiffies)
    {
      hide WheelsOk, TableOk, Placed, PlacedAt, NodesOk, SlotFor, Micros, BucketOf;
      WheelsDomain(nodes.Keys, tw, twNode);
      var t := Timer(sID, interval, jiffies + Micros(ms));
      id := PushBack(t);
      AddTimerNode(id);
      assert nodes.Keys == twNode.Keys;
      PlacedGrows(jiffies, drained, old(nodes), old(twNode), id, t, twNode[id]);
      FiledUnderHand(jiffies, t.endtime);
      HandBegins(jiffies, old(nodes), old(tw), old(twNode));
    }

    /** `HashTable::erase`, called with the name of `owner`: every node of that name goes, from its bucket
      and from its slot. The name is read where the source reads it, and is there each time. */
    method Erase(owner: Id)
      requires TableOk(hash, nodes, buckets, htNode) && WheelsOk(nodes.Keys, tw, twNode)
      requires owner in nodes && Readable(hash, nodes, owner)
      modifies `buckets, `htNode, `tw, `twNode, `nodes
      ensures TableOk(hash, nodes, buckets, htNode) && WheelsOk(nodes.Keys, tw, twNode)
      ensures nodes == Others(old(nodes), old(nodes)[owner].sID)
      ensures forall n :: n in nodes ==> n in old(twNode) && n in twNode && twNode[n] == old(twNode)[n]
      ensures Filtered(old(tw), tw, nodes.Keys) && Filtered(old(buckets), buckets, nodes.Keys)
    {
      hide TableOk, WheelsOk, Erased, Filtered, BucketOf, Without, Next, NoDup, InOrder;
      ghost var sID := nodes[owner].sID;
      var nID := hash(nodes[owner].sID);
      var b := BucketOf(hash, nodes[owner].sID);
      BucketFacts(hash, nodes, buckets, htNode, sID);
      ErasedNone(hash, sID, nodes, buckets, htNode, tw, twNode);
      ghost var walked, kept, rest := [], [], buckets[b];
      var p := Begin(buckets[b]);
      while p.Some?
        invariant TableOk(hash, nodes, buckets, htNode) && WheelsOk(nodes.Keys, tw, twNode)
        invariant b in buckets && buckets[b] == kept + rest && walked + rest == old(buckets)[b] && p == Begin(rest)
        invariant Erased(sID, walked, old(nodes), old(twNode), nodes, twNode)
        invariant Filtered(old(tw), tw, nodes.Keys) && Filtered(old(buckets), buckets, nodes.Keys)
        decreases |rest|
      {
        var node := p.value;
        InBucket(hash, nodes, buckets, htNode, b, |kept|);
        WithoutMiddle(kept, rest);
        var q := Next(buckets[b], node);
        ErasedStep(sID, walked, old(nodes), old(twNode), nodes, twNode, node, owner);
        if owner in walked {
          LaterInBucket(walked, rest, owner);
        }
        if nID == hash(nodes[node].sID) && nodes[owner].sID == nodes[node].sID {
          TableOneLess(old(buckets), hash, nodes, buckets, htNode, node);
          WheelsOneLess(old(tw), nodes.Keys, tw, twNode, node);
          InOwnBucket(hash, nodes, buckets, htNode, node);
          Free(node);
        } else {
          ShiftOne(kept, rest);
          kept := kept + [node];
        }
        ShiftOne(walked, rest);
        walked, rest := walked + [node], rest[1..];
        p := q;
      }
      assert walked + [] == walked;
      ErasedAll(hash, sID, old(nodes), old(twNode), old(buckets), old(htNode), nodes, twNode);
    }

    method DelTimer(id: Id, ghost drained: nat)
      requires Valid(drained) && id in nodes && Readable(hash, nodes, id)
      modifies this
      ensures Valid(drained) && rmNode == Some(id)
      ensures View() == FlatScheduler.DelTimer(old(View()), id)
      ensures Inside() == FlatScheduler.DelTimer(old(Inside()), id)
      ensures nodes == map n | n in old(nodes) && old(nodes)[n].sID != old(nodes)[id].sID :: old(nodes)[n]
    {
      hide TableOk, WheelsOk, Placed, NodesOk, Filtered, HandList, Keep, Readable;
      rmNode := Some(id);
      Erase(id);
      FewerPlaced(jiffies, drained, old(nodes), old(twNode), nodes, twNode);
      FewerNodes(nextId, old(rmNode), old(nodes), nodes, id);
      HandFiltered(jiffies, old(tw), tw, nodes.Keys);
    }

    // ---- The clock ----

    /** One call that the callback of `n` makes. */
    method Perform(n: Id, ghost next: Option<Id>, a: Action)
      requires Valid(4) && n < nextId && Safe(hash, Inside(), n, next, a)
      modifies this
      ensures Valid(4) && jiffies == old(jiffies) && n < nextId && Inside() == Act(old(Inside()), a)
      ensures n !in nodes && n in old(nodes) ==> rmNode == Some(n)
      ensures n !in nodes && n !in old(nodes) ==> rmNode == old(rmNode)
    {
      hide TableOk, WheelsOk, Placed, NodesOk, Filtered, HandList, Micros, Keep, Readable;
      match a
      case Add(sID, ms, interval) =>
        var id := AddTimer(sID, ms, interval, 4);
      case Del(id) =>
        DelTimer(id, 4);
    }

    /** Runs the callback of `n`, the first of the walk, `next` having been fetched. Afterwards `rmNode` says
      whether `n` has cancelled itself, and what was fetched is the next to run. */
    method Call(n: Id, ghost next: Option<Id>)
      requires Valid(4) && Inv(Inside()) && Inside().walk.hand != [] && Inside().walk.hand[0] == n
      requires next == Fetched(Inside()) && WellBehaved(hash, script)
      modifies this
      ensures Valid(4) && jiffies == old(jiffies)
      ensures Inside() == Called(script, old(Inside()), n) && Inv(Inside()) && Heads(Inside(), n, next)
      ensures n in nodes ==> n in old(nodes) && nodes[n] == old(nodes)[n] && rmNode != Some(n)
      ensures n !in nodes ==> rmNode == Some(n)
    {
      hide TableOk, WheelsOk, Placed, NodesOk, HandList, Act, Acts, Safe, SafeActs, Inv, Heads;
      IdsBelow(nextId, rmNode, nodes);
      HeadsAtCall(Inside());
      fired := fired + [Firing(n, jiffies)];
      LoggedSound(hash, script, old(Inside()), n);
      var rest := script(n, Inside());
      while rest != []
        invariant Valid(4) && jiffies == old(jiffies) && n < nextId
        invariant Inv(Inside()) && Heads(Inside(), n, next)
        invariant Acts(Inside(), rest) == Called(script, old(Inside()), n) && SafeActs(hash, Inside(), n, next, rest)
        invariant n in nodes ==> n in old(nodes) && nodes[n] == old(nodes)[n]
        invariant n !in nodes ==> rmNode == Some(n)
        decreases |rest|
      {
        SafeActsUnfold(hash, Inside(), n, next, rest);
        ActFrame(hash, Inside(), n, next, rest[0]);
        Perform(n, next, rest[0]);
        rest := rest[1..];
        IdsBelow(nextId, rmNode, nodes);
      }
      IdsBelow(nextId, rmNode, nodes);
      NoActs(Inside());
    }

    /** `node->endtime = ...; delete p; node->twNode = addTimerNode(node);` A period of zero puts the timer
      back into the slot that is walked. */
    method Rearm(n: Id)
      requires Valid(4) && n in nodes && TurnAt(jiffies, false, nodes[n].endtime) == jiffies && nodes[n].interval > 0
      modifies `nodes, `tw, `twNode
      ensures Valid(4)
      ensures nodes == old(nodes)[n := old(nodes)[n].(endtime := jiffies + Micros(old(nodes)[n].interval))]
      ensures HandList(jiffies, tw)
        == Without(HandList(jiffies, old(tw)), n) + if Micros(old(nodes)[n].interval) == 0 then [n] else []
    {
      hide TableOk, WheelsOk, Placed, PlacedAt, NodesOk, Without, Micros, SlotFor, TurnAt;
      var t := nodes[n].(endtime := jiffies + Micros(nodes[n].interval));
      Retimed(hash, nextId, rmNode, nodes, buckets, htNode, n, t);
      LinkOfDue(jiffies, nodes, tw, twNode, n);
      FiledUnderHand(jiffies, t.endtime);
      PlacedMoved(jiffies, nodes, twNode, n, t);
      nodes := nodes[n := t];
      assert nodes.Keys == twNode.Keys;
      UnlinkTw(n);
      AddTimerNode(n);
      assert twNode == old(twNode)[n := SlotFor(jiffies, t.endtime)];
      assert twNode.Keys == nodes.Keys;
    }

    /** A one-shot timer goes once it has run. */
    method Drop(n: Id)
      requires Valid(4) && n in nodes && TurnAt(jiffies, false, nodes[n].endtime) == jiffies
      modifies `nodes, `tw, `twNode, `buckets, `htNode
      ensures Valid(4)
      ensures nodes == old(nodes) - {n}
      ensures HandList(jiffies, tw) == Without(HandList(jiffies, old(tw)), n)
    {
      hide TableOk, WheelsOk, Placed, NodesOk, Without, TurnAt;
      LinkOfDue(jiffies, nodes, tw, twNode, n);
      Free(n);
      FewerPlaced(jiffies, 4, old(nodes), old(twNode), nodes, twNode);
      FewerNodes(nextId, rmNode, old(nodes), nodes, n);
    }

    /** One round of the walk, for its first timer. */
    method RunOne(node: Id, ghost next: Option<Id>)
      requires Valid(4) && Inv(Inside()) && WellBehaved(hash, script)
      requires Inside().walk.hand != [] && Inside().walk.hand[0] == node && next == Fetched(Inside())
      modifies this
      ensures Valid(4) && jiffies == old(jiffies)
      ensures var g := Apply(script, old(Inside()), Fire(node));
        if next.Some? then Inside() == g && Inside().walk.hand != [] && Inside().walk.hand[0] == next.value
        else g == View().(walk := Done)
    {
      hide TableOk, WheelsOk, Placed, NodesOk, HandList, Without, Called, WellBehaved, Micros, Inv, Heads, TurnAt;
      CalledKeeps(hash, script, Inside());
      SettlesSound(hash, script, Inside());
      Call(node, next);
      if Some(node) == rmNode {
        rmNode := None;
        ForgetRm(nextId, Some(node), nodes);
      } else if nodes[node].interval > 0 {
        Rearm(node);
      } else {
        Drop(node);
      }
    }

    /** Walks the slot under the hand: every timer in it has its turn, and runs. */
    method RunHand(ghost before: Flat, ghost trace: seq<Step>, ghost until: nat) returns (ghost longer: seq<Step>)
      requires Valid(4) && WellBehaved(hash, script) && WalksEnd(script) && KeepsApart(script)
      requires jiffies <= until && Apart(View(), until)
      requires Allowed(script, before, trace) && After(script, before, trace) == View()
      modifies this
      ensures Valid(4) && jiffies == old(jiffies)
      ensures Allowed(script, before, longer)
      ensures var f := After(script, before, longer);
        Inv(f) && Enabled(f, Tick) && f == View().(walk := f.walk) && Apart(f, until)
    {
      hide TableOk, WheelsOk, Placed, NodesOk, HandList, Without, Apply, Allowed, After, WellBehaved, KeepsApart,
        WalksEnd, Inv, Apart, EndsWithin;
      HandBegins(jiffies, nodes, tw, twNode);
      ViewSound(jiffies, 4, nextId, rmNode, nodes, tw, twNode, fired);
      var p := Begin(tw[Slot(0, jiffies % 256)]);
      OneMore(script, before, trace, Open(HandList(jiffies, tw)));
      OpenIs(script, View(), HandList(jiffies, tw));
      ApplyKeepsApart(hash, script, View(), Open(HandList(jiffies, tw)), until);
      longer := trace + [Open(HandList(jiffies, tw))];
      ghost var k := WalkLeft(script, Inside(), until);
      while p.Some?
        invariant Valid(4) && jiffies == old(jiffies)
        invariant Allowed(script, before, longer)
        invariant Inv(After(script, before, longer)) && Apart(After(script, before, longer), until)
        invariant p.Some? ==>
          p == Begin(HandList(jiffies, tw)) && After(script, before, longer) == Inside()
            && EndsWithin(script, Inside(), k)
        invariant p == None ==>
          var f := After(script, before, longer); Enabled(f, Tick) && f == View().(walk := f.walk)
        decreases k, p.Some?
      {
        var node := p.value;
        HandBegins(jiffies, nodes, tw, twNode);
        var q := Next(tw[Slot(0, jiffies % 256)], node);
        OneFewer(script, Inside(), k);
        ApplyKeepsInv(hash, script, Inside(), Fire(node));
        ApplyKeepsApart(hash, script, Inside(), Fire(node), until);
        OneMore(script, before, longer, Fire(node));
        longer := longer + [Fire(node)];
        RunOne(node, q);
        k := k - 1;
        p := q;
      }
    }

    /** Drains one slot of wheel `level` if the clock has come to it: each node in it moves to a
      strictly lower wheel. */
    method Cascade(level: nat) returns (idx: nat)
      requires 1 <= level <= 4 && jiffies % Gran(level) == 0 && Valid(level - 1)
      modifies `tw, `twNode
      ensures Valid(level) && idx == Index(level, jiffies)
      ensures Slot(level, idx) in tw && tw[Slot(level, idx)] == []
      ensures Moved(level, Slot(level, idx), nodes, old(twNode), twNode)
      ensures forall n :: n in nodes ==> twNode[n] != Slot(level, idx)
    {
      hide TableOk, WheelsOk, Placed, NodesOk, Moved, Cascading, Gran, Index, Without, SlotFor;
      idx := Index(level, jiffies);
      var slot := Slot(level, idx);
      CascadeStarts(jiffies, level, nodes, tw, twNode);
      var p := Begin(tw[slot]);
      while p.Some?
        invariant WheelsOk(nodes.Keys, tw, twNode) && slot in tw && p == Begin(tw[slot])
        invariant Cascading(jiffies, level, nodes, twNode) && Moved(level, slot, nodes, old(twNode), twNode)
        decreases |tw[slot]|
      {
        var node := p.value;
        CascadeStep(jiffies, level, nodes, tw, old(twNode), twNode, node);
        HeadFacts(tw[slot]);
        var q := Next(tw[slot], node);
        ghost var at := twNode;
        UnlinkTw(node);
        AddTimerNode(node);
        assert twNode == at[node := SlotFor(jiffies, nodes[node].endtime)];
        assert twNode.Keys == nodes.Keys;
        p := q;
      }
      CascadeEnds(jiffies, level, nodes, tw, twNode);
    }

    /** `if (!idx && !cascade(tw2, 0) && !cascade(tw3, 1) && !cascade(tw4, 2) && !cascade(tw5, 3))` */
    method CascadeAll()
      requires Valid(0)
      modifies `tw, `twNode
      ensures Valid(4)
    {
      hide TableOk, WheelsOk, Placed, NodesOk, Moved;
      if jiffies % 256 == 0 {
        var idx2 := Cascade(1);
        if idx2 == 0 {
          ChainGoesOn(jiffies, 1);
          var idx3 := Cascade(2);
          if idx3 == 0 {
            ChainGoesOn(jiffies, 2);
            var idx4 := Cascade(3);
            if idx4 == 0 {
              ChainGoesOn(jiffies, 3);
              var idx5 := Cascade(4);
            } else {
              StopChain(3);
            }
          } else {
            StopChain(2);
          }
        } else {
          StopChain(1);
        }
      } else {
        StopChain(0);
      }
    }

    lemma StopChain(level: nat)
      requires level < 5 && Valid(level) && jiffies % Gran(level) == 0 && Index(level, jiffies) != 0
      ensures Valid(4)
    {
      hide TableOk, WheelsOk, NodesOk, PlacedAt;
      forall n | n in nodes && n in twNode
        ensures NodePlaced(jiffies, 4, nodes[n].endtime, twNode[n])
      {
        ChainMayStop(jiffies, level, TurnAt(jiffies, false, nodes[n].endtime), twNode[n]);
      }
    }

    /** One call of `handle` at clock value `curr` is a run of the flat scheduler up to that time. */
    method Handle(curr: nat) returns (ghost trace: seq<Step>)
      requires Valid(0) && WellBehaved(hash, script) && WalksEnd(script) && KeepsApart(script)
      requires Apart(View(), curr)
      modifies this
      ensures Valid(0)
      ensures jiffies == if old(jiffies) <= curr then curr + 1 else old(jiffies)
      ensures Allowed(script, old(View()), trace) && After(script, old(View()), trace) == View()
      ensures trace == [] || trace[|trace| - 1] == Tick
      ensures old(jiffies) <= curr ==> OnTime(script, old(View()), trace, View())
    {
      hide TableOk, WheelsOk, Placed, NodesOk, HandList, Allowed, After, WellBehaved, KeepsApart, WalksEnd, Apart, Inv,
        OnTime;
      trace := [];
      NoSteps(script, View());
      ViewSound(jiffies, 0, nextId, rmNode, nodes, tw, twNode, fired);
      while jiffies <= curr
        invariant old(jiffies) <= jiffies && (jiffies > old(jiffies) ==> jiffies <= curr + 1)
        invariant Valid(0) && Apart(View(), curr)
        invariant Allowed(script, old(View()), trace) && After(script, old(View()), trace) == View()
        invariant trace == [] || trace[|trace| - 1] == Tick
        invariant trace == [] ==> jiffies == old(jiffies)
        decreases curr + 1 - jiffies
      {
        CascadeAll();
        trace := RunHand(old(View()), trace, curr);
        OneMore(script, old(View()), trace, Tick);
        PassedBy(After(script, old(View()), trace));
        ApplyKeepsApart(hash, script, After(script, old(View()), trace), Tick, curr);
        trace := trace + [Tick];
        NextTick(jiffies, nodes, twNode);
        jiffies := jiffies + 1;
      }
      if trace != [] {
        AllOnTime(hash, script, old(View()), trace);
      }
    }

    /** What the caller of an operation must see to: a timer that is cancelled is there, and its name
      readable; no two periods that have vanished meet by the time of a call of `handle`. */
    predicate Permitted(op: Op)
      reads this
    {
      match op
      case OpAdd(_, _, _) => true
      case OpDel(id) => id in nodes && Readable(hash, nodes, id)
      case OpHandle(curr) => Apart(View(), curr)
    }

    /** Every run of calls, up to the first that is not permitted, is a run of the flat scheduler, and
      keeps the wheels in order. */
    method RunAll(ops: seq<Op>) returns (served: nat, ghost trace: seq<Step>)
      requires Valid(0) && WellBehaved(hash, script) && WalksEnd(script) && KeepsApart(script)
      modifies this
      ensures Valid(0) && served <= |ops| && (served < |ops| ==> !Permitted(ops[served]))
      ensures Allowed(script, old(View()), trace) && After(script, old(View()), trace) == View()
    {
      hide TableOk, WheelsOk, Placed, NodesOk, HandList, Allowed, After, WellBehaved, KeepsApart, WalksEnd, Apart,
        OnTime;
      served, trace := 0, [];
      NoSteps(script, View());
      while served < |ops| && Permitted(ops[served])
        invariant Valid(0) && served <= |ops|
        invariant Allowed(script, old(View()), trace) && After(script, old(View()), trace) == View()
      {
        match ops[served] {
          case OpAdd(sID, ms, interval) =>
            OneMore(script, old(View()), trace, CallAdd(sID, ms, interval));
            var id := AddTimer(sID, ms, interval, 0);
            trace := trace + [CallAdd(sID, ms, interval)];
          case OpDel(id) =>
            OneMore(script, old(View()), trace, CallDel(id));
            DelTimer(id, 0);
            trace := trace + [CallDel(id)];
          case OpHandle(curr) =>
            ghost var more := Handle(curr);
            Compose(script, old(View()), trace, more);
            trace := trace + more;
        }
        served := served + 1;
      }
    }
  }
}

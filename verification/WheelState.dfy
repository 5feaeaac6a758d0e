/** What holds of the buckets and slots of the timing wheel, and what each change does to it. */
module WheelState {
  import opened Links
  import opened Options
  import opened Microseconds
  import opened WheelGeometry
  import opened FlatScheduler
  import opened WalkEnding
  import opened Schedules

  const BUCKET_SIZE := 256

  datatype Bucket = Bucket(idx: nat)

  function BucketOf(hash: Hash, sID: string): Bucket { Bucket(hash(sID) % BUCKET_SIZE) }

  ghost predicate InOrder(s: seq<Id>) { forall i, j :: 0 <= i < j < |s| ==> s[i] < s[j] }

  lemma JoinInOrder(s: seq<Id>, t: seq<Id>)
    requires InOrder(s) && InOrder(t) && forall x, y :: x in s && y in t ==> x < y
    ensures InOrder(s + t)
  {
    forall i, j | 0 <= i < j < |s + t| ensures (s + t)[i] < (s + t)[j] {
      if i < |s| <= j {
        assert s[i] in s && t[j - |s|] in t;
      }
    }
  }

  lemma {:induction false} WithoutInOrder(s: seq<Id>, n: Id)
    requires InOrder(s)
    ensures InOrder(Without(s, n))
  {
    if s != [] {
      WithoutInOrder(s[1..], n);
      WithoutElems(s[1..], n);
      JoinInOrder([s[0]], Without(s[1..], n));
    }
  }

  ghost predicate AllInOrder(buckets: map<Bucket, seq<Id>>) { forall b :: b in buckets ==> InOrder(buckets[b]) }

  lemma GrowsInOrder(buckets: map<Bucket, seq<Id>>, b: Bucket, n: Id)
    requires AllInOrder(buckets) && b in buckets && forall y :: y in buckets[b] ==> y < n
    ensures AllInOrder(buckets[b := buckets[b] + [n]])
  {
    JoinInOrder(buckets[b], [n]);
  }

  lemma ShrinksInOrder(buckets: map<Bucket, seq<Id>>, b: Bucket, n: Id)
    requires AllInOrder(buckets) && b in buckets
    ensures AllInOrder(buckets[b := Without(buckets[b], n)])
  {
    WithoutInOrder(buckets[b], n);
  }

  /** The nodes in the buckets are the live timers, each once, in the bucket of its name, the older
    before the newer. */
  ghost predicate TableOk(hash: Hash, nodes: map<Id, Timer>, buckets: map<Bucket, seq<Id>>, htNode: map<Id, Bucket>) {
    && Linked(nodes.Keys, buckets, htNode)
    && (forall b :: b in buckets <==> b.idx < BUCKET_SIZE)
    && (forall n :: n in nodes ==> htNode[n] == BucketOf(hash, nodes[n].sID))
    && AllInOrder(buckets)
  }

  /** The nodes in the slots are `ids`, each once. */
  ghost predicate WheelsOk(ids: set<Id>, tw: map<Slot, seq<Id>>, twNode: map<Id, Slot>) {
    && Linked(ids, tw, twNode)
    && (forall s :: s in tw <==> ValidSlot(s))
  }

  /** Each live timer rests where its deadline belongs, wheels 1 to `drained` having been drained. */
  ghost predicate Placed(jiffies: nat, drained: nat, nodes: map<Id, Timer>, twNode: map<Id, Slot>) {
    forall n :: n in nodes && n in twNode ==> NodePlaced(jiffies, drained, nodes[n].endtime, twNode[n])
  }

  /** A timer that a walk has passed by stays in the lowest wheel, where the hand comes round to it. */
  ghost predicate NodePlaced(jiffies: nat, drained: nat, endtime: nat, s: Slot) {
    PlacedAt(jiffies, drained, TurnAt(jiffies, false, endtime), s) && (endtime < jiffies ==> s.level == 0)
  }

  ghost predicate NodesOk(nextId: Id, rmNode: Option<Id>, nodes: map<Id, Timer>) {
    && (forall n :: n in nodes ==> n < nextId)
    && (rmNode.Some? ==> rmNode.value !in nodes && rmNode.value < nextId)
  }

  lemma TableGrows(hash: Hash, nodes: map<Id, Timer>, buckets: map<Bucket, seq<Id>>, htNode: map<Id, Bucket>, n: Id,
    t: Timer)
    requires TableOk(hash, nodes, buckets, htNode) && forall m :: m in nodes ==> m < n
    ensures var b := BucketOf(hash, t.sID);
      b in buckets && TableOk(hash, nodes[n := t], buckets[b := buckets[b] + [n]], htNode[n := b])
  {
    hide BucketOf, NoDup, AllInOrder;
    var b := BucketOf(hash, t.sID);
    BucketFacts(hash, nodes, buckets, htNode, t.sID);
    LinkKeepsFamily(nodes.Keys, buckets, htNode, b, n);
    GrowsInOrder(buckets, b, n);
    assert nodes[n := t].Keys == nodes.Keys + {n};
  }

  lemma TableShrinks(hash: Hash, nodes: map<Id, Timer>, buckets: map<Bucket, seq<Id>>, htNode: map<Id, Bucket>, n: Id)
    requires TableOk(hash, nodes, buckets, htNode) && n in nodes
    ensures n in htNode && htNode[n] in buckets
    ensures TableOk(hash, nodes - {n}, buckets[htNode[n] := Without(buckets[htNode[n]], n)], htNode - {n})
  {
    hide BucketOf, NoDup, Without, AllInOrder;
    UnlinkKeepsFamily(nodes.Keys, buckets, htNode, n);
    ShrinksInOrder(buckets, htNode[n], n);
    assert (nodes - {n}).Keys == nodes.Keys - {n};
  }

  lemma WheelsGrow(ids: set<Id>, tw: map<Slot, seq<Id>>, twNode: map<Id, Slot>, n: Id, s: Slot)
    requires WheelsOk(ids, tw, twNode) && ValidSlot(s) && n !in ids
    ensures WheelsOk(ids + {n}, tw[s := tw[s] + [n]], twNode[n := s])
  {
    LinkKeepsFamily(ids, tw, twNode, s, n);
  }

  lemma WheelsShrink(ids: set<Id>, tw: map<Slot, seq<Id>>, twNode: map<Id, Slot>, n: Id)
    requires WheelsOk(ids, tw, twNode) && n in ids
    ensures n in twNode && twNode[n] in tw
    ensures WheelsOk(ids - {n}, tw[twNode[n] := Without(tw[twNode[n]], n)], twNode - {n})
  {
    UnlinkKeepsFamily(ids, tw, twNode, n);
  }

  lemma WheelsDomain(ids: set<Id>, tw: map<Slot, seq<Id>>, twNode: map<Id, Slot>)
    requires WheelsOk(ids, tw, twNode)
    ensures twNode.Keys == ids && forall s :: s in tw <==> ValidSlot(s)
  {
  }

  lemma PlacedGrows(jiffies: nat, drained: nat, nodes: map<Id, Timer>, twNode: map<Id, Slot>, n: Id, t: Timer, s: Slot)
    requires Placed(jiffies, drained, nodes, twNode) && drained <= 4
    requires jiffies <= t.endtime && PlacedAt(jiffies, 4, t.endtime, s)
    ensures Placed(jiffies, drained, nodes[n := t], twNode[n := s])
  {
    hide PlacedAt;
    PlacedWeakens(jiffies, drained, t.endtime, s);
  }

  /** A node is filed under the hand just when it is due now. */
  lemma FiledUnderHand(jiffies: nat, endtime: nat)
    requires jiffies <= endtime < jiffies + UINT_RANGE
    ensures SlotFor(jiffies, endtime) == Slot(0, jiffies % 256) <==> endtime == jiffies
  {
  }

  lemma NodesGrow(nextId: Id, rmNode: Option<Id>, nodes: map<Id, Timer>, t: Timer)
    requires NodesOk(nextId, rmNode, nodes)
    ensures nextId !in nodes && (forall m :: m in nodes ==> m < nextId)
      && NodesOk(nextId + 1, rmNode, nodes[nextId := t])
  {
  }

  // ---- Erasing a name ----

  lemma BucketFacts(hash: Hash, nodes: map<Id, Timer>, buckets: map<Bucket, seq<Id>>, htNode: map<Id, Bucket>,
    sID: string)
    requires TableOk(hash, nodes, buckets, htNode)
    ensures var b := BucketOf(hash, sID);
      && b in buckets && NoDup(buckets[b]) && InOrder(buckets[b])
      && (forall n :: n in buckets[b] ==> n in nodes && n in htNode && htNode[n] == b)
      && (forall n :: n in nodes && hash(nodes[n].sID) == hash(sID) ==> n in buckets[b])
  {
  }

  lemma InBucket(hash: Hash, nodes: map<Id, Timer>, buckets: map<Bucket, seq<Id>>, htNode: map<Id, Bucket>, b: Bucket,
    i: nat)
    requires TableOk(hash, nodes, buckets, htNode) && b in buckets && i < |buckets[b]|
    ensures NoDup(buckets[b]) && buckets[b][i] in nodes
  {
    assert buckets[b][i] in buckets[b];
  }

  lemma InOwnBucket(hash: Hash, nodes: map<Id, Timer>, buckets: map<Bucket, seq<Id>>, htNode: map<Id, Bucket>, n: Id)
    requires TableOk(hash, nodes, buckets, htNode) && n in nodes
    ensures n in htNode && htNode[n] == BucketOf(hash, nodes[n].sID)
  {
  }

  /** `lists` is `before`, less the nodes that are gone. */
  ghost predicate Filtered<K>(before: map<K, seq<Id>>, lists: map<K, seq<Id>>, ids: set<Id>) {
    lists.Keys == before.Keys && forall k :: k in lists ==> lists[k] == Keep(before[k], ids)
  }

  lemma FilteredNone<K(!new)>(ids: set<Id>, lists: map<K, seq<Id>>, at: map<Id, K>)
    requires Linked(ids, lists, at)
    ensures Filtered(lists, lists, ids)
  {
    forall k | k in lists { KeepAll(lists[k], ids); }
  }

  lemma FilteredOneLess<K(!new)>(before: map<K, seq<Id>>, ids: set<Id>, lists: map<K, seq<Id>>, at: map<Id, K>, n: Id)
    requires Linked(ids, lists, at) && n in ids && Filtered(before, lists, ids)
    ensures Filtered(before, lists[at[n] := Without(lists[at[n]], n)], ids - {n})
  {
    UnlinkFilters(before, ids, lists, at, n);
    hide Linked, Without, Keep, NoDup;
  }

  lemma TableOneLess(before: map<Bucket, seq<Id>>, hash: Hash, nodes: map<Id, Timer>, buckets: map<Bucket, seq<Id>>,
    htNode: map<Id, Bucket>, n: Id)
    requires TableOk(hash, nodes, buckets, htNode) && n in nodes && Filtered(before, buckets, nodes.Keys)
    ensures n in htNode && htNode[n] in buckets
    ensures Filtered(before, buckets[htNode[n] := Without(buckets[htNode[n]], n)], nodes.Keys - {n})
  {
    FilteredOneLess(before, nodes.Keys, buckets, htNode, n);
  }

  lemma WheelsOneLess(before: map<Slot, seq<Id>>, ids: set<Id>, tw: map<Slot, seq<Id>>, twNode: map<Id, Slot>, n: Id)
    requires WheelsOk(ids, tw, twNode) && n in ids && Filtered(before, tw, ids)
    ensures n in twNode && twNode[n] in tw
    ensures Filtered(before, tw[twNode[n] := Without(tw[twNode[n]], n)], ids - {n})
  {
    FilteredOneLess(before, ids, tw, twNode, n);
  }

  /** Of the nodes walked so far, those named `sID` are gone; all other nodes are as they were. */
  ghost predicate Erased(sID: string, walked: seq<Id>, nodes0: map<Id, Timer>, twNode0: map<Id, Slot>,
    nodes: map<Id, Timer>, twNode: map<Id, Slot>)
  {
    && (forall n :: n in nodes ==> n in nodes0 && nodes[n] == nodes0[n])
    && (forall n :: n in nodes0 ==> (n in nodes <==> nodes0[n].sID != sID || n !in walked))
    && (forall n :: n in nodes ==> n in twNode && n in twNode0 && twNode[n] == twNode0[n])
  }

  lemma ErasedNone(hash: Hash, sID: string, nodes: map<Id, Timer>, buckets: map<Bucket, seq<Id>>, htNode: map<Id,
    Bucket>, tw: map<Slot, seq<Id>>, twNode: map<Id, Slot>)
    requires TableOk(hash, nodes, buckets, htNode) && WheelsOk(nodes.Keys, tw, twNode)
    ensures Erased(sID, [], nodes, twNode, nodes, twNode)
    ensures Filtered(tw, tw, nodes.Keys) && Filtered(buckets, buckets, nodes.Keys)
  {
    FilteredNone(nodes.Keys, tw, twNode);
    FilteredNone(nodes.Keys, buckets, htNode);
  }

  lemma ErasedStep(sID: string, walked: seq<Id>, nodes0: map<Id, Timer>, twNode0: map<Id, Slot>,
    nodes: map<Id, Timer>, twNode: map<Id, Slot>, n: Id, owner: Id)
    requires Erased(sID, walked, nodes0, twNode0, nodes, twNode) && n in nodes
    ensures nodes[n].sID == sID ==> Erased(sID, walked + [n], nodes0, twNode0, nodes - {n}, twNode - {n})
    ensures nodes[n].sID != sID ==> Erased(sID, walked + [n], nodes0, twNode0, nodes, twNode)
    ensures n in nodes0 && nodes[n] == nodes0[n]
    ensures owner in nodes0 && owner !in walked ==> owner in nodes && nodes[owner] == nodes0[owner]
  {
  }

  lemma ErasedAll(hash: Hash, sID: string, nodes0: map<Id, Timer>, twNode0: map<Id, Slot>,
    buckets0: map<Bucket, seq<Id>>, htNode0: map<Id, Bucket>, nodes: map<Id, Timer>, twNode: map<Id, Slot>)
    requires TableOk(hash, nodes0, buckets0, htNode0) && BucketOf(hash, sID) in buckets0
    requires Erased(sID, buckets0[BucketOf(hash, sID)], nodes0, twNode0, nodes, twNode)
    ensures nodes == Others(nodes0, sID)
    ensures forall n :: n in nodes ==> n in twNode && n in twNode0 && twNode[n] == twNode0[n]
  {
    hide TableOk, BucketOf;
    BucketFacts(hash, nodes0, buckets0, htNode0, sID);
  }

  // ---- The name that is compared ----

  /** `erase` walks a bucket with a reference to the name of `owner`, and deletes `owner` itself on the
    way. It reads the name at every node of the same hash; is `owner` still there each time? */
  predicate ReadsLive(hash: Hash, nodes: map<Id, Timer>, list: seq<Id>, owner: Id, alive: bool)
    requires owner in nodes && forall n :: n in list ==> n in nodes
  {
    if list == [] then true
    else if hash(nodes[list[0]].sID) != hash(nodes[owner].sID) then ReadsLive(hash, nodes, list[1..], owner, alive)
    else alive && ReadsLive(hash, nodes, list[1..], owner, list[0] != owner)
  }

  lemma {:induction false} ReadsAfterDeath(hash: Hash, nodes: map<Id, Timer>, list: seq<Id>, owner: Id)
    requires owner in nodes && forall n :: n in list ==> n in nodes
    ensures ReadsLive(hash, nodes, list, owner, false) <==>
      forall n :: n in list ==> hash(nodes[n].sID) != hash(nodes[owner].sID)
  {
    if list != [] {
      ReadsAfterDeath(hash, nodes, list[1..], owner);
      assert list == [list[0]] + list[1..];
    }
  }

  lemma {:induction false} ReadsInList(hash: Hash, nodes: map<Id, Timer>, list: seq<Id>, owner: Id)
    requires owner in nodes && (forall n :: n in list ==> n in nodes) && InOrder(list) && owner in list
    ensures ReadsLive(hash, nodes, list, owner, true)
      <==> forall n :: n in list && n > owner ==> hash(nodes[n].sID) != hash(nodes[owner].sID)
  {
    assert list == [list[0]] + list[1..];
    forall n | n in list[1..] ensures list[0] < n {}
    if list[0] == owner {
      ReadsAfterDeath(hash, nodes, list[1..], owner);
    } else {
      ReadsInList(hash, nodes, list[1..], owner);
    }
  }

  /** The name of a timer can be read all through `erase` just when no later timer has the same hash. */
  lemma NameStaysReadable(hash: Hash, nodes: map<Id, Timer>, buckets: map<Bucket, seq<Id>>, htNode: map<Id, Bucket>,
    owner: Id)
    requires TableOk(hash, nodes, buckets, htNode) && owner in nodes
    ensures var b := BucketOf(hash, nodes[owner].sID);
      && b in buckets && (forall n :: n in buckets[b] ==> n in nodes)
      && (ReadsLive(hash, nodes, buckets[b], owner, true) <==> Readable(hash, nodes, owner))
  {
    hide Linked;
    var b := BucketOf(hash, nodes[owner].sID);
    BucketFacts(hash, nodes, buckets, htNode, nodes[owner].sID);
    ReadsInList(hash, nodes, buckets[b], owner);
  }

  /** Of two timers of one name, the second can be cancelled, but not the first. */
  lemma FirstOfTwoNames(hash: Hash, f: Flat, sID: string, ms: uint)
    requires Inv(f)
    ensures var g := FlatScheduler.AddTimer(FlatScheduler.AddTimer(f, sID, ms, 0), sID, ms, 0);
      && f.nextId in g.live && !Readable(hash, g.live, f.nextId)
      && f.nextId + 1 in g.live && Readable(hash, g.live, f.nextId + 1)
  {
    var g := FlatScheduler.AddTimer(FlatScheduler.AddTimer(f, sID, ms, 0), sID, ms, 0);
    assert hash(g.live[f.nextId + 1].sID) == hash(g.live[f.nextId].sID);
  }

  /** A node that comes after the owner of the name in their bucket. */
  lemma LaterInBucket(walked: seq<Id>, rest: seq<Id>, owner: Id)
    requires InOrder(walked + rest) && rest != [] && owner in walked
    ensures owner < rest[0]
  {
    var i :| 0 <= i < |walked| && walked[i] == owner;
    assert (walked + rest)[i] == owner && (walked + rest)[|walked|] == rest[0];
  }

  // ---- Under the hand ----

  /** The list under the hand of the lowest wheel. */
  function HandList(jiffies: nat, tw: map<Slot, seq<Id>>): seq<Id> {
    var hand := Slot(0, jiffies % 256);
    if hand in tw then tw[hand] else []
  }

  /** All wheels drained, the slot under the hand holds exactly the timers that are due. */
  lemma HandIsDue(jiffies: nat, nodes: map<Id, Timer>, tw: map<Slot, seq<Id>>, twNode: map<Id, Slot>)
    requires WheelsOk(nodes.Keys, tw, twNode) && Placed(jiffies, 4, nodes, twNode)
    ensures NoDup(HandList(jiffies, tw))
    ensures forall n :: n in HandList(jiffies, tw) <==>
      n in nodes && TurnAt(jiffies, false, nodes[n].endtime) == jiffies
  {
    var hand := Slot(0, jiffies % 256);
    assert ValidSlot(hand);
    forall n | n in nodes
      ensures twNode[n] == hand <==> TurnAt(jiffies, false, nodes[n].endtime) == jiffies
    {
      DueIffUnderHand(jiffies, TurnAt(jiffies, false, nodes[n].endtime), twNode[n]);
    }
    hide PlacedAt;
  }

  lemma DueIffUnderHand(jiffies: nat, turn: nat, s: Slot)
    requires PlacedAt(jiffies, 4, turn, s)
    ensures s == Slot(0, jiffies % 256) <==> turn == jiffies
  {
    if s.level == 0 {
      UnderHandIffDue(jiffies, 4, turn, s);
    } else {
      assert DrainTime(s.level, turn) <= turn;
    }
  }

  /** Cancelling by name filters the slot under the hand. */
  lemma HandFiltered(jiffies: nat, tw0: map<Slot, seq<Id>>, tw: map<Slot, seq<Id>>, ids: set<Id>)
    requires Filtered(tw0, tw, ids)
    ensures HandList(jiffies, tw) == Keep(HandList(jiffies, tw0), ids)
  {
  }

  lemma FewerPlaced(jiffies: nat, drained: nat, nodes0: map<Id, Timer>, twNode0: map<Id, Slot>, nodes: map<Id, Timer>,
    twNode: map<Id, Slot>)
    requires Placed(jiffies, drained, nodes0, twNode0)
    requires forall n :: n in nodes ==>
      n in nodes0 && nodes[n] == nodes0[n] && n in twNode && n in twNode0 && twNode[n] == twNode0[n]
    ensures Placed(jiffies, drained, nodes, twNode)
  {
    hide NodePlaced;
  }

  lemma FewerNodes(nextId: Id, rmNode: Option<Id>, nodes0: map<Id, Timer>, nodes: map<Id, Timer>, n: Id)
    requires NodesOk(nextId, rmNode, nodes0) && n in nodes0 && n !in nodes
    requires forall n :: n in nodes ==> n in nodes0 && nodes[n] == nodes0[n]
    ensures NodesOk(nextId, rmNode, nodes) && NodesOk(nextId, Some(n), nodes)
  {
  }

  lemma IdsBelow(nextId: Id, rmNode: Option<Id>, nodes: map<Id, Timer>)
    requires NodesOk(nextId, rmNode, nodes)
    ensures forall n :: n in nodes ==> n < nextId && rmNode != Some(n)
  {
  }

  lemma ForgetRm(nextId: Id, rmNode: Option<Id>, nodes: map<Id, Timer>)
    requires NodesOk(nextId, rmNode, nodes)
    ensures NodesOk(nextId, None, nodes)
  {
  }

  // ---- Moving a node to another slot ----

  /** Changing only the deadline of a node leaves the table alone. */
  lemma Retimed(hash: Hash, nextId: Id, rmNode: Option<Id>, nodes: map<Id, Timer>, buckets: map<Bucket, seq<Id>>,
    htNode: map<Id, Bucket>, n: Id, t: Timer)
    requires TableOk(hash, nodes, buckets, htNode) && NodesOk(nextId, rmNode, nodes)
    requires n in nodes && t.sID == nodes[n].sID && t.interval == nodes[n].interval
    ensures TableOk(hash, nodes[n := t], buckets, htNode) && NodesOk(nextId, rmNode, nodes[n := t])
  {
    hide Linked, BucketOf;
    assert nodes[n := t].Keys == nodes.Keys;
  }

  /** All wheels drained, a timer that is due is linked into the slot under the hand. */
  lemma LinkOfDue(jiffies: nat, nodes: map<Id, Timer>, tw: map<Slot, seq<Id>>, twNode: map<Id, Slot>, n: Id)
    requires WheelsOk(nodes.Keys, tw, twNode) && Placed(jiffies, 4, nodes, twNode)
    requires n in nodes && TurnAt(jiffies, false, nodes[n].endtime) == jiffies
    ensures twNode.Keys == nodes.Keys && twNode[n] == Slot(0, jiffies % 256) && twNode[n] in tw
  {
    DueIffUnderHand(jiffies, TurnAt(jiffies, false, nodes[n].endtime), twNode[n]);
  }

  lemma HandBegins(jiffies: nat, nodes: map<Id, Timer>, tw: map<Slot, seq<Id>>, twNode: map<Id, Slot>)
    requires WheelsOk(nodes.Keys, tw, twNode)
    ensures Slot(0, jiffies % 256) in tw && tw[Slot(0, jiffies % 256)] == HandList(jiffies, tw)
  {
    assert ValidSlot(Slot(0, jiffies % 256));
  }

  lemma PlacedMoved(jiffies: nat, nodes: map<Id, Timer>, twNode: map<Id, Slot>, n: Id, t: Timer)
    requires Placed(jiffies, 4, nodes, twNode) && jiffies <= t.endtime < jiffies + UINT_RANGE
    ensures Placed(jiffies, 4, nodes[n := t], twNode[n := SlotFor(jiffies, t.endtime)])
  {
    hide PlacedAt, SlotFor;
    SlotForPlaces(jiffies, t.endtime);
  }

  /** The clock steps when nothing is left to run but what the walk has just passed by. */
  lemma NextTick(jiffies: nat, nodes: map<Id, Timer>, twNode: map<Id, Slot>)
    requires Placed(jiffies, 4, nodes, twNode)
    requires forall n :: n in nodes && TurnAt(jiffies, false, nodes[n].endtime) == jiffies ==>
      nodes[n].endtime == jiffies
    ensures Placed(jiffies + 1, 0, nodes, twNode)
  {
    forall n | n in nodes && n in twNode
      ensures NodePlaced(jiffies + 1, 0, nodes[n].endtime, twNode[n])
    {
      if nodes[n].endtime == jiffies {
        PassedByStays(jiffies, twNode[n]);
      } else {
        PlacementSurvivesTick(jiffies, TurnAt(jiffies, false, nodes[n].endtime), twNode[n]);
      }
    }
    hide NodePlaced;
  }

  lemma PassedByStays(jiffies: nat, s: Slot)
    requires PlacedAt(jiffies, 4, jiffies, s)
    ensures PlacedAt(jiffies + 1, 0, jiffies + TVR_SIZE, s) && s.level == 0
  {
    assert DrainTime(s.level, jiffies) <= jiffies;
  }

  // ---- Cascading ----

  /** While the slot of wheel `level` under the hand is drained at time `jiffies`: what still is in
    it is due to leave, what is not has been drained from the wheels up to `level`. */
  ghost predicate Cascading(jiffies: nat, level: nat, nodes: map<Id, Timer>, twNode: map<Id, Slot>)
    requires 1 <= level <= 4
  {
    var slot := Slot(level, Index(level, jiffies));
    forall n :: n in nodes && n in twNode ==>
      (if twNode[n] == slot then jiffies <= nodes[n].endtime && DrainTime(level, nodes[n].endtime) == jiffies
       else NodePlaced(jiffies, level, nodes[n].endtime, twNode[n]))
  }

  /** What has left `slot` has gone to a strictly lower wheel; nothing else has moved. */
  ghost predicate Moved(level: nat, slot: Slot, nodes: map<Id, Timer>, twNode0: map<Id, Slot>, twNode: map<Id, Slot>) {
    forall n :: n in nodes ==>
      (&& n in twNode0 && n in twNode
       && (twNode[n] == twNode0[n] || (twNode0[n] == slot && twNode[n].level < level)))
  }

  lemma CascadeStarts(jiffies: nat, level: nat, nodes: map<Id, Timer>, tw: map<Slot, seq<Id>>, twNode: map<Id, Slot>)
    requires 1 <= level <= 4 && jiffies % Gran(level) == 0
    requires WheelsOk(nodes.Keys, tw, twNode) && Placed(jiffies, level - 1, nodes, twNode)
    ensures Cascading(jiffies, level, nodes, twNode)
    ensures Slot(level, Index(level, jiffies)) in tw
    ensures Moved(level, Slot(level, Index(level, jiffies)), nodes, twNode, twNode)
  {
    var slot := Slot(level, Index(level, jiffies));
    assert ValidSlot(slot);
    forall n | n in nodes && n in twNode
      ensures if twNode[n] == slot then jiffies <= nodes[n].endtime && DrainTime(level, nodes[n].endtime) == jiffies
        else NodePlaced(jiffies, level, nodes[n].endtime, twNode[n])
    {
      DrainOrStay(jiffies, level, nodes[n].endtime, twNode[n]);
    }
  }

  lemma DrainOrStay(jiffies: nat, level: nat, endtime: nat, s: Slot)
    requires 1 <= level <= 4 && jiffies % Gran(level) == 0 && NodePlaced(jiffies, level - 1, endtime, s)
    ensures if s == Slot(level, Index(level, jiffies)) then jiffies <= endtime && DrainTime(level, endtime) == jiffies
      else NodePlaced(jiffies, level, endtime, s)
  {
    if s.level == level {
      UnderHandIffDue(jiffies, level - 1, endtime, s);
    }
  }

  lemma CascadeStep(jiffies: nat, level: nat, nodes: map<Id, Timer>, tw: map<Slot, seq<Id>>, twNode0: map<Id, Slot>,
    twNode: map<Id, Slot>, n: Id)
    requires 1 <= level <= 4 && WheelsOk(nodes.Keys, tw, twNode) && Cascading(jiffies, level, nodes, twNode)
    requires var slot := Slot(level, Index(level, jiffies));
      slot in tw && n in tw[slot] && Moved(level, slot, nodes, twNode0, twNode)
    ensures twNode.Keys == nodes.Keys && n in nodes && twNode[n] == Slot(level, Index(level, jiffies))
    ensures NoDup(tw[Slot(level, Index(level, jiffies))])
    ensures jiffies <= nodes[n].endtime < jiffies + UINT_RANGE
    ensures var s := SlotFor(jiffies, nodes[n].endtime);
      && s != Slot(level, Index(level, jiffies))
      && Cascading(jiffies, level, nodes, twNode[n := s])
      && Moved(level, Slot(level, Index(level, jiffies)), nodes, twNode0, twNode[n := s])
  {
    DueFitsLower(jiffies, nodes[n].endtime, level);
    SlotForPlaces(jiffies, nodes[n].endtime);
    PlacedWeakens(jiffies, level, nodes[n].endtime, SlotFor(jiffies, nodes[n].endtime));
    hide PlacedAt, SlotFor, DrainTime, Index, Gran;
  }

  lemma CascadeEnds(jiffies: nat, level: nat, nodes: map<Id, Timer>, tw: map<Slot, seq<Id>>, twNode: map<Id, Slot>)
    requires 1 <= level <= 4 && WheelsOk(nodes.Keys, tw, twNode) && Cascading(jiffies, level, nodes, twNode)
    requires var slot := Slot(level, Index(level, jiffies)); slot in tw && tw[slot] == []
    ensures Placed(jiffies, level, nodes, twNode)
    ensures forall n :: n in nodes ==> n in twNode && twNode[n] != Slot(level, Index(level, jiffies))
  {
    hide NodePlaced, DrainTime, Index;
  }

  // ---- Whole runs ----

  /** Calls from outside; only a timer that is still there can be cancelled. */
  datatype Op = OpAdd(sID: string, ms: uint, interval: uint) | OpDel(id: Id) | OpHandle(curr: nat)

  /** Every timer that nobody cancelled on the way has run exactly when it was due. */
  ghost predicate OnTime(script: Script, f: Flat, trace: seq<Step>, g: Flat) {
    forall n :: n in f.live && ValidInterval(f.live[n].interval) && !Cancelled(script, f, trace, n) ==>
      TimesOf(g.fired, n) == TimesOf(f.fired, n) + Schedule(Turn(f, n), Micros(f.live[n].interval), g.now)
  }

  lemma AllOnTime(hash: Hash, script: Script, f: Flat, trace: seq<Step>)
    requires WellBehaved(hash, script) && Inv(f) && Allowed(script, f, trace)
    requires trace != [] && trace[|trace| - 1] == Tick
    ensures OnTime(script, f, trace, After(script, f, trace))
  {
    hide WellBehaved, Inv, Allowed, After, Cancelled, Schedule, TimesOf, Turn, Micros;
    var init := trace[..|trace| - 1];
    assert trace == init + [Tick];
    forall n | n in f.live && ValidInterval(f.live[n].interval) && !Cancelled(script, f, trace, n)
      ensures TimesOf(After(script, f, trace).fired, n) == TimesOf(f.fired, n)
        + Schedule(Turn(f, n), Micros(f.live[n].interval), After(script, f, trace).now)
    {
      Exactness(hash, script, f, init, n);
    }
  }

  /** Well-placed nodes are a state of the flat scheduler, inside a walk or not. */
  lemma ViewSound(jiffies: nat, drained: nat, nextId: Id, rmNode: Option<Id>, nodes: map<Id, Timer>,
    tw: map<Slot, seq<Id>>, twNode: map<Id, Slot>, fired: seq<Firing>)
    requires WheelsOk(nodes.Keys, tw, twNode) && Placed(jiffies, drained, nodes, twNode)
      && NodesOk(nextId, rmNode, nodes)
    ensures Inv(Flat(jiffies, nodes, nextId, fired, NotBegun))
    ensures drained == 4 ==> Inv(Flat(jiffies, nodes, nextId, fired, At(HandList(jiffies, tw))))
    ensures drained == 4 ==> Enabled(Flat(jiffies, nodes, nextId, fired, NotBegun), Open(HandList(jiffies, tw)))
  {
    forall n | n in nodes
      ensures jiffies <= TurnAt(jiffies, false, nodes[n].endtime)
    {
      var turn := TurnAt(jiffies, false, nodes[n].endtime);
      assert DrainTime(twNode[n].level, turn) <= turn;
    }
    if drained == 4 {
      HandIsDue(jiffies, nodes, tw, twNode);
    }
  }

  lemma NoActs(f: Flat)
    ensures Acts(f, []) == f
  {
  }

  lemma LoggedSound(hash: Hash, script: Script, f: Flat, n: Id)
    requires WellBehaved(hash, script) && Inv(f) && f.walk.At? && f.walk.hand != [] && f.walk.hand[0] == n
    ensures var l := Logged(f, n);
      && Inv(l) && Heads(l, n, Fetched(f)) && n in f.live && n < f.nextId
      && SafeActs(hash, l, n, Fetched(f), script(n, l)) && Acts(l, script(n, l)) == Called(script, f, n)
  {
    HeadsAtCall(f);
    assert Fetched(Logged(f, n)) == Fetched(f);
  }

  /** The state after a callback, settled: still a sound state, and what was fetched comes first. */
  lemma SettlesSound(hash: Hash, script: Script, f: Flat)
    requires WellBehaved(hash, script) && Inv(f) && f.walk.At? && f.walk.hand != []
    ensures var n := f.walk.hand[0];
      var c := Called(script, f, n);
      && c.walk.At? && c.now == f.now
      && (n in c.live ==> TurnAt(f.now, false, c.live[n].endtime) == f.now)
      && (n !in c.live ==> Settle(c, n) == c)
      && (Fetched(f).Some? ==>
            Settle(c, n).walk.At? && Settle(c, n).walk.hand != [] && Settle(c, n).walk.hand[0] == Fetched(f).value)
  {
    CalledKeeps(hash, script, f);
    hide WellBehaved, Called;
    if Fetched(f).Some? {
      FetchedIsNext(Called(script, f, f.walk.hand[0]), f.walk.hand[0], Fetched(f));
    }
  }

  lemma OpenIs(script: Script, f: Flat, hand: seq<Id>)
    ensures Apply(script, f, Open(hand)) == f.(walk := At(hand))
  {
  }

  lemma WalkLeft(script: Script, f: Flat, until: nat) returns (k: nat)
    requires WalksEnd(script) && Inv(f) && f.walk.At? && Apart(f, until) && f.now <= until
    ensures EndsWithin(script, f, k)
  {
    ApartIsLone(f, until);
    assert Ends(script, f);
    k :| EndsWithin(script, f, k);
  }

  /** When the clock steps, what still has its endtime now was passed by. */
  lemma PassedBy(f: Flat)
    requires Inv(f) && Enabled(f, Tick)
    ensures forall n :: n in f.live && TurnAt(f.now, false, f.live[n].endtime) == f.now ==> f.live[n].endtime == f.now
  {
  }
}

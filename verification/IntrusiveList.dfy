/** The doubly linked list with sentinels whose nodes unlink themselves when destroyed. */
module IntrusiveList {
  import opened Links
  import opened Options

  class LinkNode<T> {
    var prev: LinkNode?<T>
    var next: LinkNode?<T>
    var element: Option<T>

    constructor (element: Option<T>)
      ensures prev == null && next == null && this.element == element
    {
      prev, next, this.element := null, null, element;
    }

    /** The destructor: it finds the neighbours by its own pointers only; `owner` is for the proof. */
    method Destroy(ghost owner: List<T>)
      requires owner.Valid() && this in owner.Nodes()
      modifies owner, owner.chain
      ensures owner.Valid() && owner.Nodes() == Without(old(owner.Nodes()), this)
      ensures forall n :: n in owner.chain ==> n in old(owner.chain)
      ensures forall n :: n in old(owner.chain) ==> n.element == old(n.element)
    {
      ghost var k := owner.Find(this);
      if prev != null {
        prev.next := next;
      }
      if next != null {
        next.prev := prev;
      }
      hide NoDup, Without;
      InnerWithout(owner.chain, k);
      owner.chain := owner.chain[..k] + owner.chain[k + 1..];
    }
  }

  class List<T> {
    const head: LinkNode<T>
    const tail: LinkNode<T>

    /** All nodes in order, the two sentinels included. */
    ghost var chain: seq<LinkNode<T>>

    ghost predicate Valid()
      reads this, chain
    {
      && |chain| >= 2 && chain[0] == head && chain[|chain| - 1] == tail
      && NoDup(chain)
      && head.prev == null && tail.next == null
      && (forall i {:trigger chain[i].next} :: 0 <= i < |chain| - 1 ==> chain[i].next == chain[i + 1])
      && (forall i {:trigger chain[i].prev} :: 0 < i < |chain| ==> chain[i].prev == chain[i - 1])
    }

    /** The nodes between the sentinels. */
    ghost function Nodes(): seq<LinkNode<T>>
      requires |chain| >= 2
      reads this
    {
      chain[1..|chain| - 1]
    }

    constructor ()
      ensures Valid() && Nodes() == [] && fresh(chain)
    {
      head := new LinkNode(None);
      tail := new LinkNode(None);
      new;
      head.next := tail;
      tail.prev := head;
      chain := [head, tail];
    }

    method PushBack(element: T) returns (node: LinkNode<T>)
      requires Valid()
      modifies this, chain
      ensures Valid() && fresh(node) && node.element == Some(element)
      ensures Nodes() == old(Nodes()) + [node]
      ensures forall n :: n in old(chain) ==> n.element == old(n.element)
    {
      node := new LinkNode(Some(element));
      var p := tail.prev;
      tail.prev := node;
      node.prev := p;
      p.next := node;
      node.next := tail;
      chain := chain[..|chain| - 1] + [node, tail];
    }

    /** `begin()` and the `next` pointers are those of the sequence of nodes, the end sentinel standing for no node. */
    lemma {:induction false} PointersFollowNodes(i: nat)
      requires Valid() && i < |Nodes()|
      ensures head.next == Nodes()[0]
      ensures Nodes()[i].next == match Next(Nodes(), Nodes()[i]) case None => tail case Some(n) => n
    {
      NextAt(Nodes(), i);
      assert Nodes()[i] == chain[i + 1];
    }

    lemma Find(n: LinkNode<T>) returns (k: nat)
      requires Valid() && n in Nodes()
      ensures 0 < k < |chain| - 1 && chain[k] == n
    {
      var i :| 0 <= i < |Nodes()| && Nodes()[i] == n;
      k := i + 1;
    }

    /** The walk of `~List`: each node is destroyed after its successor has been fetched. */
    method Clear()
      requires Valid()
      modifies this, chain
      ensures Valid() && Nodes() == []
    {
      var p := head.next;
      while p != tail
        invariant Valid() && p == chain[1]
        invariant forall i :: 0 <= i < |chain| ==> chain[i] in old(chain)
        decreases |chain|
      {
        var q := p.next;
        assert p == Nodes()[0];
        HeadFacts(Nodes());
        ghost var before := chain;
        p.Destroy(this);
        assert forall i :: 0 <= i < |chain| ==> chain[i] in before;
        p := q;
      }
    }
  }
}

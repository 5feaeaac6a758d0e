/** Intrusive lists of node identities.

  A doubly linked list is seen here as the sequence of the nodes between its
  two sentinels (`IntrusiveList.dfy` proves the pointer code against this view).
  Many lists over one set of nodes form a family: every node knows the one list
  it is linked into.
*/
module Links {
  import opened Options

  ghost predicate NoDup<N>(s: seq<N>) {
    forall i, j :: 0 <= i < j < |s| ==> s[i] != s[j]
  }

  /** The list without node `x`: what unlinking `x` leaves. */
  function Without<N(==)>(s: seq<N>, x: N): seq<N> {
    if s == [] then [] else if s[0] == x then Without(s[1..], x) else [s[0]] + Without(s[1..], x)
  }

  /** The nodes of `s` that belong to `ids`, in their order. */
  function Keep<N(==)>(s: seq<N>, ids: set<N>): seq<N> {
    if s == [] then [] else if s[0] in ids then [s[0]] + Keep(s[1..], ids) else Keep(s[1..], ids)
  }

  /** First node of a list, or `None` for the end sentinel. */
  function Begin<N>(s: seq<N>): Option<N> {
    if s == [] then None else Some(s[0])
  }

  /** The `next` pointer of a linked node. */
  function Next<N(==)>(s: seq<N>, x: N): Option<N> {
    if s == [] then None else if s[0] == x then Begin(s[1..]) else Next(s[1..], x)
  }

  lemma {:induction false} WithoutElems<N>(s: seq<N>, x: N)
    ensures forall y :: y in Without(s, x) <==> y in s && y != x
    ensures NoDup(s) ==> NoDup(Without(s, x))
    ensures x !in s ==> Without(s, x) == s
  {
    if s != [] {
      WithoutElems(s[1..], x);
      assert s == [s[0]] + s[1..];
      if NoDup(s) {
        assert s[0] !in s[1..];
      }
    }
  }

  lemma WithoutHead<N>(s: seq<N>)
    requires s != [] && NoDup(s)
    ensures Without(s, s[0]) == s[1..]
  {
    assert s[0] !in s[1..];
    WithoutElems(s[1..], s[0]);
  }

  lemma HeadFacts<N>(s: seq<N>)
    requires s != [] && NoDup(s)
    ensures Without(s, s[0]) == s[1..] && Next(s, s[0]) == Begin(s[1..])
  {
    WithoutHead(s);
  }

  lemma {:induction false} KeepAll<N>(s: seq<N>, ids: set<N>)
    requires forall x :: x in s ==> x in ids
    ensures Keep(s, ids) == s
  {
    if s != [] {
      KeepAll(s[1..], ids);
    }
  }

  lemma {:induction false} KeepElems<N>(s: seq<N>, ids: set<N>)
    ensures forall x :: x in Keep(s, ids) <==> x in s && x in ids
    ensures NoDup(s) ==> NoDup(Keep(s, ids))
  {
    if s != [] {
      KeepElems(s[1..], ids);
      assert s == [s[0]] + s[1..];
    }
  }

  /** The first elements stay first as long as they are kept. */
  lemma KeepHeads<N>(s: seq<N>, ids: set<N>)
    ensures s != [] && s[0] in ids ==> Keep(s, ids) != [] && Keep(s, ids)[0] == s[0]
    ensures |s| > 1 && s[1] in ids ==>
      if s[0] in ids then |Keep(s, ids)| > 1 && Keep(s, ids)[1] == s[1]
      else Keep(s, ids) != [] && Keep(s, ids)[0] == s[1]
  {
    if |s| > 1 {
      assert s[1..][0] == s[1];
    }
  }

  lemma {:induction false} KeepWithout<N>(s: seq<N>, ids: set<N>, x: N)
    ensures Without(Keep(s, ids), x) == Keep(s, ids - {x})
  {
    if s != [] {
      KeepWithout(s[1..], ids, x);
      if s[0] in ids {
        assert Keep(s, ids)[1..] == Keep(s[1..], ids);
      }
    }
  }

  lemma {:induction false} NextAt<N>(s: seq<N>, i: nat)
    requires NoDup(s) && i < |s|
    ensures Next(s, s[i]) == if i + 1 < |s| then Some(s[i + 1]) else None
  {
    if i > 0 {
      NextAt(s[1..], i - 1);
      assert s[1..][i - 1] == s[i];
    }
  }

  /** `at` says which list of the family each node of `ids` is linked into. */
  ghost predicate Linked<K(!new), N(!new)>(ids: set<N>, lists: map<K, seq<N>>, at: map<N, K>) {
    && at.Keys == ids
    && (forall n :: n in ids ==> at[n] in lists && n in lists[at[n]])
    && (forall k, n :: k in lists && n in lists[k] ==> n in ids && at[n] == k)
    && (forall k :: k in lists ==> NoDup(lists[k]))
  }

  /** Linking a new node at the tail of one list keeps the family well formed. */
  lemma LinkKeepsFamily<K(!new), N(!new)>(ids: set<N>, lists: map<K, seq<N>>, at: map<N, K>, k: K, n: N)
    requires Linked(ids, lists, at) && k in lists && n !in ids
    ensures Linked(ids + {n}, lists[k := lists[k] + [n]], at[n := k])
  {
    var lists' := lists[k := lists[k] + [n]];
    assert n in lists'[k] by { assert lists'[k][|lists[k]|] == n; }
    forall m | m in ids ensures m in lists'[at[m]] {
      assert m in lists[at[m]];
    }
  }

  /** Unlinking a node through its own link keeps the family well formed. */
  lemma UnlinkKeepsFamily<K(!new), N(!new)>(ids: set<N>, lists: map<K, seq<N>>, at: map<N, K>, n: N)
    requires Linked(ids, lists, at) && n in ids
    ensures Linked(ids - {n}, lists[at[n] := Without(lists[at[n]], n)], at - {n})
  {
    WithoutElems(lists[at[n]], n);
  }

  /** Unlinking one more node: every list still is what it was, less the nodes gone since. */
  lemma UnlinkFilters<K(!new), N(!new)>(before: map<K, seq<N>>, ids: set<N>, lists: map<K, seq<N>>, at: map<N, K>, n: N)
    requires Linked(ids, lists, at) && n in ids && before.Keys == lists.Keys
    requires forall k :: k in lists ==> lists[k] == Keep(before[k], ids)
    ensures forall k :: k in lists ==>
      lists[at[n] := Without(lists[at[n]], n)][k] == Keep(before[k], ids - {n})
  {
    forall k | k in lists
      ensures lists[at[n] := Without(lists[at[n]], n)][k] == Keep(before[k], ids - {n})
    {
      KeepWithout(before[k], ids, n);
      WithoutElems(lists[k], n);
    }
  }

  /** Moving the split point of a list by one node. */
  lemma ShiftOne<N>(pre: seq<N>, rest: seq<N>)
    requires rest != []
    ensures (pre + [rest[0]]) + rest[1..] == pre + rest
  {
  }

  lemma {:induction false} WithoutMiddle<N>(pre: seq<N>, rest: seq<N>)
    requires rest != [] && NoDup(pre + rest)
    ensures Without(pre + rest, rest[0]) == pre + rest[1..]
    ensures Next(pre + rest, rest[0]) == Begin(rest[1..])
  {
    NextAt(pre + rest, |pre|);
    if pre == [] {
      assert pre + rest == rest;
      WithoutHead(rest);
    } else {
      assert (pre + rest)[1..] == pre[1..] + rest;
      assert (pre + rest)[0] == pre[0] && (pre + rest)[|pre|] == rest[0];
      WithoutMiddle(pre[1..], rest);
    }
  }

  /** Taking the element at `k` out of a list with end markers. */
  lemma InnerWithout<N>(c: seq<N>, k: nat)
    requires NoDup(c) && 0 < k < |c| - 1
    ensures var c' := c[..k] + c[k + 1..];
      NoDup(c') && c'[1..|c'| - 1] == Without(c[1..|c| - 1], c[k])
  {
    var pre, rest := c[1..k], c[k..|c| - 1];
    var c' := c[..k] + c[k + 1..];
    assert pre + rest == c[1..|c| - 1];
    assert forall i :: 0 <= i < |c'| ==> c'[i] == if i < k then c[i] else c[i + 1];
    WithoutMiddle(pre, rest);
    assert c'[1..|c'| - 1] == pre + rest[1..];
  }

}

/** The ring of bytes whose two indices range over 0 to SIZE, both ends included. */
module RingBuffer {
  import opened Bytes
  import opened Seqs

  const SIZE := 1024

  /** The bytes between the indices, going round. */
  function Between(buf: seq<byte>, rIdx: nat, wIdx: nat, full: bool): seq<byte>
    requires |buf| == SIZE && rIdx <= SIZE && wIdx <= SIZE
  {
    if rIdx < wIdx then buf[rIdx..wIdx]
    else if rIdx > wIdx || full then buf[rIdx..] + buf[..wIdx]
    else []
  }

  /** What `append` stores of `data`: two copies if it goes round, each cut off at a NUL of its own. */
  function Stored(data: seq<byte>, first: nat): seq<byte>
    requires first <= |data|
  {
    Truncated(data[..first]) + Truncated(data[first..])
  }

  class RingBuffer {
    const buf: array<byte>
    var full: bool
    var rIdx: nat
    var wIdx: nat

    ghost predicate Valid()
      reads this
    {
      buf.Length == SIZE && rIdx <= SIZE && wIdx <= SIZE && (full ==> rIdx == wIdx)
    }

    ghost function Contents(): seq<byte>
      requires Valid()
      reads this, buf
    {
      Between(buf[..], rIdx, wIdx, full)
    }

    constructor ()
      ensures Valid() && Contents() == [] && fresh(buf)
    {
      buf := new byte[SIZE](_ => 0);
      full, rIdx, wIdx := false, 0, 0;
    }

    function ReadableBytes(): (n: nat)
      requires Valid()
      reads this, buf
      ensures n == |Contents()|
    {
      if rIdx < wIdx then wIdx - rIdx
      else if rIdx > wIdx then (SIZE - rIdx) + wIdx
      else if full then SIZE else 0
    }

    function WritableBytes(): (n: nat)
      requires Valid()
      reads this, buf
      ensures n + |Contents()| == SIZE
    {
      if wIdx < rIdx then rIdx - wIdx
      else if wIdx > rIdx then (SIZE - wIdx) + rIdx
      else if full then 0 else SIZE
    }

    /** Takes `len` bytes, or none if there are fewer. Only taking nothing out of a ring marked full
      goes wrong: the mark is lost, and with it the contents. */
    method Get(len: nat) returns (result: seq<byte>)
      requires Valid()
      modifies `full, `rIdx
      ensures Valid()
      ensures len > |old(Contents())| ==> result == [] && Contents() == old(Contents())
      ensures len <= |old(Contents())| ==> result == old(Contents())[..len]
      ensures len <= |old(Contents())| ==>
        (Contents() == old(Contents())[len..] <==> !(len == 0 && old(full)))
    {
      hide Between, ReadableBytes;
      Ends(buf[..], rIdx, wIdx, full);
      result := [];
      if ReadableBytes() < len {
        return;
      }
      if rIdx < wIdx {
        GetBelow(buf[..], rIdx, wIdx, full, len);
        result := buf[rIdx..rIdx + len];
        rIdx := rIdx + len;
      } else {
        GetAround(buf[..], rIdx, wIdx, full, len);
        if rIdx == wIdx {
          full := false;
        }
        var len1 := SIZE - rIdx;
        if len <= len1 {
          result := buf[rIdx..rIdx + len];
          rIdx := rIdx + len;
        } else {
          var len2 := len - len1;
          result := buf[rIdx..rIdx + len1] + buf[..len2];
          rIdx := len2;
        }
      }
    }

    /** Appends `data`, or nothing if there is too little room. Only appending nothing when the indices
      coincide in a ring not marked full goes wrong: the ring counts as full. */
    method Append(data: seq<byte>) returns (ok: bool)
      requires Valid()
      modifies this, buf
      ensures Valid()
      ensures ok <==> |data| + |old(Contents())| <= SIZE
      ensures !ok ==> Contents() == old(Contents())
      ensures ok ==>
        var first := if old(wIdx) < old(rIdx) || |data| <= SIZE - old(wIdx) then |data| else SIZE - old(wIdx);
        (Contents() == old(Contents()) + Stored(data, first) <==>
         !(data == [] && old(rIdx) == old(wIdx) && !old(full)))
      ensures ok && data == [] && old(rIdx) == old(wIdx) && !old(full) ==> |Contents()| == SIZE
    {
      hide Between, Truncated, Stored, Overwritten, WritableBytes;
      if WritableBytes() < |data| {
        return false;
      }
      ghost var before := buf[..];
      Ends(before, rIdx, wIdx, full);
      if wIdx < rIdx {
        StrNCpy(buf, wIdx, data);
        AppendBelow(before, rIdx, wIdx, Truncated(data));
        wIdx := wIdx + |data|;
        StoredWhole(data);
      } else {
        var len1 := SIZE - wIdx;
        if |data| <= len1 {
          StrNCpy(buf, wIdx, data);
          AppendAbove(before, rIdx, wIdx, Truncated(data), full);
          wIdx := wIdx + |data|;
          StoredWhole(data);
        } else {
          StrNCpy(buf, wIdx, data[..len1]);
          StrNCpy(buf, 0, data[len1..]);
          StoredSplit(data, len1);
          AppendAround(before, buf[..], rIdx, wIdx, Truncated(data[..len1]), Truncated(data[len1..]), full);
          wIdx := |data| - len1;
        }
      }
      if rIdx == wIdx {
        full := true;
      }
      Ends(buf[..], rIdx, wIdx, full);
      return true;
    }

    /** Any list of plain calls on one ring is served as by a queue of at most SIZE bytes. */
    method RunAll(calls: seq<Call>) returns (replies: seq<Reply>)
      requires Valid() && forall call :: call in calls ==> Plain(call)
      modifies this, buf
      ensures Valid() && (replies, Contents()) == ServeAll(old(Contents()), calls)
    {
      hide ServeAll, Between, Stored;
      replies := [];
      NoCalls(Contents());
      assert calls[..0] == [];
      for i := 0 to |calls|
        invariant Valid() && (replies, Contents()) == ServeAll(old(Contents()), calls[..i])
      {
        ServeOneMore(old(Contents()), calls, i);
        assert calls[i] in calls;
        match calls[i] {
          case Put(data) =>
            ghost var first := if wIdx < rIdx || |data| <= SIZE - wIdx then |data| else SIZE - wIdx;
            NulFreeStored(data, first);
            var ok := Append(data);
            replies := replies + [Kept(ok)];
          case Take(len) =>
            var bytes := Get(len);
            replies := replies + [Taken(bytes)];
        }
      }
      assert calls[..|calls|] == calls;
    }
  }

  /** Coinciding indices mean a full ring or an empty one. */
  lemma Ends(s: seq<byte>, r: nat, w: nat, full: bool)
    requires |s| == SIZE && r <= SIZE && w <= SIZE
    ensures r == w && full ==> |Between(s, r, w, full)| == SIZE
    ensures r == w && !full ==> Between(s, r, w, full) == []
    ensures r != w ==> |Between(s, r, w, full)| == if r < w then w - r else SIZE - r + w
  {
  }

  lemma GetBelow(s: seq<byte>, r: nat, w: nat, full: bool, len: nat)
    requires |s| == SIZE && r < w <= SIZE && len <= w - r
    ensures s[r..r + len] == Between(s, r, w, full)[..len]
    ensures Between(s, r + len, w, false) == Between(s, r, w, full)[len..]
  {
  }

  lemma GetAround(s: seq<byte>, r: nat, w: nat, full: bool, len: nat)
    requires |s| == SIZE && w <= r <= SIZE && len <= |Between(s, r, w, full)|
    ensures var b := Between(s, r, w, full);
      if len <= SIZE - r
      then s[r..r + len] == b[..len] && (Between(s, r + len, w, false) == b[len..] <==> !(len == 0 && r == w && full))
      else s[r..] + s[..len - (SIZE - r)] == b[..len] && Between(s, len - (SIZE - r), w, false) == b[len..]
  {
    if len == 0 && r == w && full {
      assert Between(s, r, w, false) == [];
    }
  }

  lemma StoredSplit(data: seq<byte>, first: nat)
    requires first <= |data|
    ensures Stored(data, first) == Truncated(data[..first]) + Truncated(data[first..])
  {
  }

  lemma StoredWhole(data: seq<byte>)
    ensures Stored(data, |data|) == Truncated(data)
  {
    assert data[..|data|] == data;
  }

  lemma AppendBelow(s: seq<byte>, r: nat, w: nat, d: seq<byte>)
    requires |s| == SIZE && w < r <= SIZE && w + |d| <= r
    ensures var s' := Overwritten(s, w, d);
      Between(s', r, w + |d|, r == w + |d|) == Between(s, r, w, false) + d
  {
    var s' := Overwritten(s, w, d);
    assert s'[r..] == s[r..];
    assert s'[..w + |d|] == s[..w] + d;
  }

  lemma AppendAbove(s: seq<byte>, r: nat, w: nat, d: seq<byte>, full: bool)
    requires |s| == SIZE && r <= w && w + |d| <= SIZE && (full ==> r == w && d == [])
    ensures var s' := Overwritten(s, w, d);
      |s'| == SIZE
      && (r < w || d != [] ==> Between(s', r, w + |d|, r == w + |d|) == Between(s, r, w, full) + d)
      && (full ==> s' == s)
  {
    var s' := Overwritten(s, w, d);
    assert s'[r..w + |d|] == s[r..w] + d;
    if d == [] {
      assert s' == s;
    }
  }

  lemma AppendAround(s: seq<byte>, s': seq<byte>, r: nat, w: nat, d: seq<byte>, e: seq<byte>, full: bool)
    requires |s| == SIZE && r <= w <= SIZE && !full && |d| == SIZE - w && 0 < |e| <= r
    requires s' == Overwritten(Overwritten(s, w, d), 0, e)
    ensures Between(s', r, |e|, r == |e|) == Between(s, r, w, full) + (d + e)
  {
    assert s'[r..] == s[r..w] + d;
    assert s'[..|e|] == e;
  }

  /** Data is stored as it is just when neither of its two pieces has anything but NULs after a NUL. */
  lemma StoredExact(data: seq<byte>, first: nat)
    requires first <= |data|
    ensures Stored(data, first) == data <==> NulsLast(data[..first]) && NulsLast(data[first..])
  {
    hide Truncated, NulsLast;
    TruncatedExact(data[..first]);
    TruncatedExact(data[first..]);
    assert Stored(data, first)[..first] == Truncated(data[..first]);
    assert Stored(data, first)[first..] == Truncated(data[first..]);
    assert data[..first] + data[first..] == data;
  }

  /** Data without NULs always is. */
  lemma NulFreeStored(data: seq<byte>, first: nat)
    requires first <= |data| && 0 !in data
    ensures Stored(data, first) == data
  {
    StoredExact(data, first);
  }

  // ---- Runs of calls ----

  datatype Call = Put(data: seq<byte>) | Take(len: nat)

  datatype Reply = Kept(ok: bool) | Taken(bytes: seq<byte>)

  /** Something is to be appended, and there are no NULs in it; something is to be taken. */
  predicate Plain(call: Call) {
    match call
    case Put(data) => data != [] && 0 !in data
    case Take(len) => len > 0
  }

  /** The call on a queue of at most SIZE bytes: it is served whole or not at all. */
  function Serve(queue: seq<byte>, call: Call): (Reply, seq<byte>) {
    match call
    case Put(data) => if |queue| + |data| <= SIZE then (Kept(true), queue + data) else (Kept(false), queue)
    case Take(len) => if len <= |queue| then (Taken(queue[..len]), queue[len..]) else (Taken([]), queue)
  }

  function ServeAll(queue: seq<byte>, calls: seq<Call>): (seq<Reply>, seq<byte>) {
    if calls == [] then ([], queue)
    else
      var (replies, between) := ServeAll(queue, calls[..|calls| - 1]);
      var (reply, after) := Serve(between, calls[|calls| - 1]);
      (replies + [reply], after)
  }

  lemma NoCalls(queue: seq<byte>)
    ensures ServeAll(queue, []) == ([], queue)
  {
  }

  lemma ServeOneMore(queue: seq<byte>, calls: seq<Call>, i: nat)
    requires i < |calls|
    ensures var (replies, between) := ServeAll(queue, calls[..i]);
      ServeAll(queue, calls[..i + 1]) == (replies + [Serve(between, calls[i]).0], Serve(between, calls[i]).1)
  {
    assert calls[..i + 1][..i] == calls[..i];
  }

  /** What one call adds to the queue, and what it takes from it. */
  function KeptBy(call: Call, reply: Reply): seq<byte> { if call.Put? && reply == Kept(true) then call.data else [] }
  function TakenBy(reply: Reply): seq<byte> { if reply.Taken? then reply.bytes else [] }

  function AllKept(calls: seq<Call>, replies: seq<Reply>): seq<byte>
    requires |replies| == |calls|
  {
    if calls == [] then []
    else
      var n := |calls| - 1;
      AllKept(calls[..n], replies[..n]) + KeptBy(calls[n], replies[n])
  }

  function AllTaken(replies: seq<Reply>): seq<byte> {
    if replies == [] then []
    else
      var n := |replies| - 1;
      AllTaken(replies[..n]) + TakenBy(replies[n])
  }

  lemma OneCallInOrder(queue: seq<byte>, call: Call)
    ensures var (reply, after) := Serve(queue, call);
      TakenBy(reply) + after == queue + KeptBy(call, reply) && (|queue| <= SIZE ==> |after| <= SIZE)
  {
  }

  /** In every run, what was taken, followed by what is left, is what was there, followed by what was
    kept; and it never grows beyond SIZE. */
  lemma {:induction false} BytesInOrder(queue: seq<byte>, calls: seq<Call>)
    ensures var (replies, rest) := ServeAll(queue, calls);
      && |replies| == |calls|
      && AllTaken(replies) + rest == queue + AllKept(calls, replies)
      && (|queue| <= SIZE ==> |rest| <= SIZE)
  {
    hide Serve, KeptBy, TakenBy;
    if calls != [] {
      var n := |calls| - 1;
      BytesInOrder(queue, calls[..n]);
      var (before, between) := ServeAll(queue, calls[..n]);
      var (reply, after) := Serve(between, calls[n]);
      OneCallInOrder(between, calls[n]);
      assert (before + [reply])[..n] == before;
      Reassociate(AllTaken(before), TakenBy(reply), after);
      Reassociate(AllTaken(before), between, KeptBy(calls[n], reply));
      Reassociate(queue, AllKept(calls[..n], before), KeptBy(calls[n], reply));
    }
  }
}

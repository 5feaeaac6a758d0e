/** The growable byte buffer between sockets and their users. */
module Buffer {
  import opened Bytes
  import opened Quotients
  import opened Seqs

  /** One end of a connected stream. How much the kernel gives or takes is its own choice. */
  class Socket {
    ghost var received: seq<byte>
    ghost var sent: seq<byte>
    // What each call of `read` and `write` returned, and what `write` was asked to write.
    ghost var readCalls: seq<int>
    ghost var writeCalls: seq<(seq<byte>, int)>
    var writeClosed: bool

    constructor ()
      ensures received == [] && sent == [] && readCalls == [] && writeCalls == [] && !writeClosed
    {
      received, sent, readCalls, writeCalls, writeClosed := [], [], [], [], false;
    }

    /** `read`: an error (-1), the end of the stream (0), or some bytes. */
    method Read(max: nat) returns (n: int, data: seq<byte>)
      modifies `received, `readCalls
      ensures -1 <= n <= max && |data| == (if n > 0 then n else 0)
      ensures received == old(received) + data && readCalls == old(readCalls) + [n]
    {
      n :| -1 <= n <= max;
      if n > 0 {
        assert |seq(n, _ => 0 as byte)| == n;
        data :| |data| == n;
      } else {
        data := [];
      }
      received, readCalls := received + data, readCalls + [n];
    }

    /** `write`: an error (-1), or the length of the prefix that was taken. */
    method Write(data: seq<byte>) returns (n: int)
      modifies `sent, `writeCalls
      ensures -1 <= n <= |data|
      ensures sent == (old(sent) + if n > 0 then data[..n] else []) && writeCalls == old(writeCalls) + [(data, n)]
    {
      n :| -1 <= n <= |data|;
      if n > 0 {
        sent := sent + data[..n];
      }
      writeCalls := writeCalls + [(data, n)];
    }

    method ShutdownWrite()
      modifies `writeClosed
      ensures writeClosed
    {
      writeClosed := true;
    }
  }

  const MAXSIZE := 8192
  const BUFFER_SIZE_MAXIMUM := -2

  class Buffer {
    var buf: array<byte>
    var readerIndex: nat
    var writerIndex: nat

    /** A vector that has only ever been doubled has no spare capacity. */
    ghost predicate Valid()
      reads this
    {
      0 < buf.Length && readerIndex <= writerIndex <= buf.Length
    }

    /** The queue of readable bytes. */
    function Contents(): seq<byte>
      requires Valid()
      reads this, buf
    {
      buf[readerIndex..writerIndex]
    }

    function FrontBytes(): nat reads this { readerIndex }
    function ReadableBytes(): nat requires Valid() reads this { writerIndex - readerIndex }
    function WritableBytes(): nat requires Valid() reads this { buf.Length - writerIndex }

    /** When `append` has room for `len` bytes: there is room behind, or there would be after moving
      the contents to the front, or one doubling is allowed and makes enough room behind. */
    predicate Fits(len: nat)
      requires Valid()
      reads this
    {
      len <= WritableBytes() + FrontBytes() || (buf.Length < MAXSIZE && len <= WritableBytes() + buf.Length)
    }

    constructor (size: nat)
      requires size > 0
      ensures Valid() && Contents() == [] && buf.Length == size && fresh(buf)
    {
      buf := new byte[size];
      readerIndex, writerIndex := 0, 0;
    }

    method DoubleSize() returns (ok: bool)
      requires Valid()
      modifies `buf
      ensures Valid() && Contents() == old(Contents())
      ensures ok <==> old(buf.Length) < MAXSIZE
      ensures if ok then fresh(buf) && buf.Length == 2 * old(buf.Length) else buf == old(buf)
    {
      if buf.Length < MAXSIZE {
        var bigger := new byte[2 * buf.Length];
        forall i | 0 <= i < buf.Length {
          bigger[i] := buf[i];
        }
        assert bigger[readerIndex..writerIndex] == buf[readerIndex..writerIndex];
        buf := bigger;
        return true;
      }
      return false;
    }

    /** Moves the contents to the front. */
    method Vacate()
      requires Valid()
      modifies this, buf
      ensures Valid() && Contents() == old(Contents())
      ensures buf == old(buf) && readerIndex == 0
    {
      var rbs := ReadableBytes();
      MoveDown(buf, readerIndex, rbs);
      readerIndex := 0;
      writerIndex := readerIndex + rbs;
    }

    method MakeSpace(len: nat)
      requires Valid()
      modifies this, buf
      ensures Valid() && Contents() == old(Contents())
      ensures buf == old(buf) || fresh(buf)
      ensures old(WritableBytes()) < len ==> (WritableBytes() >= len <==> old(Fits(len)))
      ensures old(buf.Length) <= buf.Length && (buf.Length < 2 * MAXSIZE || buf.Length == old(buf.Length))
    {
      if len > WritableBytes() + FrontBytes() {
        var _ := DoubleSize();
      } else {
        Vacate();
      }
    }

    method Append(data: seq<byte>)
      requires Valid() && Fits(|data|)
      modifies this, buf
      ensures Valid() && Contents() == old(Contents()) + data
      ensures buf == old(buf) || fresh(buf)
      ensures old(buf.Length) <= buf.Length && (buf.Length < 2 * MAXSIZE || buf.Length == old(buf.Length))
    {
      if WritableBytes() < |data| {
        MakeSpace(|data|);
      }
      CopyIn(buf, writerIndex, data);
      writerIndex := writerIndex + |data|;
    }

    method Get(len: nat) returns (result: seq<byte>)
      requires Valid()
      modifies `readerIndex
      ensures Valid() && result + Contents() == old(Contents())
      ensures |result| == if len <= |old(Contents())| then len else |old(Contents())|
    {
      var rbs := ReadableBytes();
      var n := if len <= rbs then len else rbs;
      result := buf[readerIndex..readerIndex + n];
      readerIndex := readerIndex + n;
    }

    /** `appendInt8` to `appendInt64`: the bytes of an integer in the order of this machine, lowest first. */
    method AppendInt(width: nat, x: int)
      requires Valid() && Fits(width) && InRange(width, x)
      modifies this, buf
      ensures Valid() && Contents() == old(Contents()) + Encode(width, x)
      ensures buf == old(buf) || fresh(buf)
      ensures old(buf.Length) <= buf.Length && (buf.Length < 2 * MAXSIZE || buf.Length == old(buf.Length))
    {
      Append(Encode(width, x));
    }

    /** `getInt8` to `getInt64`; without enough bytes the source returns an uninitialised value. */
    method GetInt(width: nat) returns (ok: bool, x: int)
      requires Valid() && width > 0
      modifies `readerIndex
      ensures Valid() && (ok <==> |old(Contents())| >= width)
      ensures ok ==> x == Decode(old(Contents())[..width]) && Contents() == old(Contents())[width..]
      ensures !ok ==> Contents() == old(Contents())
    {
      ok, x := ReadableBytes() >= width, 0;
      if ok {
        x := Decode(buf[readerIndex..readerIndex + width]);
        assert old(Contents())[..width] == buf[readerIndex..readerIndex + width];
        readerIndex := readerIndex + width;
      }
    }

    method WriteTo(fd: Socket, len: nat) returns (num: int)
      requires Valid()
      modifies `readerIndex, fd`sent, fd`writeCalls
      ensures Valid() && -1 <= num <= |old(Contents())| && num <= len
      ensures var n := if len <= |old(Contents())| then len else |old(Contents())|;
        fd.writeCalls == old(fd.writeCalls) + [(old(Contents())[..n], num)]
      ensures var taken := if num > 0 then num else 0;
        Contents() == old(Contents())[taken..] && fd.sent == old(fd.sent) + old(Contents())[..taken]
    {
      var rbs := ReadableBytes();
      var n := if len <= rbs then len else rbs;
      assert buf[readerIndex..readerIndex + n] == Contents()[..n];
      num := fd.Write(buf[readerIndex..readerIndex + n]);
      if num > 0 {
        readerIndex := readerIndex + num;
      }
    }

    /** One round of `readFrom`: makes room if there is none, and reads once into it. */
    method ReadOnce(fd: Socket) returns (num: int, ghost got: seq<byte>)
      requires Valid()
      modifies this, buf, fd`received, fd`readCalls
      ensures Valid() && (buf == old(buf) || fresh(buf))
      ensures fd.received == old(fd.received) + got && Contents() == old(Contents()) + got
      ensures old(buf.Length) <= buf.Length && (buf.Length < 2 * MAXSIZE || buf.Length == old(buf.Length))
      ensures num == BUFFER_SIZE_MAXIMUM <==> old(|Contents()|) == old(buf.Length) >= MAXSIZE
      ensures fd.readCalls == old(fd.readCalls) + if num == BUFFER_SIZE_MAXIMUM then [] else [num]
      ensures num >= 0 ==> |got| == num
      ensures num < 0 ==> got == []
      ensures num == BUFFER_SIZE_MAXIMUM ==> WritableBytes() == 0
      ensures num == BUFFER_SIZE_MAXIMUM || -1 <= num
      ensures -1 <= num <= 0 ==> WritableBytes() > 0
    {
      got := [];
      Vacate();
      if WritableBytes() == 0 {
        var ok := DoubleSize();
        if !ok {
          return BUFFER_SIZE_MAXIMUM, [];
        }
      }
      var data;
      num, data := fd.Read(WritableBytes());
      got := data;
      if num > 0 {
        // The kernel fills the space behind the contents.
        ghost var contents := Contents();
        CopyIn(buf, writerIndex, data);
        writerIndex := writerIndex + num;
        assert Contents() == contents + data;
      }
    }

    /** Reads until the kernel gives less than there is room for, or nothing, or the limit is reached, growing on
      the way. All that was read is appended in order, but it is all reported only if the buffer has room
      left. */
    method ReadFrom(fd: Socket) returns (num: int, ghost got: seq<byte>)
      requires Valid()
      modifies this, buf, fd`received, fd`readCalls
      ensures Valid() && (buf == old(buf) || fresh(buf))
      ensures fd.received == old(fd.received) + got && Contents() == old(Contents()) + got
      ensures old(buf.Length) <= buf.Length && (buf.Length < 2 * MAXSIZE || buf.Length == old(buf.Length))
      ensures num == BUFFER_SIZE_MAXIMUM ==> WritableBytes() == 0 && buf.Length >= MAXSIZE
      ensures num == BUFFER_SIZE_MAXIMUM ==> (got == [] <==> old(|Contents()|) == old(buf.Length) >= MAXSIZE)
      ensures num != BUFFER_SIZE_MAXIMUM && num <= 0 ==> got == [] && WritableBytes() > 0
      ensures num > 0 ==> num <= |got| && (num == |got| <==> WritableBytes() > 0)
      ensures old(fd.readCalls) <= fd.readCalls
      ensures var calls := fd.readCalls[|old(fd.readCalls)|..];
        && (calls == [] <==> num == BUFFER_SIZE_MAXIMUM && got == [])
        && (forall i :: 0 <= i < |calls| - 1 ==> calls[i] > 0)
        && (num != BUFFER_SIZE_MAXIMUM && num <= 0 ==> calls == [num])
        && (calls != [] && calls[|calls| - 1] > 0 ==> WritableBytes() > 0 || buf.Length >= MAXSIZE)
      decreases if buf.Length < 2 * MAXSIZE then 2 * MAXSIZE - buf.Length else 0
    {
      num, got := ReadOnce(fd);
      if num > 0 && WritableBytes() == 0 {
        var ok := DoubleSize();
        if !ok {
          num := BUFFER_SIZE_MAXIMUM;
        } else {
          ghost var more;
          var n;
          n, more := ReadFrom(fd);
          got := got + more;
          if n > 0 {
            num := num + n;
          }
        }
      }
    }

    /** Any list of calls on one buffer, up to the first append for which there is no room, is served as by
      a queue of bytes. There is room throughout if all that is appended fits into the buffer as it was. */
    method RunAll(calls: seq<Call>) returns (replies: seq<Reply>)
      requires Valid() && forall call :: call in calls ==> Sensible(call)
      modifies this, buf
      ensures Valid() && |replies| <= |calls|
      ensures (replies, Contents()) == ServeAll(old(Contents()), calls[..|replies|])
      ensures |replies| < |calls| ==> !Fits(|Added(calls[|replies|])|)
      ensures |old(Contents())| + TotalAdded(calls) <= old(buf.Length) ==> |replies| == |calls|
    {
      hide ServeAll, Encode, Decode, InRange, TotalAdded;
      replies := [];
      NoCalls(Contents());
      assert calls[..0] == [];
      while |replies| < |calls| && Fits(|Added(calls[|replies|])|)
        invariant Valid() && |replies| <= |calls| && (buf == old(buf) || fresh(buf)) && old(buf.Length) <= buf.Length
        invariant (replies, Contents()) == ServeAll(old(Contents()), calls[..|replies|])
        invariant |Contents()| <= |old(Contents())| + TotalAdded(calls[..|replies|])
        decreases |calls| - |replies|
      {
        ServeOneMore(old(Contents()), calls, |replies|);
        assert calls[|replies|] in calls;
        match calls[|replies|] {
          case PutBytes(data) =>
            Append(data);
            replies := replies + [Done];
          case PutInt(width, x) =>
            AppendInt(width, x);
            replies := replies + [Done];
          case TakeBytes(len) =>
            var bytes := Get(len);
            replies := replies + [Bytes(bytes)];
          case TakeInt(width) =>
            var ok, x := GetInt(width);
            replies := replies + [if ok then Integer(x) else NoInteger];
        }
      }
      if |replies| < |calls| {
        AddedSoFar(calls, |replies|);
      }
    }
  }

  // ---- Runs of calls ----

  datatype Call = PutBytes(data: seq<byte>) | PutInt(width: nat, x: int) | TakeBytes(len: nat) | TakeInt(width: nat)

  datatype Reply = Done | Bytes(bytes: seq<byte>) | Integer(x: int) | NoInteger

  /** The integers fit their widths. */
  predicate Sensible(call: Call) {
    match call
    case PutInt(width, x) => InRange(width, x)
    case TakeInt(width) => width > 0
    case _ => true
  }

  /** The bytes a call adds. */
  function Added(call: Call): seq<byte>
    requires Sensible(call)
  {
    match call
    case PutBytes(data) => data
    case PutInt(width, x) => Encode(width, x)
    case _ => []
  }

  function TotalAdded(calls: seq<Call>): nat
    requires forall call :: call in calls ==> Sensible(call)
  {
    if calls == [] then 0 else TotalAdded(calls[..|calls| - 1]) + |Added(calls[|calls| - 1])|
  }

  /** The call on a queue of bytes. */
  function Serve(queue: seq<byte>, call: Call): (Reply, seq<byte>)
    requires Sensible(call)
  {
    match call
    case TakeBytes(len) => var n := if len <= |queue| then len else |queue|; (Bytes(queue[..n]), queue[n..])
    case TakeInt(width) =>
      if width <= |queue| then (Integer(Decode(queue[..width])), queue[width..]) else (NoInteger, queue)
    case _ => (Done, queue + Added(call))
  }

  function ServeAll(queue: seq<byte>, calls: seq<Call>): (seq<Reply>, seq<byte>)
    requires forall call :: call in calls ==> Sensible(call)
  {
    if calls == [] then ([], queue)
    else
      var (replies, between) := ServeAll(queue, calls[..|calls| - 1]);
      var (reply, after) := Serve(between, calls[|calls| - 1]);
      (replies + [reply], after)
  }

  lemma NoCalls(queue: seq<byte>)
    ensures ServeAll(queue, []) == ([], queue) && TotalAdded([]) == 0
  {
  }

  lemma ServeOneMore(queue: seq<byte>, calls: seq<Call>, i: nat)
    requires i < |calls| && forall call :: call in calls ==> Sensible(call)
    ensures var (replies, between) := ServeAll(queue, calls[..i]);
      ServeAll(queue, calls[..i + 1]) == (replies + [Serve(between, calls[i]).0], Serve(between, calls[i]).1)
    ensures TotalAdded(calls[..i + 1]) == TotalAdded(calls[..i]) + |Added(calls[i])|
  {
    assert calls[..i + 1][..i] == calls[..i];
  }

  lemma {:induction false} AddedSoFar(calls: seq<Call>, i: nat)
    requires i < |calls| && forall call :: call in calls ==> Sensible(call)
    ensures TotalAdded(calls[..i]) + |Added(calls[i])| <= TotalAdded(calls)
  {
    var init := calls[..|calls| - 1];
    if i < |init| {
      AddedSoFar(init, i);
      assert init[..i] == calls[..i];
    }
  }

  function AllAdded(calls: seq<Call>): seq<byte>
    requires forall call :: call in calls ==> Sensible(call)
  {
    if calls == [] then [] else AllAdded(calls[..|calls| - 1]) + Added(calls[|calls| - 1])
  }

  function TakenBy(reply: Reply): seq<byte> { if reply.Bytes? then reply.bytes else [] }

  function AllTaken(replies: seq<Reply>): seq<byte> {
    if replies == [] then [] else AllTaken(replies[..|replies| - 1]) + TakenBy(replies[|replies| - 1])
  }

  lemma OneCallInOrder(queue: seq<byte>, call: Call)
    requires Sensible(call) && !call.TakeInt?
    ensures var (reply, after) := Serve(queue, call); TakenBy(reply) + after == queue + Added(call)
  {
    hide Sensible, Encode;
  }

  /** In every run that takes plain bytes, what was taken, followed by what is left, is what was there,
    followed by all that was added, integers included. */
  lemma {:induction false} BytesInOrder(queue: seq<byte>, calls: seq<Call>)
    requires forall call :: call in calls ==> Sensible(call) && !call.TakeInt?
    ensures var (replies, rest) := ServeAll(queue, calls);
      AllTaken(replies) + rest == queue + AllAdded(calls)
  {
    hide Sensible, Serve, Added, TakenBy;
    if calls == [] {
      assert queue + [] == queue;
    } else {
      var init, call := calls[..|calls| - 1], calls[|calls| - 1];
      BytesInOrder(queue, init);
      var (before, between) := ServeAll(queue, init);
      var (reply, after) := Serve(between, call);
      OneCallInOrder(between, call);
      assert (before + [reply])[..|before|] == before;
      Reassociate(AllTaken(before), TakenBy(reply), after);
      Reassociate(AllTaken(before), between, Added(call));
      Reassociate(queue, AllAdded(init), Added(call));
    }
  }

  // ---- Integers ----

  function Pow256(width: nat): (p: nat)
    ensures p > 0
  {
    if width == 0 then 1 else 256 * Pow256(width - 1)
  }

  /** The signed integers of `width` bytes. */
  predicate InRange(width: nat, x: int) { width > 0 && -(Pow256(width) as int) <= 2 * x < Pow256(width) }

  function LowBytes(width: nat, x: nat): seq<byte> {
    if width == 0 then [] else [(x % 256) as byte] + LowBytes(width - 1, x / 256)
  }

  function Value(bytes: seq<byte>): nat {
    if bytes == [] then 0 else bytes[0] as nat + 256 * Value(bytes[1..])
  }

  /** Two's complement, lowest byte first. */
  function Encode(width: nat, x: int): seq<byte>
    requires InRange(width, x)
    ensures |Encode(width, x)| == width
  {
    LowBytesLength(width, if x >= 0 then x else x + Pow256(width));
    LowBytes(width, if x >= 0 then x else x + Pow256(width))
  }

  function Decode(bytes: seq<byte>): int {
    var v := Value(bytes);
    if 2 * v < Pow256(|bytes|) then v else v - Pow256(|bytes|)
  }

  lemma {:induction false} LowBytesLength(width: nat, x: nat)
    ensures |LowBytes(width, x)| == width
  {
    if width > 0 {
      LowBytesLength(width - 1, x / 256);
    }
  }

  lemma {:induction false} ValueOfLowBytes(width: nat, x: nat)
    requires x < Pow256(width)
    ensures |LowBytes(width, x)| == width && Value(LowBytes(width, x)) == x
  {
    if width > 0 {
      ValueOfLowBytes(width - 1, x / 256);
    }
  }

  /** An integer read with the width it was written with comes back. */
  lemma IntRoundTrip(width: nat, x: int)
    requires InRange(width, x)
    ensures Decode(Encode(width, x)) == x
  {
    ValueOfLowBytes(width, if x >= 0 then x else x + Pow256(width));
  }

  /** Dividing twice. */
  lemma DivideTwice(x: nat, p: nat)
    requires p > 0
    ensures x / 256 / p == x / (256 * p)
  {
    var q, r := x / (256 * p), x % (256 * p);
    assert x == 256 * p * q + r == 256 * (p * q) + r;
    assert x / 256 == p * q + r / 256 && r / 256 < p;
    Division(x / 256, p, q, r / 256);
  }

  lemma {:induction false} LowBytesAt(width: nat, x: nat, i: nat)
    requires i < width
    ensures |LowBytes(width, x)| == width && LowBytes(width, x)[i] as nat == x / Pow256(i) % 256
  {
    LowBytesLength(width, x);
    if i > 0 {
      LowBytesAt(width - 1, x / 256, i - 1);
      DivideTwice(x, Pow256(i - 1));
    }
  }

  /** The byte at index `i` is the digit that counts 256 to the power of `i`: the lowest comes first. */
  lemma EncodedByte(width: nat, x: int, i: nat)
    requires InRange(width, x) && i < width
    ensures Encode(width, x)[i] as nat == (if x >= 0 then x else x + Pow256(width)) / Pow256(i) % 256
  {
    LowBytesAt(width, if x >= 0 then x else x + Pow256(width), i);
  }

  // ---- Typed messages ----

  datatype Typed = Typed(width: nat, value: int)

  ghost predicate AllInRange(values: seq<Typed>) { forall v :: v in values ==> InRange(v.width, v.value) }

  /** What a sequence of typed appends leaves in the buffer. */
  function EncodeAll(values: seq<Typed>): seq<byte>
    requires AllInRange(values)
  {
    if values == [] then [] else Encode(values[0].width, values[0].value) + EncodeAll(values[1..])
  }

  /** What a sequence of typed reads of the given widths takes out, and what stays behind. */
  function DecodeAll(bytes: seq<byte>, widths: seq<nat>): (seq<int>, seq<byte>) {
    if widths == [] || |bytes| < widths[0] then ([], bytes)
    else
      var (xs, rest) := DecodeAll(bytes[widths[0]..], widths[1..]);
      ([Decode(bytes[..widths[0]])] + xs, rest)
  }

  function Widths(values: seq<Typed>): seq<nat> {
    if values == [] then [] else [values[0].width] + Widths(values[1..])
  }

  function Values(values: seq<Typed>): seq<int> {
    if values == [] then [] else [values[0].value] + Values(values[1..])
  }

  /** Any sequence of typed appends reads back with the same sequence of widths. */
  lemma {:induction false} TypedRoundTrip(values: seq<Typed>, rest: seq<byte>)
    requires AllInRange(values)
    ensures DecodeAll(EncodeAll(values) + rest, Widths(values)) == (Values(values), rest)
  {
    if values == [] {
      assert EncodeAll(values) + rest == rest;
    } else {
      var v := values[0];
      var bytes := EncodeAll(values) + rest;
      assert bytes[..v.width] == Encode(v.width, v.value) && bytes[v.width..] == EncodeAll(values[1..]) + rest;
      hide Encode, Decode, InRange, Pow256, EncodeAll;
      IntRoundTrip(v.width, v.value);
      TypedRoundTrip(values[1..], rest);
    }
  }

  // ---- Typed messages on one buffer ----

  function Appends(values: seq<Typed>): seq<Call> {
    seq(|values|, i requires 0 <= i < |values| => PutInt(values[i].width, values[i].value))
  }

  function Gets(values: seq<Typed>): seq<Call> {
    seq(|values|, i requires 0 <= i < |values| => TakeInt(values[i].width))
  }

  function Dones(k: nat): seq<Reply> { seq(k, _ => Done) }

  function Numbers(values: seq<Typed>): seq<Reply> {
    seq(|values|, i requires 0 <= i < |values| => Integer(values[i].value))
  }

  lemma TypedSensible(values: seq<Typed>)
    requires AllInRange(values)
    ensures forall call :: call in Appends(values) || call in Gets(values) ==> Sensible(call)
  {
    hide Pow256;
    forall i | 0 <= i < |values| ensures Sensible(Appends(values)[i]) && Sensible(Gets(values)[i]) {
      assert values[i] in values;
    }
  }

  lemma {:induction false} ServedInTurn(queue: seq<byte>, first: seq<Call>, second: seq<Call>)
    requires forall call :: call in first + second ==> Sensible(call)
    ensures forall call :: call in first || call in second ==> Sensible(call)
    ensures var (replies, between) := ServeAll(queue, first);
      var (more, after) := ServeAll(between, second);
      ServeAll(queue, first + second) == (replies + more, after)
  {
    hide Serve, Sensible;
    if second == [] {
      assert first + second == first;
      assert ServeAll(queue, first).0 + [] == ServeAll(queue, first).0;
    } else {
      var n := |second| - 1;
      assert (first + second)[..|first| + n] == first + second[..n];
      ServedInTurn(queue, first, second[..n]);
      var (replies, between) := ServeAll(queue, first);
      var (more, middle) := ServeAll(between, second[..n]);
      var reply := Serve(middle, second[n]).0;
      assert replies + (more + [reply]) == replies + more + [reply];
    }
  }

  lemma EncodeAllLast(values: seq<Typed>, v: Typed)
    requires AllInRange(values) && InRange(v.width, v.value)
    ensures EncodeAll(values + [v]) == EncodeAll(values) + Encode(v.width, v.value)
  {
    hide Encode, InRange;
    if values == [] {
      assert values + [v] == [v] && EncodeAll([]) == [];
    } else {
      assert (values + [v])[1..] == values[1..] + [v];
      EncodeAllLast(values[1..], v);
    }
  }

  lemma {:induction false} AppendsServed(queue: seq<byte>, values: seq<Typed>, k: nat)
    requires AllInRange(values) && k <= |values|
    ensures forall call :: call in Appends(values) ==> Sensible(call)
    ensures ServeAll(queue, Appends(values)[..k]) == (Dones(k), queue + EncodeAll(values[..k]))
  {
    hide Encode, InRange, EncodeAll, ServeAll;
    TypedSensible(values);
    if k == 0 {
      NoCalls(queue);
      NothingEncoded();
      assert Appends(values)[..0] == [] && values[..0] == [] && queue + [] == queue && Dones(0) == [];
    } else {
      AppendsServed(queue, values, k - 1);
      ServeOneMore(queue, Appends(values), k - 1);
      EncodeAllLast(values[..k - 1], values[k - 1]);
      var v := values[k - 1];
      assert values[..k] == values[..k - 1] + [v] && Dones(k) == Dones(k - 1) + [Done];
      assert queue + EncodeAll(values[..k - 1]) + Encode(v.width, v.value) == queue + EncodeAll(values[..k]);
    }
  }

  lemma NothingEncoded()
    ensures EncodeAll([]) == []
  {
  }

  lemma {:induction false} GetsServed(values: seq<Typed>, k: nat)
    requires AllInRange(values) && k <= |values|
    ensures forall call :: call in Gets(values) ==> Sensible(call)
    ensures ServeAll(EncodeAll(values), Gets(values)[..k]) == (Numbers(values)[..k], EncodeAll(values[k..]))
  {
    hide Encode, InRange, EncodeAll, ServeAll, Decode;
    TypedSensible(values);
    if k == 0 {
      NoCalls(EncodeAll(values));
      assert Gets(values)[..0] == [] && values[0..] == values && Numbers(values)[..0] == [];
    } else {
      var v := values[k - 1];
      GetsServed(values, k - 1);
      ServeOneMore(EncodeAll(values), Gets(values), k - 1);
      EncodeAllFirst(values, k - 1);
      IntRoundTrip(v.width, v.value);
      var before := EncodeAll(values[k - 1..]);
      assert Numbers(values)[..k] == Numbers(values)[..k - 1] + [Integer(v.value)];
      assert before[..v.width] == Encode(v.width, v.value) && before[v.width..] == EncodeAll(values[k..]);
    }
  }

  lemma EncodeAllFirst(values: seq<Typed>, k: nat)
    requires AllInRange(values) && k < |values|
    ensures EncodeAll(values[k..]) == Encode(values[k].width, values[k].value) + EncodeAll(values[k + 1..])
  {
    assert values[k..][1..] == values[k + 1..];
  }

  /** On an empty buffer, any list of typed appends followed by the gets of the same widths gives the
    values back, and leaves the buffer empty. */
  lemma TypedCalls(values: seq<Typed>)
    requires AllInRange(values)
    ensures forall call :: call in Appends(values) + Gets(values) ==> Sensible(call)
    ensures ServeAll([], Appends(values) + Gets(values)) == (Dones(|values|) + Numbers(values), [])
  {
    hide Encode, InRange, EncodeAll, ServeAll;
    var n := |values|;
    TypedSensible(values);
    AppendsServed([], values, n);
    GetsServed(values, n);
    NothingEncoded();
    assert Appends(values)[..n] == Appends(values) && Gets(values)[..n] == Gets(values);
    assert values[..n] == values && values[n..] == [] && Numbers(values)[..n] == Numbers(values);
    assert [] + EncodeAll(values) == EncodeAll(values);
    ServedInTurn([], Appends(values), Gets(values));
  }
}

/** The sending side of a connection: write at once if nothing waits, else buffer and wait for the socket. */
module TcpConnection {
  import opened Buffer
  import opened Bytes
  import opened OutputStream

  const EPOLLIN: bv32 := 1
  const EPOLLOUT: bv32 := 4

  /** The interest mask; telling the kernel of a change is not modelled. */
  class Trigger {
    var events: bv32

    constructor ()
      ensures !IsLikeReading() && !IsLikeWriting()
    {
      // EPOLLET
      events := 0x8000_0000;
    }

    predicate IsLikeReading() reads this { events & EPOLLIN != 0 }
    predicate IsLikeWriting() reads this { events & EPOLLOUT != 0 }

    method LikeWriting()
      modifies this
      ensures IsLikeWriting() && IsLikeReading() == old(IsLikeReading())
    {
      events := events | EPOLLOUT;
    }

    method OmitWriting()
      modifies this
      ensures !IsLikeWriting() && IsLikeReading() == old(IsLikeReading())
    {
      events := events & !EPOLLOUT;
    }
  }

  /** Calls on the sending side of a connection. */
  datatype Call = CallSend(data: seq<byte>) | CallHandleWrite | CallShutdown

  /** An event of the abstract run that a call may lead to, depending on what the kernel takes. */
  predicate Answers(call: Call, e: Event) {
    match call
    case CallSend(data) => e.Sent? && e.data == data
    case CallHandleWrite => e.Writable?
    case CallShutdown => e.ShutdownInLoop?
  }

  class TcpConnection {
    const tg: Trigger
    const fd: Socket
    const outputBuffer: Buffer
    ghost var accepted: seq<byte>
    var completions: nat

    ghost predicate Valid()
      reads this, outputBuffer
    {
      outputBuffer.Valid()
    }

    ghost function View(): Out
      requires Valid()
      reads this, tg, fd, outputBuffer, outputBuffer.buf
    {
      Out(fd.sent, outputBuffer.Contents(), accepted, tg.IsLikeWriting(), completions, fd.writeClosed)
    }

    constructor ()
      ensures Valid() && View() == START
      ensures fresh(tg) && fresh(fd) && fresh(outputBuffer) && fresh(outputBuffer.buf)
    {
      tg := new Trigger();
      fd := new Socket();
      outputBuffer := new Buffer(1024);
      accepted, completions := [], 0;
    }

    /** The output buffer has room for whatever the kernel may leave behind. */
    predicate Sendable(len: nat)
      requires Valid()
      reads this, tg, outputBuffer
    {
      if !tg.IsLikeWriting() && outputBuffer.ReadableBytes() == 0 then len > 0 ==> outputBuffer.Fits(len - 1)
      else outputBuffer.Fits(len)
    }

    method Send(data: seq<byte>) returns (ghost taken: int)
      requires Valid() && Sendable(|data|)
      modifies this, tg, fd`sent, fd`writeCalls, outputBuffer, outputBuffer.buf
      ensures Valid() && (outputBuffer.buf == old(outputBuffer.buf) || fresh(outputBuffer.buf))
      ensures taken <= |data| && View() == OutputStream.Send(old(View()), data, taken)
      ensures fd.writeCalls == old(fd.writeCalls) + if Direct(old(View())) then [(data, taken)] else []
    {
      var flag, n, remain := true, 0, |data|;
      taken := 0;
      if !tg.IsLikeWriting() && outputBuffer.ReadableBytes() == 0 {
        n := fd.Write(data);
        taken := n;
        if n > 0 {
          remain := |data| - n;
          if remain == 0 {
            completions := completions + 1;
          }
        } else {
          n := 0;
          flag := false;
        }
      }
      if flag && remain > 0 {
        outputBuffer.Append(data[n..]);
        if !tg.IsLikeWriting() {
          tg.LikeWriting();
        }
      }
      if flag {
        accepted := accepted + data;
      }
    }

    method HandleWrite() returns (ghost taken: int)
      requires Valid()
      modifies this, tg, fd`sent, fd`writeCalls, outputBuffer
      ensures Valid() && outputBuffer.buf == old(outputBuffer.buf)
      ensures taken <= |old(View()).pending| && View() == OutputStream.HandleWrite(old(View()), taken)
      ensures fd.writeCalls == old(fd.writeCalls) + [(old(View()).pending, taken)]
    {
      ghost var waiting := outputBuffer.Contents();
      var n := outputBuffer.WriteTo(fd, outputBuffer.ReadableBytes());
      assert waiting[..|waiting|] == waiting;
      taken := n;
      if n > 0 {
        if outputBuffer.ReadableBytes() == 0 {
          tg.OmitWriting();
          completions := completions + 1;
        }
      }
    }

    method ShutdownInLoop()
      requires Valid()
      modifies fd`writeClosed
      ensures Valid() && View() == Shutdown(old(View()))
    {
      if !tg.IsLikeWriting() {
        fd.ShutdownWrite();
      }
    }

    /** Any calls in a row are a run of the abstract stream, as long as there is room for what is sent. */
    method RunAll(calls: seq<Call>) returns (served: nat, ghost events: seq<Event>, ghost states: seq<Out>)
      requires Valid() && View() == START
      modifies this, tg, fd, outputBuffer, outputBuffer.buf
      ensures Valid() && served <= |calls|
      ensures served < |calls| ==> calls[served].CallSend? && !Sendable(|calls[served].data|)
      ensures |events| == served && forall i :: 0 <= i < served ==> Answers(calls[i], events[i])
      ensures OutputStream.Run(events, states) && states[served] == View()
    {
      served, events, states := 0, [], [View()];
      while served < |calls|
        invariant Valid() && served <= |calls| && (outputBuffer.buf == old(outputBuffer.buf) || fresh(outputBuffer.buf))
        invariant |events| == served && forall i :: 0 <= i < served ==> Answers(calls[i], events[i])
        invariant OutputStream.Run(events, states) && states[served] == View()
      {
        if calls[served].CallSend? && !Sendable(|calls[served].data|) {
          return;
        }
        ghost var e;
        match calls[served] {
          case CallSend(data) =>
            ghost var taken := Send(data);
            e := Sent(data, taken);
          case CallHandleWrite =>
            ghost var taken := HandleWrite();
            e := Writable(taken);
          case CallShutdown =>
            ShutdownInLoop();
            e := Event.ShutdownInLoop;
        }
        RunOneMore(events, states, e, View());
        events, states := events + [e], states + [View()];
        served := served + 1;
      }
    }
  }
}

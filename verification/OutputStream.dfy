/** What a connection owes its peer: the bytes sent and accepted, on the wire or still waiting. */
module OutputStream {
  import opened Buffer
  import opened Bytes
  import opened Seqs

  /** `wire`: what the kernel has taken; `pending`: the readable output buffer; `accepted`: all the
    bytes that `send` did not refuse; `completions`: runs of the write-completed callback. */
  datatype Out = Out(wire: seq<byte>, pending: seq<byte>, accepted: seq<byte>,
    likesWriting: bool, completions: nat, closed: bool)

  const START := Out([], [], [], false, 0, false)

  predicate Direct(o: Out) { !o.likesWriting && o.pending == [] }

  /** `send`, the kernel having taken `n` bytes if it was asked at all. */
  function Send(o: Out, data: seq<byte>, n: int): Out
    requires n <= |data|
  {
    if Direct(o) then
      if n > 0 then
        o.(wire := o.wire + data[..n], pending := data[n..], accepted := o.accepted + data,
           likesWriting := n < |data|, completions := o.completions + if n == |data| then 1 else 0)
      else o
    else if data == [] then o
    else o.(pending := o.pending + data, accepted := o.accepted + data, likesWriting := true)
  }

  /** `handleWrite`, the kernel having taken `n` bytes. */
  function HandleWrite(o: Out, n: int): Out
    requires n <= |o.pending|
  {
    if n > 0 then
      o.(wire := o.wire + o.pending[..n], pending := o.pending[n..],
         likesWriting := o.likesWriting && n < |o.pending|,
         completions := o.completions + if n == |o.pending| then 1 else 0)
    else o
  }

  function Shutdown(o: Out): Out { if o.likesWriting then o else o.(closed := true) }

  // ---- Runs ----

  datatype Event = Sent(data: seq<byte>, n: int) | Writable(n: int) | ShutdownInLoop

  predicate Possible(o: Out, e: Event) {
    match e case Sent(data, n) => n <= |data| case Writable(n) => n <= |o.pending| case ShutdownInLoop => true
  }

  function Step(o: Out, e: Event): Out
    requires Possible(o, e)
  {
    match e
    case Sent(data, n) => Send(o, data, n)
    case Writable(n) => HandleWrite(o, n)
    case ShutdownInLoop => Shutdown(o)
  }

  /** The outputs of a run, one for each moment between events. */
  ghost predicate Run(events: seq<Event>, states: seq<Out>) {
    && |states| == |events| + 1 && states[0] == START
    && (forall i :: 0 <= i < |events| ==> Possible(states[i], events[i]) && states[i + 1] == Step(states[i], events[i]))
  }

  lemma RunOneMore(events: seq<Event>, states: seq<Out>, e: Event, o: Out)
    requires Run(events, states) && Possible(states[|events|], e) && o == Step(states[|events|], e)
    ensures Run(events + [e], states + [o])
  {
  }

  ghost predicate Sound(o: Out) { o.wire + o.pending == o.accepted && (o.likesWriting <==> o.pending != []) }

  lemma StepKeepsSound(o: Out, e: Event)
    requires Sound(o) && Possible(o, e)
    ensures Sound(Step(o, e)) && o.wire <= Step(o, e).wire
    ensures !o.closed && Step(o, e).closed ==> o.pending == [] && o.wire == o.accepted
  {
    match e
    case Sent(data, n) =>
      if Direct(o) {
        if n > 0 { assert o.accepted + data == o.wire + data[..n] + data[n..]; }
      } else {
        assert o.wire + (o.pending + data) == (o.wire + o.pending) + data;
      }
    case Writable(n) =>
      if n > 0 { assert o.wire + o.pending == o.wire + o.pending[..n] + o.pending[n..]; }
    case ShutdownInLoop =>
  }

  /** Stream integrity, in every run: what is on the wire followed by what is waiting is exactly what
    was accepted, in order; write interest is on exactly while something waits; what is on the wire
    is never taken back; and the stream is closed for writing only when nothing waits. */
  lemma {:induction false} StreamIntegrity(events: seq<Event>, states: seq<Out>, i: nat)
    requires Run(events, states) && i < |states|
    ensures states[i].wire + states[i].pending == states[i].accepted
    ensures states[i].likesWriting <==> states[i].pending != []
    ensures i > 0 ==> states[i - 1].wire <= states[i].wire
    ensures i > 0 && !states[i - 1].closed && states[i].closed ==>
      states[i].pending == [] && states[i].wire == states[i].accepted
  {
    if i > 0 {
      StreamIntegrity(events, states, i - 1);
      StepKeepsSound(states[i - 1], events[i - 1]);
    }
  }

  // ---- The stream, told by the events alone ----

  /** What the kernel takes at an event, `waiting` being what is still to be written then. */
  function Taken(e: Event, waiting: seq<byte>): seq<byte>
    requires match e case Sent(data, n) => n <= |data| case Writable(n) => n <= |waiting| case ShutdownInLoop => true
  {
    match e
    case Sent(data, n) => if waiting == [] && n > 0 then data[..n] else []
    case Writable(n) => if n > 0 then waiting[..n] else []
    case ShutdownInLoop => []
  }

  /** What `send` is given at an event, unless the kernel is asked at once and takes nothing. */
  function Given(e: Event, waiting: seq<byte>): seq<byte> {
    match e
    case Sent(data, n) => if waiting == [] && n <= 0 then [] else data
    case _ => []
  }

  /** All that was given in the first `i` events. */
  function AllGiven(events: seq<Event>, states: seq<Out>, i: nat): seq<byte>
    requires i <= |events| < |states|
  {
    if i == 0 then [] else AllGiven(events, states, i - 1) + Given(events[i - 1], states[i - 1].pending)
  }

  /** The kernel takes bytes from the front of what is waiting with the new data behind it; nothing else
    leaves, and the rest goes on waiting. */
  lemma KernelTakes(o: Out, e: Event)
    requires Sound(o) && Possible(o, e)
    ensures var o', taken := Step(o, e), Taken(e, o.pending);
      && o'.wire == o.wire + taken
      && taken + o'.pending == o.pending + Given(e, o.pending)
      && (e.ShutdownInLoop? ==> o'.pending == o.pending)
  {
    match e
    case Sent(data, n) =>
      if o.pending == [] && n > 0 { assert data == data[..n] + data[n..]; }
    case Writable(n) =>
      if n > 0 { assert o.pending == o.pending[..n] + o.pending[n..]; }
    case ShutdownInLoop =>
  }

  lemma {:induction false} AlwaysSound(events: seq<Event>, states: seq<Out>, i: nat)
    requires Run(events, states) && i < |states|
    ensures Sound(states[i])
  {
    if i > 0 {
      AlwaysSound(events, states, i - 1);
      StepKeepsSound(states[i - 1], events[i - 1]);
    }
  }

  /** In every run, what is on the wire followed by what is waiting is, in order, the data of all calls of
    `send`, except those made when nothing was waiting and of which the kernel took nothing. */
  lemma {:induction false} SentInOrder(events: seq<Event>, states: seq<Out>, i: nat)
    requires Run(events, states) && i < |states|
    ensures states[i].wire + states[i].pending == AllGiven(events, states, i)
  {
    if i > 0 {
      var o, o', e := states[i - 1], states[i], events[i - 1];
      SentInOrder(events, states, i - 1);
      AlwaysSound(events, states, i - 1);
      hide Step, Taken, Given, Sound;
      KernelTakes(o, e);
      Reassociate(o.wire, Taken(e, o.pending), o'.pending);
      Reassociate(o.wire, o.pending, Given(e, o.pending));
    }
  }

  /** The last byte that was waiting, or the whole of a send, goes to the kernel at this event. */
  predicate Completes(e: Event, waiting: seq<byte>) {
    match e
    case Sent(data, n) => waiting == [] && 0 < n == |data|
    case Writable(n) => 0 < n == |waiting|
    case ShutdownInLoop => false
  }

  function CountCompletes(events: seq<Event>, states: seq<Out>, i: nat): nat
    requires i <= |events| < |states|
  {
    if i == 0 then 0
    else CountCompletes(events, states, i - 1) + if Completes(events[i - 1], states[i - 1].pending) then 1 else 0
  }

  /** In every run, the write-completed callback runs once for each event that leaves nothing waiting of what
    was sent, and the stream is closed for writing just when a shutdown has come while nothing was waiting. */
  lemma {:induction false} CompletedAndClosed(events: seq<Event>, states: seq<Out>, i: nat)
    requires Run(events, states) && i < |states|
    ensures states[i].completions == CountCompletes(events, states, i)
    ensures states[i].closed <==> exists j :: 0 <= j < i && events[j].ShutdownInLoop? && states[j].pending == []
  {
    if i > 0 {
      CompletedAndClosed(events, states, i - 1);
      AlwaysSound(events, states, i - 1);
    }
  }
}

/** The readers-writer lock: one mutex, one condition variable for readers and one for writers, and
  writers go first. Threads are any number; a sleeping thread may wake for no reason.
*/
module RWLock {
  import opened Options
  import opened Sets

  type Tid = nat

  /** A stretch of code run with the mutex held. `RdWake` and `WrWake` resume a `wait`. */
  datatype Section = RdLock | RdWake | RdUnlock | WrLock | WrWake | WrUnlock

  datatype Phase =
    | Idle
    | Wants(section: Section)
    | Inside(section: Section)
    | RdAsleep
    | WrAsleep
    | RdHolds
    | WrHolds

  datatype State = State(rcnt: int, wcnt: int, wflag: bool, mutex: Option<Tid>, phases: map<Tid, Phase>)
  {
    function At(t: Tid): Phase { if t in phases then phases[t] else Idle }

    function To(t: Tid, p: Phase): State { this.(phases := phases[t := p]) }
  }

  const INIT := State(0, 0, false, None, map[])

  // ---- Who is doing what ----

  /** Has the read lock, until its unlock section is done. */
  predicate Reads(p: Phase) { p == RdHolds || p == Wants(RdUnlock) || p == Inside(RdUnlock) }

  /** Has the write lock, until its unlock section is done. */
  predicate Writes(p: Phase) { p == WrHolds || p == Wants(WrUnlock) || p == Inside(WrUnlock) }

  /** A writer that was asleep and has been woken. */
  predicate WokenWriter(p: Phase) { p == Wants(WrWake) || p == Inside(WrWake) }

  predicate SleepsAsReader(p: Phase) { p == RdAsleep }
  predicate SleepsAsWriter(p: Phase) { p == WrAsleep }

  /** A writer that has announced itself: waiting or holding. */
  predicate Announced(p: Phase) { Writes(p) || WokenWriter(p) || SleepsAsWriter(p) }

  function Those(s: State, has: Phase -> bool): set<Tid> { set t | t in s.phases && has(s.phases[t]) }

  /** How many threads are in each standing. */
  datatype Tally = Tally(readers: nat, writers: nat, wokenWriters: nat, sleepingReaders: nat, sleepingWriters: nat)

  function TallyOf(s: State): Tally {
    Tally(|Those(s, Reads)|, |Those(s, Writes)|, |Those(s, WokenWriter)|,
      |Those(s, SleepsAsReader)|, |Those(s, SleepsAsWriter)|)
  }

  // ---- Steps ----

  datatype Step =
    | CallRdLock(t: Tid) | CallRdUnlock(t: Tid) | CallWrLock(t: Tid) | CallWrUnlock(t: Tid)
    | Acquire(t: Tid)
    | Run(t: Tid, woken: Tid)
    | Spurious(t: Tid)

  /** `notify_one` on the writers' condition variable: wakes one of the sleepers, if there are any. */
  function NotifyWriter(s: State, w: Tid): State {
    if s.At(w) == WrAsleep then s.To(w, Wants(WrWake)) else s
  }

  /** `notify_all` on the readers' condition variable. */
  function NotifyReaders(s: State): State {
    s.(phases := map t | t in s.phases :: if s.phases[t] == RdAsleep then Wants(RdWake) else s.phases[t])
  }

  function TryRead(s: State, t: Tid): State {
    if s.wcnt == 0 then s.To(t, RdHolds).(rcnt := s.rcnt + 1) else s.To(t, RdAsleep)
  }

  function TryWrite(s: State, t: Tid): State {
    if s.rcnt == 0 && !s.wflag then s.To(t, WrHolds).(wflag := true) else s.To(t, WrAsleep)
  }

  /** The section that `t` is inside, up to the release of the mutex. */
  function Body(s: State, t: Tid, section: Section, woken: Tid): State {
    match section
    case RdLock => TryRead(s, t)
    case RdWake => TryRead(s, t)
    case RdUnlock =>
      var s' := s.To(t, Idle).(rcnt := s.rcnt - 1);
      if s'.rcnt == 0 && s'.wcnt > 0 then NotifyWriter(s', woken) else s'
    case WrLock => TryWrite(s.(wcnt := s.wcnt + 1), t)
    case WrWake => TryWrite(s, t)
    case WrUnlock =>
      var s' := s.To(t, Idle).(wcnt := s.wcnt - 1);
      (if s'.wcnt == 0 then NotifyReaders(s') else NotifyWriter(s', woken)).(wflag := false)
  }

  ghost predicate Enabled(s: State, step: Step) {
    match step
    case CallRdLock(t) => s.At(t) == Idle
    case CallRdUnlock(t) => s.At(t) == RdHolds
    case CallWrLock(t) => s.At(t) == Idle
    case CallWrUnlock(t) => s.At(t) == WrHolds
    case Acquire(t) => s.At(t).Wants? && s.mutex == None
    case Run(t, woken) => s.At(t).Inside? && (Those(s, SleepsAsWriter) != {} ==> s.At(woken) == WrAsleep)
    case Spurious(t) => s.At(t) == RdAsleep || s.At(t) == WrAsleep
  }

  function Next(s: State, step: Step): State {
    match step
    case CallRdLock(t) => s.To(t, Wants(RdLock))
    case CallRdUnlock(t) => s.To(t, Wants(RdUnlock))
    case CallWrLock(t) => s.To(t, Wants(WrLock))
    case CallWrUnlock(t) => s.To(t, Wants(WrUnlock))
    case Acquire(t) => if s.At(t).Wants? then s.To(t, Inside(s.At(t).section)).(mutex := Some(t)) else s
    case Run(t, woken) => if s.At(t).Inside? then Body(s, t, s.At(t).section, woken).(mutex := None) else s
    case Spurious(t) => s.To(t, Wants(if s.At(t) == RdAsleep then RdWake else WrWake))
  }

  // ---- Invariant ----

  /** The counters count, readers and writers exclude each other, and no wakeup is lost: readers
    sleep only while a writer is announced, and anyone sleeps only while some thread has the lock or
    some writer is awake again. */
  ghost predicate InOrder(s: State, c: Tally) {
    && s.rcnt == c.readers && s.wcnt == c.writers + c.wokenWriters + c.sleepingWriters
    && (s.wflag <==> c.writers > 0)
    && c.writers <= 1 && (c.readers > 0 ==> c.writers == 0)
    && (c.sleepingReaders > 0 ==> s.wcnt > 0)
    && (c.sleepingReaders + c.sleepingWriters > 0 ==> c.readers + c.writers + c.wokenWriters > 0)
  }

  ghost predicate MutexHeld(s: State) {
    forall t: Tid :: s.At(t).Inside? <==> s.mutex == Some(t)
  }

  ghost predicate Inv(s: State) {
    InOrder(s, TallyOf(s)) && MutexHeld(s)
  }

  // ---- Counting ----

  function One(b: bool): int { if b then 1 else 0 }

  lemma OneMoved<T>(before: set<T>, after: set<T>, t: T)
    requires before - {t} == after - {t}
    ensures |after| == |before| - One(t in before) + One(t in after)
  {
    var others := before - {t};
    assert before == if t in before then others + {t} else others;
    assert after == if t in after then others + {t} else others;
  }

  lemma ThoseTo(s: State, t: Tid, p: Phase, has: Phase -> bool, u: Tid)
    requires !has(Idle)
    ensures t in Those(s, has) <==> has(s.At(t))
    ensures u in Those(s.To(t, p), has) <==> if u == t then has(p) else u in Those(s, has)
  {
  }

  lemma CountTo(s: State, t: Tid, p: Phase, has: Phase -> bool)
    requires !has(Idle)
    ensures |Those(s.To(t, p), has)| == |Those(s, has)| - One(has(s.At(t))) + One(has(p))
    ensures has(s.At(t)) ==> |Those(s, has)| > 0
  {
    hide Those;
    var before, after := Those(s, has), Those(s.To(t, p), has);
    forall u ensures u in after <==> if u == t then has(p) else u in before {
      ThoseTo(s, t, p, has, u);
    }
    ThoseTo(s, t, p, has, t);
    OneMoved(before, after, t);
  }

  /** Moving one thread moves it from one count to another. */
  lemma Moves(s: State, t: Tid, p: Phase)
    ensures var c, c' := TallyOf(s), TallyOf(s.To(t, p));
      && c'.readers == c.readers - One(Reads(s.At(t))) + One(Reads(p))
      && c'.writers == c.writers - One(Writes(s.At(t))) + One(Writes(p))
      && c'.wokenWriters == c.wokenWriters - One(WokenWriter(s.At(t))) + One(WokenWriter(p))
      && c'.sleepingReaders == c.sleepingReaders - One(s.At(t) == RdAsleep) + One(p == RdAsleep)
      && c'.sleepingWriters == c.sleepingWriters - One(s.At(t) == WrAsleep) + One(p == WrAsleep)
  {
    CountTo(s, t, p, Reads);
    CountTo(s, t, p, Writes);
    CountTo(s, t, p, WokenWriter);
    CountTo(s, t, p, SleepsAsReader);
    CountTo(s, t, p, SleepsAsWriter);
  }

  /** The tally depends on the phases only. */
  lemma SameTally(s: State, s': State)
    requires s.phases == s'.phases
    ensures TallyOf(s') == TallyOf(s)
  {
  }

  lemma NotifyWriterTally(s: State, w: Tid)
    requires Those(s, SleepsAsWriter) != {} ==> s.At(w) == WrAsleep
    ensures var c, s' := TallyOf(s), NotifyWriter(s, w);
      && s' == s.(phases := s'.phases)
      && TallyOf(s') == if c.sleepingWriters > 0
           then c.(sleepingWriters := c.sleepingWriters - 1, wokenWriters := c.wokenWriters + 1) else c
  {
    Moves(s, w, Wants(WrWake));
    if s.At(w) == WrAsleep {
      assert w in Those(s, SleepsAsWriter);
    } else {
      assert |Those(s, SleepsAsWriter)| == 0;
    }
  }

  lemma NotifyReadersTally(s: State)
    ensures var s' := NotifyReaders(s);
      s' == s.(phases := s'.phases) && TallyOf(s') == TallyOf(s).(sleepingReaders := 0)
  {
    var s' := NotifyReaders(s);
    assert Those(s', Reads) == Those(s, Reads);
    assert Those(s', Writes) == Those(s, Writes);
    assert Those(s', WokenWriter) == Those(s, WokenWriter);
    assert Those(s', SleepsAsWriter) == Those(s, SleepsAsWriter);
    assert Those(s', SleepsAsReader) == {};
  }

  // ---- Every step keeps the invariant ----

  /** The mutex passes from hand to hand. */
  lemma MutexKept(s: State, step: Step)
    requires MutexHeld(s) && Enabled(s, step)
    ensures MutexHeld(Next(s, step))
  {
  }

  /** Waiting for a section, or entering one, changes nobody's standing; a spurious wakeup only helps. */
  lemma CallKeepsOrder(s: State, step: Step)
    requires InOrder(s, TallyOf(s)) && Enabled(s, step) && !step.Run?
    ensures var s' := Next(s, step); InOrder(s', TallyOf(s'))
  {
    hide TallyOf, Those;
    var s' := Next(s, step);
    Moves(s, step.t, s'.At(step.t));
    SameTally(s.To(step.t, s'.At(step.t)), s');
  }

  lemma TryReadKeepsOrder(s: State, t: Tid)
    requires InOrder(s, TallyOf(s)) && s.At(t).Inside? && s.At(t).section in {RdLock, RdWake}
    ensures var s' := TryRead(s, t); InOrder(s', TallyOf(s'))
  {
    hide TallyOf, Those;
    var s' := TryRead(s, t);
    Moves(s, t, s'.At(t));
    SameTally(s.To(t, s'.At(t)), s');
  }

  /** `s` is the state with the writer already announced. */
  lemma TryWriteKeepsOrder(s: State, t: Tid)
    requires s.At(t) == Inside(WrLock) || s.At(t) == Inside(WrWake)
    requires InOrder(s.(wcnt := s.wcnt - One(s.At(t) == Inside(WrLock))), TallyOf(s))
    ensures var s' := TryWrite(s, t); InOrder(s', TallyOf(s'))
  {
    hide TallyOf, Those;
    var s' := TryWrite(s, t);
    Moves(s, t, s'.At(t));
    SameTally(s.To(t, s'.At(t)), s');
  }

  /** The last reader out wakes a writer. */
  lemma RdUnlockKeepsOrder(s: State, t: Tid, woken: Tid)
    requires InOrder(s, TallyOf(s)) && s.At(t) == Inside(RdUnlock)
    requires Those(s, SleepsAsWriter) != {} ==> s.At(woken) == WrAsleep
    ensures var s' := Body(s, t, RdUnlock, woken); InOrder(s', TallyOf(s'))
  {
    var m := s.To(t, Idle).(rcnt := s.rcnt - 1);
    SleepersStay(s, m, t, woken);
    hide TallyOf, Those, NotifyWriter;
    Moves(s, t, Idle);
    SameTally(s.To(t, Idle), m);
    NotifyWriterTally(m, woken);
  }

  lemma SleepersStay(s: State, m: State, t: Tid, woken: Tid)
    requires s.At(t) != WrAsleep && m.phases == s.To(t, Idle).phases
    requires Those(s, SleepsAsWriter) != {} ==> s.At(woken) == WrAsleep
    ensures Those(m, SleepsAsWriter) != {} ==> m.At(woken) == WrAsleep
  {
    assert Those(m, SleepsAsWriter) == Those(s, SleepsAsWriter);
  }

  /** The last writer out wakes all readers, any other the next writer. */
  lemma WrUnlockKeepsOrder(s: State, t: Tid, woken: Tid)
    requires InOrder(s, TallyOf(s)) && s.At(t) == Inside(WrUnlock)
    requires Those(s, SleepsAsWriter) != {} ==> s.At(woken) == WrAsleep
    ensures var s' := Body(s, t, WrUnlock, woken); InOrder(s', TallyOf(s'))
  {
    var m := s.To(t, Idle).(wcnt := s.wcnt - 1);
    SleepersStay(s, m, t, woken);
    hide TallyOf, Those, NotifyWriter, NotifyReaders;
    Moves(s, t, Idle);
    SameTally(s.To(t, Idle), m);
    NotifyWriterTally(m, woken);
    NotifyReadersTally(m);
    var d := if m.wcnt == 0 then NotifyReaders(m) else NotifyWriter(m, woken);
    SameTally(d, d.(wflag := false));
  }

  lemma RunKeepsOrder(s: State, t: Tid, woken: Tid)
    requires InOrder(s, TallyOf(s)) && Enabled(s, Run(t, woken))
    ensures var s' := Next(s, Run(t, woken)); InOrder(s', TallyOf(s'))
  {
    hide TallyOf, Those, TryRead, TryWrite, NotifyWriter, NotifyReaders;
    var section := s.At(t).section;
    match section {
      case RdLock => TryReadKeepsOrder(s, t);
      case RdWake => TryReadKeepsOrder(s, t);
      case RdUnlock => RdUnlockKeepsOrder(s, t, woken);
      case WrLock =>
        SameTally(s, s.(wcnt := s.wcnt + 1));
        TryWriteKeepsOrder(s.(wcnt := s.wcnt + 1), t);
      case WrWake => TryWriteKeepsOrder(s, t);
      case WrUnlock => WrUnlockKeepsOrder(s, t, woken);
    }
    SameTally(Body(s, t, section, woken), Next(s, Run(t, woken)));
  }

  lemma NextKeepsInv(s: State, step: Step)
    requires Inv(s) && Enabled(s, step)
    ensures Inv(Next(s, step))
  {
    hide InOrder, MutexHeld, TallyOf;
    MutexKept(s, step);
    if step.Run? {
      RunKeepsOrder(s, step.t, step.woken);
    } else {
      CallKeepsOrder(s, step);
    }
  }

  // ---- Runs ----

  function After(schedule: seq<Step>): State {
    if schedule == [] then INIT else Next(After(schedule[..|schedule| - 1]), schedule[|schedule| - 1])
  }

  ghost predicate Allowed(schedule: seq<Step>) {
    schedule == [] ||
    (Allowed(schedule[..|schedule| - 1]) && Enabled(After(schedule[..|schedule| - 1]), schedule[|schedule| - 1]))
  }

  lemma {:induction false} AlwaysInv(schedule: seq<Step>)
    requires Allowed(schedule)
    ensures Inv(After(schedule))
  {
    if schedule != [] {
      AlwaysInv(schedule[..|schedule| - 1]);
      NextKeepsInv(After(schedule[..|schedule| - 1]), schedule[|schedule| - 1]);
    }
  }

  lemma Single(s: State, has: Phase -> bool, t: Tid, u: Tid)
    requires |Those(s, has)| <= 1 && !has(Idle) && has(s.At(t)) && has(s.At(u))
    ensures t == u
  {
    if t != u {
      assert {t, u} <= Those(s, has);
      SubsetSmaller({t, u}, Those(s, has));
    }
  }

  lemma Counts(s: State, has: Phase -> bool, t: Tid)
    requires !has(Idle) && has(s.At(t))
    ensures |Those(s, has)| > 0
  {
    assert t in Those(s, has);
  }

  /** Exclusion, in every schedule: never two writers, never a reader beside a writer. */
  lemma Exclusion(schedule: seq<Step>, t: Tid, u: Tid)
    requires Allowed(schedule) && Writes(After(schedule).At(t))
    ensures Writes(After(schedule).At(u)) ==> u == t
    ensures !Reads(After(schedule).At(u))
  {
    var s := After(schedule);
    AlwaysInv(schedule);
    Counts(s, Writes, t);
    if Writes(s.At(u)) {
      Single(s, Writes, t, u);
    }
    if Reads(s.At(u)) {
      Counts(s, Reads, u);
    }
  }

  lemma GetsReadLock(s: State, step: Step, r: Tid)
    requires Enabled(s, step) && !Reads(s.At(r)) && Reads(Next(s, step).At(r))
    ensures s.wcnt == 0 && Next(s, step).phases == s.phases[r := RdHolds]
  {
    if step.Run? {
      RunGetsReadLock(s, step.t, step.woken, r);
    }
  }

  lemma RunGetsReadLock(s: State, t: Tid, woken: Tid, r: Tid)
    requires s.At(t).Inside? && !Reads(s.At(r)) && Reads(Body(s, t, s.At(t).section, woken).At(r))
    ensures s.wcnt == 0 && Body(s, t, s.At(t).section, woken).phases == s.phases[r := RdHolds]
  {
    hide NotifyWriter, NotifyReaders, TryRead, TryWrite;
    TryMakesReader(s, t, r);
    TryMakesReader(s.(wcnt := s.wcnt + 1), t, r);
    NotifyMakesNoReader(s.To(t, Idle).(rcnt := s.rcnt - 1), woken, r);
    NotifyMakesNoReader(s.To(t, Idle).(wcnt := s.wcnt - 1), woken, r);
  }

  lemma TryMakesReader(s: State, t: Tid, r: Tid)
    requires !Reads(s.At(r))
    ensures !Reads(TryWrite(s, t).At(r))
    ensures Reads(TryRead(s, t).At(r)) ==> s.wcnt == 0 && TryRead(s, t).phases == s.phases[r := RdHolds]
  {
  }

  /** Nobody gets the read lock by being notified. */
  lemma NotifyMakesNoReader(s: State, w: Tid, r: Tid)
    ensures Reads(NotifyWriter(s, w).At(r)) ==> Reads(s.At(r))
    ensures Reads(NotifyReaders(s).At(r)) ==> Reads(s.At(r))
  {
  }

  lemma NoneAnnounced(s: State, w: Tid)
    requires Inv(s) && s.wcnt == 0
    ensures !Announced(s.At(w))
  {
    if Writes(s.At(w)) { Counts(s, Writes, w); }
    if WokenWriter(s.At(w)) { Counts(s, WokenWriter, w); }
    if SleepsAsWriter(s.At(w)) { Counts(s, SleepsAsWriter, w); }
  }

  /** Writer preference, in every schedule: a thread gets the read lock only at a moment when no
    writer is waiting or holding. */
  lemma WriterPreference(schedule: seq<Step>, step: Step, r: Tid, w: Tid)
    requires Allowed(schedule + [step])
    requires !Reads(After(schedule).At(r)) && Reads(After(schedule + [step]).At(r))
    ensures !Announced(After(schedule).At(w)) && !Announced(After(schedule + [step]).At(w))
  {
    hide Inv, Next, Enabled;
    assert (schedule + [step])[..|schedule|] == schedule;
    AlwaysInv(schedule);
    GetsReadLock(After(schedule), step, r);
    NoneAnnounced(After(schedule), w);
  }

  /** No lost wakeup, in every schedule, spurious wakeups included: while a thread sleeps, some thread
    has the lock or some writer has been woken; and readers sleep only while a writer is announced. */
  lemma NoLostWakeup(schedule: seq<Step>, sleeper: Tid) returns (u: Tid)
    requires Allowed(schedule)
    requires After(schedule).At(sleeper) == RdAsleep || After(schedule).At(sleeper) == WrAsleep
    ensures var p := After(schedule).At(u); Reads(p) || Writes(p) || WokenWriter(p)
    ensures After(schedule).wcnt > 0
  {
    var s := After(schedule);
    AlwaysInv(schedule);
    if SleepsAsReader(s.At(sleeper)) {
      Counts(s, SleepsAsReader, sleeper);
    } else {
      Counts(s, SleepsAsWriter, sleeper);
    }
    u := Member(s);
  }

  lemma Member(s: State) returns (u: Tid)
    requires var c := TallyOf(s); c.readers + c.writers + c.wokenWriters > 0
    ensures var p := s.At(u); Reads(p) || Writes(p) || WokenWriter(p)
  {
    if Those(s, Reads) != {} {
      u :| u in Those(s, Reads);
    } else if Those(s, Writes) != {} {
      u :| u in Those(s, Writes);
    } else {
      u :| u in Those(s, WokenWriter);
    }
  }

  /** The lock never gets stuck: when nobody has it, the mutex is free and some thread is waiting for
    it, then some thread gets it in two steps of its own. */
  lemma NeverStuck(schedule: seq<Step>, waiting: Tid) returns (u: Tid, v: Tid)
    requires Allowed(schedule) && After(schedule).mutex == None
    requires var s := After(schedule); Those(s, Reads) == {} && Those(s, Writes) == {}
    requires var p := After(schedule).At(waiting);
      p == RdAsleep || p == WrAsleep || p == Wants(RdLock) || p == Wants(RdWake) || p == Wants(WrLock)
        || p == Wants(WrWake)
    ensures var s := After(schedule);
      var s' := Next(s, Acquire(u));
      && Enabled(s, Acquire(u)) && Enabled(s', Run(u, v))
      && (Reads(Next(s', Run(u, v)).At(u)) || Writes(Next(s', Run(u, v)).At(u)))
  {
    hide After, Allowed, Next, Enabled, TallyOf;
    var s := After(schedule);
    AlwaysInv(schedule);
    NobodyHolds(s);
    u := waiting;
    if s.At(waiting) == RdAsleep || s.At(waiting) == WrAsleep {
      u := NoLostWakeup(schedule, waiting);
    } else if s.wcnt > 0 && (s.At(waiting) == Wants(RdLock) || s.At(waiting) == Wants(RdWake)) {
      u := Announcer(s);
    }
    NotInside(s, u);
    v := Target(s);
    TakesTurn(s, u, v);
  }

  lemma NobodyHolds(s: State)
    requires Inv(s) && Those(s, Reads) == {} && Those(s, Writes) == {}
    ensures s.rcnt == 0 && !s.wflag && forall u :: !Reads(s.At(u)) && !Writes(s.At(u))
  {
    forall u ensures !Reads(s.At(u)) && !Writes(s.At(u)) {
      if Reads(s.At(u)) { Counts(s, Reads, u); }
      if Writes(s.At(u)) { Counts(s, Writes, u); }
    }
  }

  /** While a writer is announced and nobody holds the lock, some writer is awake. */
  lemma Announcer(s: State) returns (u: Tid)
    requires Inv(s) && s.wcnt > 0
    ensures var p := s.At(u); Reads(p) || Writes(p) || WokenWriter(p)
  {
    u := Member(s);
  }

  lemma NotInside(s: State, u: Tid)
    requires Inv(s) && s.mutex == None
    ensures !s.At(u).Inside?
  {
  }

  /** A thread that may take the lock has it after two steps. */
  lemma TakesTurn(s: State, u: Tid, v: Tid)
    requires s.mutex == None && s.rcnt == 0 && !s.wflag && (Those(s, SleepsAsWriter) != {} ==> s.At(v) == WrAsleep)
    requires var p := s.At(u);
      p == Wants(WrWake) || p == Wants(WrLock) || ((p == Wants(RdLock) || p == Wants(RdWake)) && s.wcnt == 0)
    ensures var s' := Next(s, Acquire(u));
      && Enabled(s, Acquire(u)) && Enabled(s', Run(u, v))
      && (Reads(Next(s', Run(u, v)).At(u)) || Writes(Next(s', Run(u, v)).At(u)))
  {
    assert Those(Next(s, Acquire(u)), SleepsAsWriter) == Those(s, SleepsAsWriter);
  }

  /** Somebody for `notify_one` to wake, should anybody be asleep. */
  lemma Target(s: State) returns (v: Tid)
    ensures Those(s, SleepsAsWriter) != {} ==> s.At(v) == WrAsleep
  {
    v := 0;
    if Those(s, SleepsAsWriter) != {} {
      v :| v in Those(s, SleepsAsWriter);
    }
  }

}

/** What each step of the readers-writer lock does to the calls that are under way. */
module RWLockCalls {
  import opened Options
  import opened RWLock

  /** Inside `rdLock`: about to test, testing, or waiting to test again. */
  predicate InRdLock(p: Phase) {
    p == Wants(RdLock) || p == Inside(RdLock) || p == RdAsleep || p == Wants(RdWake) || p == Inside(RdWake)
  }

  predicate InWrLock(p: Phase) {
    p == Wants(WrLock) || p == Inside(WrLock) || p == WrAsleep || p == Wants(WrWake) || p == Inside(WrWake)
  }

  predicate InRdUnlock(p: Phase) { p == Wants(RdUnlock) || p == Inside(RdUnlock) }
  predicate InWrUnlock(p: Phase) { p == Wants(WrUnlock) || p == Inside(WrUnlock) }

  /** Each call ends in its own way only: locking with the lock, unlocking without it. */
  ghost predicate StaysOrEnds(p: Phase, p': Phase) {
    match p
    case Idle => p' == Idle || p' == Wants(RdLock) || p' == Wants(WrLock)
    case RdHolds => p' == RdHolds || p' == Wants(RdUnlock)
    case WrHolds => p' == WrHolds || p' == Wants(WrUnlock)
    case _ =>
      && (InRdLock(p) ==> InRdLock(p') || p' == RdHolds)
      && (InWrLock(p) ==> InWrLock(p') || p' == WrHolds)
      && (InRdUnlock(p) ==> InRdUnlock(p') || (p == Inside(RdUnlock) && p' == Idle))
      && (InWrUnlock(p) ==> InWrUnlock(p') || (p == Inside(WrUnlock) && p' == Idle))
  }

  /** The thread that takes a step goes on in its call or ends it as it should. */
  lemma OwnStep(s: State, step: Step)
    requires Enabled(s, step)
    ensures StaysOrEnds(s.At(step.t), Next(s, step).At(step.t))
  {
    hide Those;
  }

  /** A reader that tests has the lock just when no writer is announced, and sleeps otherwise. */
  lemma ReaderTests(s: State, t: Tid, woken: Tid)
    requires s.At(t) == Inside(RdLock) || s.At(t) == Inside(RdWake)
    ensures var s' := Next(s, Run(t, woken)); s'.At(t) == if s.wcnt == 0 then RdHolds else RdAsleep
  {
  }

  /** A writer that tests has the lock just when nobody has it, and sleeps otherwise. */
  lemma WriterTests(s: State, t: Tid, woken: Tid)
    requires s.At(t) == Inside(WrLock) || s.At(t) == Inside(WrWake)
    ensures var s' := Next(s, Run(t, woken)); s'.At(t) == if s.rcnt == 0 && !s.wflag then WrHolds else WrAsleep
  {
  }

  /** The step is that of the last writer, who wakes all readers. */
  predicate WakesReaders(s: State, step: Step) {
    step.Run? && s.At(step.t) == Inside(WrUnlock) && s.wcnt == 1
  }

  /** The step is that of the last reader, or of a writer that is not the last, who wakes one writer. */
  predicate WakesWriter(s: State, step: Step) {
    step.Run? && ((s.At(step.t) == Inside(RdUnlock) && s.rcnt == 1 && s.wcnt > 0)
                  || (s.At(step.t) == Inside(WrUnlock) && s.wcnt != 1))
  }

  /** A step moves another thread just by waking it when it is asleep: all readers, or the one writer. */
  lemma OtherStep(s: State, step: Step, u: Tid)
    requires Enabled(s, step) && u != step.t
    ensures Next(s, step).At(u) ==
      if s.At(u) == RdAsleep && WakesReaders(s, step) then Wants(RdWake)
      else if s.At(u) == WrAsleep && WakesWriter(s, step) && u == step.woken then Wants(WrWake)
      else s.At(u)
  {
    hide Those, Body;
    if step.Run? {
      OtherInSection(s, step.t, step.woken, u);
    }
  }

  lemma OtherInSection(s: State, t: Tid, woken: Tid, u: Tid)
    requires s.At(t).Inside? && u != t
    ensures Body(s, t, s.At(t).section, woken).At(u) ==
      if s.At(u) == RdAsleep && WakesReaders(s, Run(t, woken)) then Wants(RdWake)
      else if s.At(u) == WrAsleep && WakesWriter(s, Run(t, woken)) && u == woken then Wants(WrWake)
      else s.At(u)
  {
    hide NotifyWriter, NotifyReaders;
    Notified(s.To(t, Idle).(rcnt := s.rcnt - 1), woken, u);
    Notified(s.To(t, Idle).(wcnt := s.wcnt - 1), woken, u);
  }

  lemma Notified(s: State, w: Tid, u: Tid)
    ensures NotifyWriter(s, w).At(u) == if u == w && s.At(u) == WrAsleep then Wants(WrWake) else s.At(u)
    ensures NotifyReaders(s).At(u) == if s.At(u) == RdAsleep then Wants(RdWake) else s.At(u)
  {
  }

  /** In every schedule: whatever a step does to any thread, a call of `rdLock` or `wrLock` ends only with the
    lock, and the lock is given up only by unlocking. */
  lemma CallsEndWell(schedule: seq<Step>, step: Step, u: Tid)
    requires Allowed(schedule + [step])
    ensures StaysOrEnds(After(schedule).At(u), After(schedule + [step]).At(u))
  {
    hide Next, Enabled, Those;
    assert (schedule + [step])[..|schedule|] == schedule;
    if u == step.t {
      OwnStep(After(schedule), step);
    } else {
      OtherStep(After(schedule), step, u);
    }
  }
}

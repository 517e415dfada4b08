/**
 The sequencer makes progress: once nobody is at work, its own steps and the passing of time bring it through the
 wait for a lock, the dispatch of the slot's agent and the pauses to the next slot, each in its time.
 */
module LockProgress {
  import opened Options
  import opened Rotation
  import opened LockProtocol

  // ---------------------------------------------------------------- runs of the sequencer and the clock alone

  /** Steps of the sequencer's own loop, and time. */
  predicate IsLoopStep(step: Step) {
    step.Elapse? || step.Visit? || step.Wake? || step.Poll? || step.Dispatch? || step.Advance?
  }

  predicate OnlyLoops(steps: seq<Step>) {
    forall step | step in steps :: IsLoopStep(step)
  }

  /** Time and polls. */
  predicate OnlyWaits(steps: seq<Step>) {
    forall step: Step | step in steps :: step.Elapse? || step.Poll?
  }

  ghost predicate LoopReaches(c: Config, s: State, t: State) {
    exists steps :: IsRun(c, s, steps) && OnlyLoops(steps) && Final(c, s, steps) == t
  }

  /** Likewise without a visit, a dispatch or an advance: the wait loop alone. */
  ghost predicate WaitReaches(c: Config, s: State, t: State) {
    exists steps :: IsRun(c, s, steps) && OnlyWaits(steps) && Final(c, s, steps) == t
  }

  lemma WaitHere(c: Config, s: State)
    ensures WaitReaches(c, s, s)
  {
    assert IsRun(c, s, []) && Final(c, s, []) == s;
  }

  lemma WaitThen(c: Config, s: State, step: Step, t: State)
    requires Enabled(c, s, step) && (step.Elapse? || step.Poll?) && WaitReaches(c, Next(c, s, step), t)
    ensures WaitReaches(c, s, t)
  {
    var more :| IsRun(c, Next(c, s, step), more) && OnlyWaits(more)
                && Final(c, Next(c, s, step), more) == t;
    var steps := [step] + more;
    assert steps[1..] == more;
    assert IsRun(c, s, steps) && Final(c, s, steps) == t;
  }

  lemma LoopHere(c: Config, s: State)
    ensures LoopReaches(c, s, s)
  {
    assert IsRun(c, s, []) && Final(c, s, []) == s;
  }

  lemma LoopThen(c: Config, s: State, step: Step, t: State)
    requires Enabled(c, s, step) && IsLoopStep(step) && LoopReaches(c, Next(c, s, step), t)
    ensures LoopReaches(c, s, t)
  {
    var more :| IsRun(c, Next(c, s, step), more) && OnlyLoops(more) && Final(c, Next(c, s, step), more) == t;
    var steps := [step] + more;
    assert steps[1..] == more;
    assert IsRun(c, s, steps) && Final(c, s, steps) == t;
  }

  lemma LoopAfterWait(c: Config, s: State, t: State, u: State)
    requires WaitReaches(c, s, t) && LoopReaches(c, t, u)
    ensures LoopReaches(c, s, u)
  {
    var steps :| IsRun(c, s, steps) && OnlyWaits(steps) && Final(c, s, steps) == t;
    var more :| IsRun(c, t, more) && OnlyLoops(more) && Final(c, t, more) == u;
    Append(c, s, steps, more);
  }

  // ---------------------------------------------------------------- the wait for a lock

  predicate AllIdle(s: State) {
    forall a | a in s.phases :: s.phases[a].Idle?
  }

  lemma TimePasses(c: Config, s: State, later: nat)
    requires AllIdle(s) && s.now <= later
    ensures Enabled(c, s, Elapse(later - s.now)) && Next(c, s, Elapse(later - s.now)) == s.(now := later)
  {
  }

  /** The first of the polls due at `due`, `due + POLL`, ... that finds the lock stale; what WaitForLock computes. */
  function ClearedAt(due: nat, stamp: nat, lockTimeout: nat): (at: nat)
    ensures at >= due && (at - due) % POLL == 0
    ensures at > stamp + lockTimeout
    ensures at == due || at - POLL <= stamp + lockTimeout
    decreases stamp + lockTimeout + POLL - due
  {
    if due > stamp + lockTimeout then due else ClearedAt(due + POLL, stamp, lockTimeout)
  }

  lemma ClearedAtIsUnique(due: nat, stamp: nat, lockTimeout: nat, at: nat)
    requires at >= due && (at - due) % POLL == 0 && at > stamp + lockTimeout
    requires at == due || at - POLL <= stamp + lockTimeout
    ensures at == ClearedAt(due, stamp, lockTimeout)
  {
    var found := ClearedAt(due, stamp, lockTimeout);
    var i, j := (at - due) / POLL, (found - due) / POLL;
    assert at == due + i * POLL && found == due + j * POLL;
  }

  /** The loop over a lock that nobody else removes returns at that time. */
  method WaitAlone(start: nat, stamp: nat, lockTimeout: nat) returns (now: nat)
    ensures now == ClearedAt(start, stamp, lockTimeout)
  {
    var forced: bool;
    now, forced := WaitForLock(start, stamp, lockTimeout, None);
    assert now > start ==> now - POLL >= start && (now - POLL - start) % POLL == 0 && PresentAt(None, now - POLL);
    ClearedAtIsUnique(start, stamp, lockTimeout, now);
  }

  /** The first poll of a waiting sequencer that has not come yet. */
  function FirstPoll(s: State): nat
    requires s.pc.Waiting?
  {
    if s.now < s.pc.poll then s.pc.poll else s.now
  }

  /** Where the wait ends, if nobody else removes the lock. */
  function WaitOver(c: Config, s: State): State
    requires s.pc.Waiting? && s.lock.Some?
  {
    s.(now := ClearedAt(FirstPoll(s), s.lock.value.stamp, c.lockTimeout), lock := None, pc := Ready)
  }

  /**
   With nobody at work, time and polls alone bring a waiting sequencer to dispatch with the lock cleared: no later
   than the first poll or a poll after the lock turned stale, at the time at which the wait loop returns.
   */
  lemma {:induction false} StaleLockIsCleared(c: Config, s: State)
    requires AllIdle(s) && s.pc.Waiting? && s.lock.Some?
    ensures WaitReaches(c, s, WaitOver(c, s))
    ensures WaitOver(c, s).now <= FirstPoll(s) || WaitOver(c, s).now <= s.lock.value.stamp + c.lockTimeout + POLL
    decreases s.lock.value.stamp + c.lockTimeout + POLL - FirstPoll(s)
  {
    var due := FirstPoll(s);
    var u := s.(now := due);
    TimePasses(c, s, due);
    if due > s.lock.value.stamp + c.lockTimeout {
      WaitHere(c, WaitOver(c, s));
      assert Next(c, u, Poll) == WaitOver(c, s);
    } else {
      StaleLockIsCleared(c, Next(c, u, Poll));
    }
    WaitThen(c, u, Poll, WaitOver(c, s));
    WaitThen(c, s, Elapse(due - s.now), WaitOver(c, s));
  }

  // ---------------------------------------------------------------- a whole slot

  /** The slot's agent is dispatched at this time. */
  function Dispatching(c: Config, s: State, at: nat): State {
    SetPhase(s.(now := at, lock := None, pc := Confirming(at + TAKE_LIMIT)), Current(c, s), Dispatched(at))
  }

  /** When the dispatch of a slot that is just being visited takes place. */
  function DispatchTime(c: Config, s: State): nat {
    if s.lock.None? then s.now else ClearedAt(s.now, s.lock.value.stamp, c.lockTimeout)
  }

  lemma IdlePhase(s: State, a: Agent)
    requires AllIdle(s)
    ensures PhaseOf(s, a).Idle?
  {
  }

  /**
   A sequencer at the top of its loop, with nobody at work, dispatches the slot's agent if its session is alive:
   at once if there is no lock, otherwise as soon as a poll finds the lock stale.
   */
  lemma LiveSlotIsDispatched(c: Config, s: State)
    requires AllIdle(s) && s.pc == Top && Current(c, s) !in s.dead
    ensures LoopReaches(c, s, Dispatching(c, s, DispatchTime(c, s)))
  {
    var end := Dispatching(c, s, DispatchTime(c, s));
    var ready := s.(now := DispatchTime(c, s), lock := None, pc := Ready);
    IdlePhase(ready, Current(c, s));
    assert Next(c, ready, Dispatch) == end;
    LoopHere(c, end);
    LoopThen(c, ready, Dispatch, end);
    if s.lock.None? {
      assert Next(c, s, Visit) == ready;
    } else {
      StaleLockIsCleared(c, Next(c, s, Visit));
      LoopAfterWait(c, Next(c, s, Visit), ready, end);
    }
    LoopThen(c, s, Visit, end);
  }

  /** A slot whose agent's session is dead is passed over in ten seconds, and nobody is dispatched. */
  lemma DeadSlotIsSkipped(c: Config, s: State)
    requires AllIdle(s) && s.pc == Top && Current(c, s) in s.dead
    ensures LoopReaches(c, s, s.(now := s.now + 10, index := s.index + 1))
  {
    var end := s.(now := s.now + 10, index := s.index + 1);
    var skipping := Next(c, s, Visit);
    var later := skipping.(now := s.now + 10);
    TimePasses(c, skipping, s.now + 10);
    assert Next(c, later, Wake) == end;
    LoopHere(c, end);
    LoopThen(c, later, Wake, end);
    LoopThen(c, skipping, Elapse(10), end);
    LoopThen(c, s, Visit, end);
  }

  /** Once the dispatched agent has come to rest, the next slot begins 15 seconds and the slot interval after the dispatch. */
  lemma NextSlotBegins(c: Config, s: State, at: nat)
    requires AllIdle(s) && s.pc == Confirming(at + TAKE_LIMIT) && at <= s.now <= at + TAKE_LIMIT
    ensures LoopReaches(c, s, s.(now := at + 15 + c.slotInterval, index := s.index + 1, pc := Top))
  {
    var end := s.(now := at + TAKE_LIMIT + c.slotInterval, index := s.index + 1, pc := Top);
    var confirmed := s.(now := at + TAKE_LIMIT);
    TimePasses(c, s, at + TAKE_LIMIT);
    RestIsOver(c, Next(c, confirmed, Advance));
    LoopThen(c, confirmed, Advance, end);
    LoopThen(c, s, Elapse(at + TAKE_LIMIT - s.now), end);
  }

  lemma RestIsOver(c: Config, s: State)
    requires AllIdle(s) && s.pc.Resting? && s.now <= s.pc.until
    ensures LoopReaches(c, s, s.(now := s.pc.until, pc := Top))
  {
    var end := s.(now := s.pc.until, pc := Top);
    var rested := s.(now := s.pc.until);
    TimePasses(c, s, s.pc.until);
    LoopHere(c, end);
    LoopThen(c, rested, Wake, end);
    LoopThen(c, s, Elapse(s.pc.until - s.now), end);
  }

  /** An agent that does not take the lock is forgotten, and the next slot begins on time. */
  lemma UntakenSlotPasses(c: Config, s: State, at: nat)
    requires AllIdle(s) && s.lock.None? && Current(c, s) !in s.dead
    ensures var d := Dispatching(c, s, at);
            var t := Next(c, d, Drop(Current(c, s)));
            && Enabled(c, d, Drop(Current(c, s)))
            && LoopReaches(c, t, t.(now := at + TAKE_LIMIT + c.slotInterval, index := s.index + 1, pc := Top))
  {
    NextSlotBegins(c, Next(c, Dispatching(c, s, at), Drop(Current(c, s))), at);
  }

  /** An agent that takes the lock may work for the whole timeout. */
  lemma WorkIsAllowed(c: Config, s: State, at: nat, work: nat)
    requires AllIdle(s) && work <= c.lockTimeout
    ensures var a, d := Current(c, s), Dispatching(c, s, at);
            && Enabled(c, d, Take(a)) && Enabled(c, Next(c, d, Take(a)), Elapse(work))
            && Next(c, d, Take(a)).lock == Some(Lock(a, at)) && PhaseOf(Next(c, d, Take(a)), a) == Holding(at)
  {
    var a, d := Current(c, s), Dispatching(c, s, at);
    var taken := Next(c, d, Take(a));
    assert forall b | b in taken.phases && b != a :: taken.phases[b].Idle?;
    assert MayReach(c, taken, at + work);
  }

  /** Its cleanup ends its work and leaves no lock behind. */
  lemma CleanupReleases(c: Config, s: State, a: Agent)
    requires s.lock.Some? && s.lock.value.holder == a
    ensures var steps := [CleanupStart(a), CleanupRead(a), CleanupRemove(a)];
            IsRun(c, s, steps) && Final(c, s, steps) == SetPhase(s, a, Idle).(lock := None)
  {
    var started := Next(c, s, CleanupStart(a));
    var read := Next(c, started, CleanupRead(a));
    var done := Next(c, read, CleanupRemove(a));
    assert read.reading == s.reading && read.removing == s.removing + multiset{a};
    assert done.removing == s.removing;
    var steps := [CleanupStart(a), CleanupRead(a), CleanupRemove(a)];
    assert steps[1..] == [CleanupRead(a), CleanupRemove(a)] && steps[1..][1..] == [CleanupRemove(a)];
    assert [CleanupRemove(a)][1..] == [];
    assert IsRun(c, done, []) && Final(c, done, []) == done;
    assert IsRun(c, read, [CleanupRemove(a)]) && Final(c, read, [CleanupRemove(a)]) == done;
    assert IsRun(c, started, steps[1..]) && Final(c, started, steps[1..]) == done;
  }

  // ---------------------------------------------------------------- and not before

  /** Where the sequencer stands after a dispatch at a time, until it comes to the next slot. */
  predicate Pausing(c: Config, s: State, at: nat) {
    || s.pc == Confirming(at + TAKE_LIMIT)
    || (s.pc.Resting? && s.pc.until >= at + TAKE_LIMIT + c.slotInterval)
    || s.now >= at + TAKE_LIMIT + c.slotInterval
  }

  /** However the others act, a sequencer that does not crash visits no slot sooner after a dispatch. */
  lemma {:induction false} NoSlotSooner(c: Config, s: State, steps: seq<Step>, at: nat)
    requires Pausing(c, s, at) && IsRun(c, s, steps) && Crash !in steps
    ensures Pausing(c, Final(c, s, steps), at)
    ensures Final(c, s, steps).pc == Top ==> Final(c, s, steps).now >= at + 15 + c.slotInterval
    decreases |steps|
  {
    if steps != [] {
      assert steps[0] in steps && Crash !in steps[1..];
      NoSlotSooner(c, Next(c, s, steps[0]), steps[1..], at);
    }
  }

  /** A dispatch to a session that died since the visit ends the script: only a restart moves it again. */
  lemma DeadDispatchStops(c: Config, s: State, step: Step)
    requires s.pc == Ready && Current(c, s) in s.dead
    requires step.Visit? || step.Wake? || step.Poll? || step.Dispatch? || step.Advance? || step.Crash?
    ensures !Enabled(c, Next(c, s, Dispatch), step) && Next(c, s, Dispatch) == s.(pc := Next(c, s, Dispatch).pc)
  {
  }
}

/**
 The lock file that keeps testing agents apart: the sequencer dispatches one agent at a time, the
 agent writes the lock when it starts and removes it when it is done, the sequencer clears a stale
 lock, and the teardown hook and start-agent remove the lock of their own agent.

 Time is counted in seconds, as the scripts do. An agent's promise is to take the lock less than 15
 seconds after its dispatch, or never, and to work at most LOCK_TIMEOUT seconds from then; `Elapse` may
 not run past such a promise. Everything else may interleave freely: sessions die and are restarted, the
 sequencer crashes and restarts. Any number of cleanups, of the same or of different agents, may be under
 way: each first waits to read the lock, then, if the lock is its agent's, waits to remove it, and may be
 killed at either point.
 */
module LockProtocol {
  import opened Options
  import opened Rotation

  type Agent = string

  const TAKE_LIMIT: nat := 15
  const POLL: nat := 5

  datatype Config = Config(rotation: Rotation, slotInterval: nat, lockTimeout: nat)

  datatype Lock = Lock(holder: Agent, stamp: nat)

  /** What an agent is doing; Holding counts until its cleanup has ended its work, or until its death. */
  datatype Phase = Idle | Dispatched(at: nat) | Holding(since: nat)

  /** Where the sequencer's loop stands. */
  datatype Pc =
    | Down
    | Top
    | Skipping(until: nat)
    | Waiting(poll: nat)
    | Ready
    | Confirming(until: nat)
    | Resting(until: nat)

  /** `reading` and `removing` are the cleanups about to read the lock, and about to remove it. */
  datatype State = State(
    now: nat, lock: Option<Lock>, phases: map<Agent, Phase>, dead: set<Agent>,
    reading: multiset<Agent>, removing: multiset<Agent>, pc: Pc, index: nat)

  datatype Step =
    | Elapse(seconds: nat)
    | Visit | Wake | Poll | Dispatch | Advance | Crash | Restart   // the sequencer
    | Take(agent: Agent) | Drop(agent: Agent)                      // the dispatched agent
    | Kill(agent: Agent) | Revive(agent: Agent)                    // sessions
    | CleanupStart(agent: Agent) | CleanupRead(agent: Agent)       // teardown and start-agent
    | CleanupRemove(agent: Agent) | CleanupAbort(agent: Agent, read: bool)

  function PhaseOf(s: State, a: Agent): Phase {
    if a in s.phases then s.phases[a] else Idle
  }

  function SetPhase(s: State, a: Agent, p: Phase): State {
    s.(phases := s.phases[a := p])
  }

  function Current(c: Config, s: State): Agent {
    AgentAt(c.rotation, s.index)
  }

  /** The agents' promises allow time to reach `later`. */
  predicate MayReach(c: Config, s: State, later: nat) {
    forall a | a in s.phases ::
      match s.phases[a]
      case Idle => true
      case Dispatched(at) => later < at + TAKE_LIMIT
      case Holding(since) => later <= since + c.lockTimeout
  }

  predicate Enabled(c: Config, s: State, step: Step) {
    match step
    case Elapse(seconds) => MayReach(c, s, s.now + seconds)
    case Visit => s.pc == Top
    case Wake => (s.pc.Skipping? || s.pc.Resting?) && s.now >= s.pc.until
    case Poll => s.pc.Waiting? && s.now >= s.pc.poll
    case Dispatch => s.pc == Ready
    case Advance => s.pc.Confirming? && s.now >= s.pc.until
    case Crash => s.pc != Down
    case Restart => s.pc == Down
    case Take(a) => PhaseOf(s, a).Dispatched?
    case Drop(a) => PhaseOf(s, a).Dispatched?
    case Kill(a) => true
    case Revive(a) => true
    case CleanupStart(a) => true
    case CleanupRead(a) => a in s.reading
    case CleanupRemove(a) => a in s.removing
    case CleanupAbort(a, read) => a in (if read then s.removing else s.reading)
  }

  function Next(c: Config, s: State, step: Step): State {
    match step
    case Elapse(seconds) => s.(now := s.now + seconds)
    case Visit =>
      if Current(c, s) in s.dead then s.(index := s.index + 1, pc := Skipping(s.now + 10))
      else if s.lock.None? then s.(pc := Ready)
      else s.(pc := Waiting(s.now))
    case Wake => s.(pc := Top)
    case Poll =>
      if s.lock.None? then s.(pc := Ready)
      else if s.now > s.lock.value.stamp + c.lockTimeout then s.(lock := None, pc := Ready)
      else s.(pc := Waiting(s.now + POLL))
    case Dispatch =>
      var a := Current(c, s);
      if a in s.dead then s.(pc := Down)    // send-keys fails and the script exits
      else
        var t := s.(pc := Confirming(s.now + TAKE_LIMIT));
        if PhaseOf(s, a).Holding? then t else SetPhase(t, a, Dispatched(s.now))
    case Advance => s.(index := s.index + 1, pc := Resting(s.now + c.slotInterval))
    case Crash => s.(pc := Down)
    case Restart => s.(pc := Top)
    case Take(a) => SetPhase(s, a, Holding(s.now)).(lock := Some(Lock(a, s.now)))
    case Drop(a) => SetPhase(s, a, Idle)
    case Kill(a) => SetPhase(s, a, Idle).(dead := s.dead + {a})
    case Revive(a) => s.(dead := s.dead - {a})
    case CleanupStart(a) => SetPhase(s, a, Idle).(reading := s.reading + multiset{a})
    case CleanupRead(a) =>
      var t := s.(reading := s.reading - multiset{a});
      if s.lock.Some? && s.lock.value.holder == a then t.(removing := s.removing + multiset{a}) else t
    case CleanupRemove(a) => s.(lock := None, removing := s.removing - multiset{a})
    case CleanupAbort(a, read) =>
      if read then s.(removing := s.removing - multiset{a}) else s.(reading := s.reading - multiset{a})
  }

  function Initial(index: nat): State {
    State(0, None, map[], {}, multiset{}, multiset{}, Top, index)
  }

  predicate IsRun(c: Config, s: State, steps: seq<Step>)
    decreases |steps|
  {
    steps == [] || (Enabled(c, s, steps[0]) && IsRun(c, Next(c, s, steps[0]), steps[1..]))
  }

  /**
   A dispatch that reaches its agent while some cleanup is about to remove the lock, or while a cleanup of that
   same agent is still about to read it.
   */
  predicate Overtakes(c: Config, s: State, step: Step) {
    step.Dispatch? && Current(c, s) !in s.dead && (s.removing != multiset{} || Current(c, s) in s.reading)
  }

  /** No dispatch of the run overtakes a cleanup. */
  predicate Orderly(c: Config, s: State, steps: seq<Step>)
    decreases |steps|
  {
    steps == [] || (!Overtakes(c, s, steps[0]) && Orderly(c, Next(c, s, steps[0]), steps[1..]))
  }

  function Final(c: Config, s: State, steps: seq<Step>): State
    decreases |steps|
  {
    if steps == [] then s else Final(c, Next(c, s, steps[0]), steps[1..])
  }

  // ---------------------------------------------------------------- mutual exclusion

  /** No two agents work at once. */
  ghost predicate OneHolder(s: State) {
    forall a, b :: PhaseOf(s, a).Holding? && PhaseOf(s, b).Holding? ==> a == b
  }

  /** Moreover the lock file names the agent at work, since when it works. */
  ghost predicate Exclusive(s: State) {
    OneHolder(s) && forall a :: PhaseOf(s, a).Holding? ==> s.lock == Some(Lock(a, PhaseOf(s, a).since))
  }

  ghost predicate Inv(c: Config, s: State) {
    // a holder is named by the lock file and within its time
    && (forall a :: PhaseOf(s, a).Holding? ==>
          s.lock == Some(Lock(a, PhaseOf(s, a).since)) && s.now <= PhaseOf(s, a).since + c.lockTimeout)
    // only the agent of the current slot can be on its way to the lock
    && (forall a :: PhaseOf(s, a).Dispatched? ==>
          && a == Current(c, s) && s.now < PhaseOf(s, a).at + TAKE_LIMIT
          && (s.lock.None? || s.lock.value.holder == a)
          && (s.pc == Down || s.pc == Top || s.pc.Waiting? || s.pc == Ready
              || (s.pc.Confirming? && s.pc.until == PhaseOf(s, a).at + TAKE_LIMIT)))
    && (s.pc == Ready ==> s.lock.None? || s.lock.value.holder == Current(c, s))
    && (forall a :: a in s.dead || a in s.reading ==> PhaseOf(s, a).Idle?)
    // no one is under way to the lock or holds it while a cleanup is about to remove it
    && (s.removing != multiset{} ==> forall a :: PhaseOf(s, a).Idle?)
  }

  /** The sequencer's own steps, but for the dispatch, change no agent's phase. */
  lemma SequencerStepKeeps(c: Config, s: State, step: Step)
    requires Inv(c, s) && Enabled(c, s, step)
    requires step.Visit? || step.Wake? || step.Poll? || step.Advance? || step.Crash? || step.Restart?
    ensures Inv(c, Next(c, s, step))
  {
    var t := Next(c, s, step);
    assert forall a :: PhaseOf(t, a) == PhaseOf(s, a);
  }

  lemma ElapseKeeps(c: Config, s: State, seconds: nat)
    requires Inv(c, s) && MayReach(c, s, s.now + seconds)
    ensures Inv(c, s.(now := s.now + seconds))
  {
    var t := s.(now := s.now + seconds);
    assert forall a :: PhaseOf(t, a) == PhaseOf(s, a) && (!PhaseOf(s, a).Idle? ==> a in s.phases && s.phases[a] == PhaseOf(s, a));
  }

  /** Nor do revivals and cleanups that are killed. */
  lemma QuietStepKeeps(c: Config, s: State, dead: set<Agent>, reading: multiset<Agent>, removing: multiset<Agent>)
    requires Inv(c, s) && dead <= s.dead && reading <= s.reading && removing <= s.removing
    ensures Inv(c, s.(dead := dead, reading := reading, removing := removing))
  {
    var t := s.(dead := dead, reading := reading, removing := removing);
    assert forall a :: PhaseOf(t, a) == PhaseOf(s, a) && (a in reading ==> a in s.reading);
  }

  lemma ReviveOrAbortKeeps(c: Config, s: State, step: Step)
    requires Inv(c, s) && (step.Revive? || step.CleanupAbort?)
    ensures Inv(c, Next(c, s, step))
  {
    match step
    case Revive(a) => QuietStepKeeps(c, s, s.dead - {a}, s.reading, s.removing);
    case CleanupAbort(a, read) =>
      if read {
        QuietStepKeeps(c, s, s.dead, s.reading, s.removing - multiset{a});
      } else {
        QuietStepKeeps(c, s, s.dead, s.reading - multiset{a}, s.removing);
      }
  }

  lemma RemoveKeeps(c: Config, s: State, a: Agent)
    requires Inv(c, s) && Enabled(c, s, CleanupRemove(a))
    ensures Inv(c, Next(c, s, CleanupRemove(a)))
  {
    var t := Next(c, s, CleanupRemove(a));
    assert s.removing != multiset{};
    assert forall b :: PhaseOf(t, b) == PhaseOf(s, b) && PhaseOf(s, b).Idle?;
  }

  lemma DispatchKeeps(c: Config, s: State)
    requires Inv(c, s) && Enabled(c, s, Dispatch) && !Overtakes(c, s, Dispatch)
    ensures Inv(c, Next(c, s, Dispatch))
  {
    var a := Current(c, s);
    var t := Next(c, s, Dispatch);
    assert forall b :: b != a ==> PhaseOf(t, b) == PhaseOf(s, b);
    assert Current(c, t) == a;
  }

  lemma TakeKeeps(c: Config, s: State, a: Agent)
    requires Inv(c, s) && Enabled(c, s, Take(a))
    ensures Inv(c, Next(c, s, Take(a)))
  {
    var t := Next(c, s, Take(a));
    assert forall b :: b != a ==> PhaseOf(t, b) == PhaseOf(s, b);
  }

  /** An agent that gives up, dies or ends its work leaves the lock file as it is. */
  lemma LeaveKeeps(c: Config, s: State, a: Agent)
    requires Inv(c, s)
    ensures Inv(c, SetPhase(s, a, Idle))
    ensures PhaseOf(SetPhase(s, a, Idle), a).Idle?
  {
    var t := SetPhase(s, a, Idle);
    assert forall b :: b != a ==> PhaseOf(t, b) == PhaseOf(s, b);
  }

  lemma KillKeeps(c: Config, s: State, a: Agent)
    requires Inv(c, s)
    ensures Inv(c, Next(c, s, Kill(a)))
  {
    LeaveKeeps(c, s, a);
    var t, u := SetPhase(s, a, Idle), Next(c, s, Kill(a));
    assert forall b :: PhaseOf(u, b) == PhaseOf(t, b);
  }

  lemma CleanupStartKeeps(c: Config, s: State, a: Agent)
    requires Inv(c, s)
    ensures Inv(c, Next(c, s, CleanupStart(a)))
  {
    LeaveKeeps(c, s, a);
    var t, u := SetPhase(s, a, Idle), Next(c, s, CleanupStart(a));
    assert forall b :: PhaseOf(u, b) == PhaseOf(t, b) && (b in u.reading ==> b == a || b in t.reading);
  }

  /** A cleanup that finds the lock to be its agent's finds everyone idle. */
  lemma ReadKeeps(c: Config, s: State, a: Agent)
    requires Inv(c, s) && Enabled(c, s, CleanupRead(a))
    ensures Inv(c, Next(c, s, CleanupRead(a)))
  {
    var t := Next(c, s, CleanupRead(a));
    assert forall b :: PhaseOf(t, b) == PhaseOf(s, b);
    assert forall b :: b in t.reading ==> b in s.reading;
  }

  lemma StepKeeps(c: Config, s: State, step: Step)
    requires Inv(c, s) && Enabled(c, s, step) && !Overtakes(c, s, step)
    ensures Inv(c, Next(c, s, step))
  {
    if step.Dispatch? {
      DispatchKeeps(c, s);
    } else if step.Take? {
      TakeKeeps(c, s, step.agent);
    } else if step.Drop? {
      LeaveKeeps(c, s, step.agent);
    } else if step.Kill? {
      KillKeeps(c, s, step.agent);
    } else if step.CleanupStart? {
      CleanupStartKeeps(c, s, step.agent);
    } else if step.CleanupRead? {
      ReadKeeps(c, s, step.agent);
    } else if step.Elapse? {
      ElapseKeeps(c, s, step.seconds);
    } else if step.CleanupRemove? {
      RemoveKeeps(c, s, step.agent);
    } else if step.Revive? || step.CleanupAbort? {
      ReviveOrAbortKeeps(c, s, step);
    } else {
      SequencerStepKeeps(c, s, step);
    }
  }

  /** In every state of every orderly run at most one agent holds the lock, and the lock file names it. */
  lemma {:induction false} MutualExclusion(c: Config, s: State, steps: seq<Step>)
    requires Inv(c, s) && IsRun(c, s, steps) && Orderly(c, s, steps)
    ensures Inv(c, Final(c, s, steps)) && Exclusive(Final(c, s, steps))
    decreases |steps|
  {
    if steps != [] {
      StepKeeps(c, s, steps[0]);
      MutualExclusion(c, Next(c, s, steps[0]), steps[1..]);
    }
  }

  // ---------------------------------------------------------------- what an overtaking dispatch leads to

  /** Some orderly run leads from the one state to the other. */
  ghost predicate Reaches(c: Config, s: State, t: State) {
    exists steps :: IsRun(c, s, steps) && Orderly(c, s, steps) && Final(c, s, steps) == t
  }

  lemma {:induction false} AppendRuns(c: Config, s: State, steps: seq<Step>, more: seq<Step>)
    requires IsRun(c, s, steps) && IsRun(c, Final(c, s, steps), more)
    ensures IsRun(c, s, steps + more) && Final(c, s, steps + more) == Final(c, Final(c, s, steps), more)
    decreases |steps|
  {
    if steps == [] {
      assert steps + more == more;
    } else {
      AppendRuns(c, Next(c, s, steps[0]), steps[1..], more);
      assert (steps + more)[1..] == steps[1..] + more;
    }
  }

  lemma {:induction false} AppendOrderly(c: Config, s: State, steps: seq<Step>, more: seq<Step>)
    requires Orderly(c, s, steps) && Orderly(c, Final(c, s, steps), more)
    ensures Orderly(c, s, steps + more)
    decreases |steps|
  {
    if steps == [] {
      assert steps + more == more;
    } else {
      AppendOrderly(c, Next(c, s, steps[0]), steps[1..], more);
      assert (steps + more)[1..] == steps[1..] + more;
    }
  }

  lemma Append(c: Config, s: State, steps: seq<Step>, more: seq<Step>)
    requires IsRun(c, s, steps) && IsRun(c, Final(c, s, steps), more)
    ensures IsRun(c, s, steps + more) && Final(c, s, steps + more) == Final(c, Final(c, s, steps), more)
    ensures Orderly(c, s, steps) && Orderly(c, Final(c, s, steps), more) ==> Orderly(c, s, steps + more)
  {
    AppendRuns(c, s, steps, more);
    if Orderly(c, s, steps) && Orderly(c, Final(c, s, steps), more) {
      AppendOrderly(c, s, steps, more);
    }
  }

  lemma Here(c: Config, s: State)
    ensures Reaches(c, s, s)
  {
    assert IsRun(c, s, []) && Orderly(c, s, []) && Final(c, s, []) == s;
  }

  /** A run goes on with any enabled step that overtakes no cleanup. */
  lemma Then(c: Config, s: State, t: State, step: Step)
    requires Reaches(c, s, t) && Enabled(c, t, step) && !Overtakes(c, t, step)
    ensures Reaches(c, s, Next(c, t, step))
  {
    var steps :| IsRun(c, s, steps) && Orderly(c, s, steps) && Final(c, s, steps) == t;
    var more := [step];
    assert more[1..] == [] && IsRun(c, Next(c, t, step), []) && Orderly(c, Next(c, t, step), []);
    assert Final(c, t, more) == Final(c, Next(c, t, step), more[1..]) == Next(c, t, step);
    Append(c, s, steps, more);
  }

  /** All cleanups under way may be killed. */
  lemma {:induction false} AbortReading(c: Config, s: State, t: State)
    requires Reaches(c, s, t)
    ensures Reaches(c, s, t.(reading := multiset{}))
    decreases |t.reading|
  {
    if t.reading == multiset{} {
      assert t.(reading := multiset{}) == t;
    } else {
      var a :| a in t.reading;
      var u := Next(c, t, CleanupAbort(a, false));
      Then(c, s, t, CleanupAbort(a, false));
      AbortReading(c, s, u);
      assert u.(reading := multiset{}) == t.(reading := multiset{});
    }
  }

  lemma {:induction false} AbortRemoving(c: Config, s: State, t: State)
    requires Reaches(c, s, t)
    ensures Reaches(c, s, t.(removing := multiset{}))
    decreases |t.removing|
  {
    if t.removing == multiset{} {
      assert t.(removing := multiset{}) == t;
    } else {
      var a :| a in t.removing;
      var u := Next(c, t, CleanupAbort(a, true));
      Then(c, s, t, CleanupAbort(a, true));
      AbortRemoving(c, s, u);
      assert u.(removing := multiset{}) == t.(removing := multiset{});
    }
  }

  /** Just after an overtaking dispatch: its agent is on its way, everyone else idle, a cleanup still to come. */
  ghost predicate Overtaken(c: Config, s: State, b: Agent) {
    && b == Current(c, s) && PhaseOf(s, b) == Dispatched(s.now) && (forall a :: a != b ==> PhaseOf(s, a).Idle?)
    && s.pc == Confirming(s.now + TAKE_LIMIT) && (s.removing != multiset{} || b in s.reading)
  }

  lemma OvertakingOvertakes(c: Config, s: State)
    requires Inv(c, s) && Enabled(c, s, Dispatch) && Overtakes(c, s, Dispatch)
    ensures Overtaken(c, Next(c, s, Dispatch), Current(c, s))
  {
    var b := Current(c, s);
    assert forall a :: PhaseOf(s, a).Idle?;
    assert forall a :: a != b ==> PhaseOf(Next(c, s, Dispatch), a) == PhaseOf(s, a);
  }

  /** The agent at work, its lock removed under it, and no other cleanup under way. */
  ghost predicate Unprotected(s: State, b: Agent, since: nat) {
    && s.lock.None? && PhaseOf(s, b) == Holding(since) && (forall a :: a != b ==> PhaseOf(s, a).Idle?)
    && s.reading == multiset{} && s.removing == multiset{}
  }

  /** The agent takes the lock at the last moment, and the overtaken cleanup removes it. */
  lemma LockLost(c: Config, s: State, b: Agent) returns (v: State)
    requires Overtaken(c, s, b)
    ensures Reaches(c, s, v) && Unprotected(v, b, s.now + 14) && v.now == s.now + 14 && v.pc == s.pc && v.index == s.index
  {
    Here(c, s);
    assert MayReach(c, s, s.now + 14) by {
      assert forall a | a in s.phases :: s.phases[a] == PhaseOf(s, a);
    }
    Then(c, s, s, Elapse(14));
    var t := Next(c, s, Elapse(14));
    assert PhaseOf(t, b) == PhaseOf(s, b);
    Then(c, s, t, Take(b));
    var u := Next(c, t, Take(b));
    if u.removing == multiset{} {
      Then(c, s, u, CleanupRead(b));
      u := Next(c, u, CleanupRead(b));
    }
    assert u.removing != multiset{} && PhaseOf(u, b) == Holding(s.now + 14);
    var a :| a in u.removing;
    Then(c, s, u, CleanupRemove(a));
    u := Next(c, u, CleanupRemove(a));
    AbortReading(c, s, u);
    AbortRemoving(c, s, u.(reading := multiset{}));
    v := u.(reading := multiset{}).(removing := multiset{});
    assert forall a :: a != b ==> PhaseOf(v, a) == PhaseOf(s, a);
  }

  /** The agents of consecutive slots differ. */
  ghost predicate Alternates(rotation: Rotation) {
    forall i: nat :: AgentAt(rotation, i) != AgentAt(rotation, i + 1)
  }

  /** The sequencer counts the slot and is restarted. */
  lemma NextSlot(c: Config, s: State, v: State)
    requires Reaches(c, s, v) && v.pc.Confirming? && v.now >= v.pc.until
    ensures Reaches(c, s, v.(index := v.index + 1, pc := Top))
  {
    Then(c, s, v, Advance);
    var w := Next(c, v, Advance);
    Then(c, s, w, Crash);
    Then(c, s, w.(pc := Down), Restart);
    assert w.(pc := Top) == v.(index := v.index + 1, pc := Top);
  }

  /** It finds no lock and dispatches the next agent. */
  lemma SecondHolder(c: Config, s: State, v: State, b: Agent) returns (w: State)
    requires Reaches(c, s, v) && Unprotected(v, b, v.now) && v.pc == Confirming(v.now + 1)
    requires b == Current(c, v) && c.lockTimeout >= 1 && AgentAt(c.rotation, v.index + 1) != b
    ensures Reaches(c, s, w) && !OneHolder(w)
  {
    assert MayReach(c, v, v.now + 1) by {
      assert forall a | a in v.phases :: v.phases[a] == PhaseOf(v, a);
    }
    Then(c, s, v, Elapse(1));
    NextSlot(c, s, v.(now := v.now + 1));
    w := v.(now := v.now + 1, index := v.index + 1, pc := Top);
    var a := AgentAt(c.rotation, v.index + 1);
    Then(c, s, w, Revive(a));
    w := w.(dead := w.dead - {a});
    Then(c, s, w, Visit);
    w := w.(pc := Ready);
    assert PhaseOf(w, a) == PhaseOf(v, a) && PhaseOf(w, b) == PhaseOf(v, b);
    w := BothHold(c, s, w, a, b);
  }

  lemma BothHold(c: Config, s: State, v: State, a: Agent, b: Agent) returns (w: State)
    requires Reaches(c, s, v) && v.pc == Ready && a == Current(c, v) && a !in v.dead && a != b
    requires v.reading == multiset{} && v.removing == multiset{} && PhaseOf(v, a).Idle? && PhaseOf(v, b).Holding?
    ensures Reaches(c, s, w) && !OneHolder(w)
  {
    Then(c, s, v, Dispatch);
    w := Next(c, v, Dispatch);
    Then(c, s, w, Take(a));
    w := Next(c, w, Take(a));
    assert PhaseOf(w, a).Holding? && PhaseOf(w, b).Holding?;
  }

  // ---------------------------------------------------------------- exactly the orderly runs are safe

  /** What is asked of a state: at most one agent at work and, if `named`, the lock file names it. */
  ghost predicate Good(named: bool, s: State) {
    if named then Exclusive(s) else OneHolder(s)
  }

  /** All states of the run are good, however they go on without overtaking a cleanup. */
  ghost predicate Safe(named: bool, c: Config, s: State, steps: seq<Step>)
    decreases |steps|
  {
    && (forall t :: Reaches(c, s, t) ==> Good(named, t))
    && (steps != [] ==> Safe(named, c, Next(c, s, steps[0]), steps[1..]))
  }

  lemma OvertakingBreaks(named: bool, c: Config, s: State) returns (w: State)
    requires Inv(c, s) && Enabled(c, s, Dispatch) && Overtakes(c, s, Dispatch)
    requires named || (c.lockTimeout >= 1 && AgentAt(c.rotation, s.index + 1) != Current(c, s))
    ensures Reaches(c, Next(c, s, Dispatch), w) && !Good(named, w)
  {
    var b := Current(c, s);
    var t := Next(c, s, Dispatch);
    OvertakingOvertakes(c, s);
    w := LockLost(c, t, b);
    if !named {
      w := SecondHolder(c, t, w, b);
    }
  }

  /**
   Main theorem. A run keeps at most one agent at work, named by the lock file, in all its states and however
   they go on without overtaking, exactly when none of its dispatches overtakes a cleanup; all other steps of
   sequencer, agents, sessions and cleanups may mix freely. The same holds of the weaker promise that at most
   one agent is at work, if agents may work for a second and consecutive slots belong to different agents.
   */
  lemma {:induction false} ExclusionExactly(named: bool, c: Config, s: State, steps: seq<Step>)
    requires Inv(c, s) && IsRun(c, s, steps)
    requires named || (c.lockTimeout >= 1 && Alternates(c.rotation))
    ensures Orderly(c, s, steps) <==> Safe(named, c, s, steps)
    decreases |steps|
  {
    forall t | Reaches(c, s, t) ensures Good(named, t) {
      var more :| IsRun(c, s, more) && Orderly(c, s, more) && Final(c, s, more) == t;
      MutualExclusion(c, s, more);
    }
    if steps != [] {
      if Overtakes(c, s, steps[0]) {
        var w := OvertakingBreaks(named, c, s);
      } else {
        StepKeeps(c, s, steps[0]);
        ExclusionExactly(named, c, Next(c, s, steps[0]), steps[1..]);
      }
    }
  }

  lemma ExclusionFromStart(c: Config, index: nat, steps: seq<Step>)
    requires IsRun(c, Initial(index), steps)
    ensures Orderly(c, Initial(index), steps) <==> Safe(true, c, Initial(index), steps)
    ensures c.lockTimeout >= 1 && Alternates(c.rotation) ==>
              (Orderly(c, Initial(index), steps) <==> Safe(false, c, Initial(index), steps))
    ensures Orderly(c, Initial(index), steps) ==> Exclusive(Final(c, Initial(index), steps))
  {
    ExclusionExactly(true, c, Initial(index), steps);
    if c.lockTimeout >= 1 && Alternates(c.rotation) {
      ExclusionExactly(false, c, Initial(index), steps);
    }
    if Orderly(c, Initial(index), steps) {
      MutualExclusion(c, Initial(index), steps);
    }
  }

  // ---------------------------------------------------------------- the shipped configuration

  const SHIPPED := Config(["smoketest", "edgecase", "smoketest", "edgecase", "chaos"], 300, 720)

  lemma ShippedAlternates()
    ensures SHIPPED.lockTimeout >= 1 && Alternates(SHIPPED.rotation)
  {
    assert "smoketest"[0] != "edgecase"[0] && "edgecase"[0] != "chaos"[0] && "chaos"[0] != "smoketest"[0];
    forall i: nat ensures AgentAt(SHIPPED.rotation, i) != AgentAt(SHIPPED.rotation, i + 1) {
      assert |SHIPPED.rotation| == 5;
      assert (i + 1) % 5 == if i % 5 == 4 then 0 else i % 5 + 1;
    }
  }

  /** A died holding the lock; its cleanup read the lock just before the sequencer cleared it as stale. */
  function Cleared(): State {
    State(736, None, map["smoketest" := Idle], {"smoketest"}, multiset{}, multiset{"smoketest"}, Ready, 1)
  }

  function Held(now: nat, pc: Pc, index: nat): State {
    State(now, Some(Lock("smoketest", 0)), map["smoketest" := Holding(0)], {}, multiset{}, multiset{}, pc, index)
  }

  lemma UntilTaken()
    ensures Reaches(SHIPPED, Initial(0), Held(0, Confirming(15), 0))
  {
    var c, start := SHIPPED, Initial(0);
    Here(c, start);
    Then(c, start, start, Visit);
    Then(c, start, start.(pc := Ready), Dispatch);
    var s := State(0, None, map["smoketest" := Dispatched(0)], {}, multiset{}, multiset{}, Confirming(15), 0);
    assert Next(c, start.(pc := Ready), Dispatch) == s;
    FirstTakes(s);
  }

  lemma FirstTakes(s: State)
    requires Reaches(SHIPPED, Initial(0), s)
    requires s == State(0, None, map["smoketest" := Dispatched(0)], {}, multiset{}, multiset{}, Confirming(15), 0)
    ensures Reaches(SHIPPED, Initial(0), Held(0, Confirming(15), 0))
  {
    Then(SHIPPED, Initial(0), s, Take("smoketest"));
    assert Next(SHIPPED, s, Take("smoketest")) == Held(0, Confirming(15), 0);
  }

  /** The lock is held long enough for the sequencer to count the slot and come to wait for it. */
  lemma UntilHeld()
    ensures Reaches(SHIPPED, Initial(0), Held(315, Waiting(315), 1))
  {
    var c, start := SHIPPED, Initial(0);
    UntilTaken();
    Then(c, start, Held(0, Confirming(15), 0), Elapse(15));
    Then(c, start, Held(15, Confirming(15), 0), Advance);
    Then(c, start, Held(15, Resting(315), 1), Elapse(300));
    Then(c, start, Held(315, Resting(315), 1), Wake);
    assert Current(c, Held(315, Top, 1)) !in Held(315, Top, 1).dead;
    Then(c, start, Held(315, Top, 1), Visit);
  }

  /** A holder dies, and the cleanup for it gets as far as reading the lock. */
  lemma DeadAndRead(c: Config, start: State, s: State, a: Agent)
    requires Reaches(c, start, s) && s.lock.Some? && s.lock.value.holder == a
    requires s.reading == multiset{} && s.removing == multiset{}
    ensures Reaches(c, start, SetPhase(s, a, Idle).(dead := s.dead + {a}, removing := multiset{a}))
  {
    var t := SetPhase(s, a, Idle).(dead := s.dead + {a});
    Then(c, start, s, Kill(a));
    Then(c, start, t, CleanupStart(a));
    var u := Next(c, t, CleanupStart(a));
    assert u == t.(reading := multiset{a});
    Then(c, start, u, CleanupRead(a));
    assert Next(c, u, CleanupRead(a)) == t.(removing := multiset{a});
  }

  function Died(now: nat): State {
    State(now, Some(Lock("smoketest", 0)), map["smoketest" := Idle], {"smoketest"}, multiset{}, multiset{"smoketest"}, Waiting(315), 1)
  }

  lemma UntilCleared()
    ensures Reaches(SHIPPED, Initial(0), Cleared())
  {
    var c, start := SHIPPED, Initial(0);
    var held := Held(315, Waiting(315), 1);
    UntilHeld();
    DeadAndRead(c, start, held, "smoketest");
    assert SetPhase(held, "smoketest", Idle).(dead := held.dead + {"smoketest"}, removing := multiset{"smoketest"}) == Died(315);
    Then(c, start, Died(315), Elapse(421));
    Then(c, start, Died(736), Poll);
  }

  lemma ClearedOvertakes()
    ensures Inv(SHIPPED, Cleared()) && Enabled(SHIPPED, Cleared(), Dispatch) && Overtakes(SHIPPED, Cleared(), Dispatch)
  {
    assert Current(SHIPPED, Cleared()) == "edgecase" && "edgecase"[0] != "smoketest"[0];
    assert "smoketest" in Cleared().removing;
  }

  /** A run to an overtaking dispatch and on to a state that it reaches. */
  lemma Through(c: Config, start: State, s: State, w: State)
    requires Reaches(c, start, s) && Enabled(c, s, Dispatch) && Reaches(c, Next(c, s, Dispatch), w)
    ensures exists steps :: IsRun(c, start, steps) && Final(c, start, steps) == w
  {
    var steps :| IsRun(c, start, steps) && Orderly(c, start, steps) && Final(c, start, steps) == s;
    var t := Next(c, s, Dispatch);
    var more :| IsRun(c, t, more) && Orderly(c, t, more) && Final(c, t, more) == w;
    assert ([Dispatch] + more)[1..] == more;
    Append(c, start, steps, [Dispatch] + more);
  }

  /** With the shipped configuration a run exists that is not orderly and ends with two agents at work. */
  lemma OvertakenCleanupBreaksExclusion()
    ensures exists steps :: IsRun(SHIPPED, Initial(0), steps) && !OneHolder(Final(SHIPPED, Initial(0), steps))
  {
    ClearedOvertakes();
    ShippedAlternates();
    UntilCleared();
    var w := OvertakingBreaks(false, SHIPPED, Cleared());
    Through(SHIPPED, Initial(0), Cleared(), w);
  }

  // ---------------------------------------------------------------- the wait loop

  /** Is the lock file there at time t, given when (if ever) someone else removes it? */
  predicate PresentAt(cleared: Option<nat>, t: nat) {
    cleared.None? || t < cleared.value
  }

  /**
   The sequencer's polling loop on a lock with a fixed timestamp. It leaves at the first poll at which
   the lock is gone or stale, so at most one poll after the lock turned stale.
   */
  method WaitForLock(start: nat, stamp: nat, lockTimeout: nat, cleared: Option<nat>) returns (now: nat, forced: bool)
    ensures now >= start && (now - start) % 5 == 0
    ensures forced <==> PresentAt(cleared, now)
    ensures forced ==> now > stamp + lockTimeout
    ensures forall p | start <= p < now && (p - start) % 5 == 0 :: PresentAt(cleared, p) && p <= stamp + lockTimeout
    ensures now == start || now <= stamp + lockTimeout + 5
  {
    now, forced := start, false;
    while PresentAt(cleared, now)
      invariant now >= start && (now - start) % POLL == 0
      invariant !forced
      invariant forall p | start <= p < now && (p - start) % POLL == 0 :: PresentAt(cleared, p) && p <= stamp + lockTimeout
      invariant now == start || now <= stamp + lockTimeout + POLL
      decreases stamp + lockTimeout + POLL - now
    {
      if now > stamp + lockTimeout {
        return now, true;
      }
      now := now + POLL;
    }
  }
}

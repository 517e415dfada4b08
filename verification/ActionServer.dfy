/**
 The TEE extension's shared state: handlers classify a report outside the lock and commit the result
 inside it, `/state` requests read it under the read lock.

 `Extension` is the object with its two sequential operations. Below it, the same operations are taken
 apart into their atomic steps (lock, each assignment, each read, unlock) and interleaved freely.
 */
module ActionServer {
  /** What becomes of one action before it takes the lock: rejected, failed to classify, or classified. */
  datatype Outcome = Undecodable | EmptyReport | ClassifierFailed | Classified(severity: string)

  datatype ActionResult = ActionResult(status: nat, severity: string, shouldLog: bool)

  class Extension {
    var classificationCount: nat
    var lastSeverity: string

    constructor ()
      ensures classificationCount == 0 && lastSeverity == ""
    {
      classificationCount, lastSeverity := 0, "";
    }

    /** A result of status 1 comes with exactly one commit, any other result with none. */
    method ProcessClassifySeverity(outcome: Outcome) returns (result: ActionResult)
      modifies this
      ensures result.status == 1 <==> outcome.Classified?
      ensures result.status != 1 ==> result.status == 0 && classificationCount == old(classificationCount)
                                     && lastSeverity == old(lastSeverity)
      ensures result.status == 1 ==> classificationCount == old(classificationCount) + 1
                                     && lastSeverity == outcome.severity == result.severity
      ensures result.shouldLog <==> result.status == 1 && lastSeverity in {"MEDIUM", "HIGH", "CRITICAL"}
    {
      if !outcome.Classified? {
        return ActionResult(0, "", false);
      }
      var severity := outcome.severity;
      var shouldLog := severity == "MEDIUM" || severity == "HIGH" || severity == "CRITICAL";
      classificationCount := classificationCount + 1;
      lastSeverity := severity;
      return ActionResult(1, severity, shouldLog);
    }

    method State() returns (count: nat, severity: string)
      ensures count == classificationCount && severity == lastSeverity
    {
      count, severity := classificationCount, lastSeverity;
    }
  }

  // ---------------------------------------------------------------- the interleaved system

  /** A handler's progress; it owns the write lock from Locked to Stored. */
  datatype Handler =
    | Working
    | Failed
    | Ready(severity: string)
    | Locked(severity: string)
    | Counted(severity: string)
    | Stored(severity: string)
    | Succeeded(severity: string)

  /** A `/state` request; `floor` is the number of commits when it arrived. */
  datatype Observer =
    | Waiting(floor: nat)
    | Reading(floor: nat)
    | HasCount(floor: nat, count: nat)
    | HasBoth(floor: nat, count: nat, severity: string)
    | Answered(floor: nat, count: nat, severity: string)

  datatype Commit = Commit(handler: nat, severity: string)

  /** `commits` records the order in which severities were stored. */
  datatype System = System(
    count: nat, last: string, handlers: map<nat, Handler>, observers: map<nat, Observer>, commits: seq<Commit>)

  const START := System(0, "", map[], map[], [])

  datatype Step =
    | Arrive(h: nat) | Fail(h: nat) | Classify(h: nat, severity: string)
    | Lock(h: nat) | Increment(h: nat) | Store(h: nat) | Unlock(h: nat)
    | Ask(o: nat) | ReadLock(o: nat) | ReadCount(o: nat) | ReadSeverity(o: nat) | ReadUnlock(o: nat)

  predicate Writes(s: System, h: nat) {
    h in s.handlers && (s.handlers[h].Locked? || s.handlers[h].Counted? || s.handlers[h].Stored?)
  }

  predicate Reads(s: System, o: nat) {
    o in s.observers && (s.observers[o].Reading? || s.observers[o].HasCount? || s.observers[o].HasBoth?)
  }

  /** sync.RWMutex: a writer excludes everyone, readers exclude writers. */
  predicate NoWriter(s: System) {
    forall h | h in s.handlers :: !Writes(s, h)
  }

  predicate NoReader(s: System) {
    forall o | o in s.observers :: !Reads(s, o)
  }

  predicate Enabled(s: System, step: Step) {
    match step
    case Arrive(h) => h !in s.handlers
    case Fail(h) => h in s.handlers && s.handlers[h].Working?
    case Classify(h, _) => h in s.handlers && s.handlers[h].Working?
    case Lock(h) => h in s.handlers && s.handlers[h].Ready? && NoWriter(s) && NoReader(s)
    case Increment(h) => h in s.handlers && s.handlers[h].Locked?
    case Store(h) => h in s.handlers && s.handlers[h].Counted?
    case Unlock(h) => h in s.handlers && s.handlers[h].Stored?
    case Ask(o) => o !in s.observers
    case ReadLock(o) => o in s.observers && s.observers[o].Waiting? && NoWriter(s)
    case ReadCount(o) => o in s.observers && s.observers[o].Reading?
    case ReadSeverity(o) => o in s.observers && s.observers[o].HasCount?
    case ReadUnlock(o) => o in s.observers && s.observers[o].HasBoth?
  }

  function Next(s: System, step: Step): System
    requires Enabled(s, step)
  {
    match step
    case Arrive(h) => s.(handlers := s.handlers[h := Working])
    case Fail(h) => s.(handlers := s.handlers[h := Failed])
    case Classify(h, severity) => s.(handlers := s.handlers[h := Ready(severity)])
    case Lock(h) => s.(handlers := s.handlers[h := Locked(s.handlers[h].severity)])
    case Increment(h) => s.(count := s.count + 1, handlers := s.handlers[h := Counted(s.handlers[h].severity)])
    case Store(h) =>
      var severity := s.handlers[h].severity;
      s.(last := severity, handlers := s.handlers[h := Stored(severity)], commits := s.commits + [Commit(h, severity)])
    case Unlock(h) => s.(handlers := s.handlers[h := Succeeded(s.handlers[h].severity)])
    case Ask(o) => s.(observers := s.observers[o := Waiting(|s.commits|)])
    case ReadLock(o) => s.(observers := s.observers[o := Reading(s.observers[o].floor)])
    case ReadCount(o) => s.(observers := s.observers[o := HasCount(s.observers[o].floor, s.count)])
    case ReadSeverity(o) => s.(observers := s.observers[o := HasBoth(s.observers[o].floor, s.observers[o].count, s.last)])
    case ReadUnlock(o) =>
      var r := s.observers[o];
      s.(observers := s.observers[o := Answered(r.floor, r.count, r.severity)])
  }

  predicate IsRun(s: System, steps: seq<Step>)
    decreases |steps|
  {
    steps == [] || (Enabled(s, steps[0]) && IsRun(Next(s, steps[0]), steps[1..]))
  }

  function Final(s: System, steps: seq<Step>): System
    requires IsRun(s, steps)
    decreases |steps|
  {
    if steps == [] then s else Final(Next(s, steps[0]), steps[1..])
  }

  /** The state after the first n commits, as an observer may see it. */
  function SeverityAfter(commits: seq<Commit>, n: nat): string
    requires n <= |commits|
  {
    if n == 0 then "" else commits[n - 1].severity
  }

  function CommitsOf(commits: seq<Commit>, h: nat): nat {
    if commits == [] then 0
    else CommitsOf(commits[..|commits| - 1], h) + (if commits[|commits| - 1].handler == h then 1 else 0)
  }

  predicate HasCommitted(s: System, h: nat) {
    h in s.handlers && (s.handlers[h].Stored? || s.handlers[h].Succeeded?)
  }

  // ---------------------------------------------------------------- the invariant

  /** The shared fields: they are those of the last commit, except while a writer has counted but not stored. */
  ghost predicate FieldsInv(s: System) {
    && s.last == SeverityAfter(s.commits, |s.commits|)
    && ((exists h :: h in s.handlers && s.handlers[h].Counted?) ==> s.count == |s.commits| + 1)
    && ((forall h | h in s.handlers :: !s.handlers[h].Counted?) ==> s.count == |s.commits|)
  }

  ghost predicate LockInv(s: System) {
    && (forall h, g :: Writes(s, h) && Writes(s, g) ==> h == g)
    && (forall h, o :: Writes(s, h) ==> !Reads(s, o))
  }

  /** What a reader has read so far is the state after some number of commits at or above its floor. */
  ghost predicate ObserverInv(s: System, r: Observer) {
    && r.floor <= |s.commits|
    && (r.HasCount? ==> r.count == |s.commits|)
    && (r.HasBoth? ==> r.count == |s.commits| && r.severity == s.last)
    && (r.Answered? ==> r.floor <= r.count <= |s.commits| && r.severity == SeverityAfter(s.commits, r.count))
  }

  ghost predicate ObserversInv(s: System) {
    forall o | o in s.observers :: ObserverInv(s, s.observers[o])
  }

  /** One commit per handler that stored, under its own severity. */
  ghost predicate CommitsInv(s: System) {
    && (forall h :: CommitsOf(s.commits, h) == if HasCommitted(s, h) then 1 else 0)
    && (forall c | c in s.commits :: HasCommitted(s, c.handler) && s.handlers[c.handler].severity == c.severity)
  }

  ghost predicate Inv(s: System) {
    FieldsInv(s) && LockInv(s) && ObserversInv(s) && CommitsInv(s)
  }

  lemma LockKept(s: System, step: Step)
    requires Inv(s) && Enabled(s, step)
    ensures LockInv(Next(s, step))
  {
    var t := Next(s, step);
    if step.Lock? {
      assert forall h :: Writes(t, h) ==> h == step.h;
      assert forall o :: Reads(t, o) ==> Reads(s, o);
    } else if step.ReadLock? {
      assert forall h :: Writes(t, h) ==> Writes(s, h);
    } else {
      assert forall h :: Writes(t, h) ==> Writes(s, h);
      assert forall o :: Reads(t, o) ==> Reads(s, o);
    }
  }

  lemma FieldsKept(s: System, step: Step)
    requires Inv(s) && Enabled(s, step)
    ensures FieldsInv(Next(s, step))
  {
    var t := Next(s, step);
    if step.Increment? {
      assert Writes(s, step.h);
      assert forall g | g in s.handlers && g != step.h :: !Writes(s, g);
      assert t.handlers[step.h].Counted?;
    } else if step.Store? {
      assert Writes(s, step.h);
      assert s.handlers[step.h].Counted?;
      assert forall g | g in s.handlers && g != step.h :: !Writes(s, g);
      assert forall g | g in t.handlers :: !t.handlers[g].Counted?;
    } else {
      assert forall g :: g in t.handlers && t.handlers[g].Counted? <==> g in s.handlers && s.handlers[g].Counted?;
    }
  }

  lemma CommitsKept(s: System, step: Step)
    requires Inv(s) && Enabled(s, step)
    ensures CommitsInv(Next(s, step))
  {
    if step.Store? {
      StoreCommits(s, step.h);
    } else {
      var t := Next(s, step);
      assert forall h :: HasCommitted(t, h) <==> HasCommitted(s, h);
    }
  }

  lemma StoreCommits(s: System, h: nat)
    requires CommitsInv(s) && Enabled(s, Store(h))
    ensures CommitsInv(Next(s, Store(h)))
  {
    var t := Next(s, Store(h));
    assert t.commits[..|t.commits| - 1] == s.commits;
    assert forall g :: g != h ==> (HasCommitted(t, g) <==> HasCommitted(s, g));
  }

  lemma ObserversKept(s: System, step: Step)
    requires Inv(s) && Enabled(s, step)
    ensures ObserversInv(Next(s, step))
  {
    var t := Next(s, step);
    forall o | o in t.observers ensures ObserverInv(t, t.observers[o]) {
      if step.Store? {
        assert Writes(s, step.h) && !Reads(s, o);
        assert ObserverInv(s, s.observers[o]);
        var r := s.observers[o];
        if r.Answered? {
          assert SeverityAfter(t.commits, r.count) == SeverityAfter(s.commits, r.count);
        }
      } else if step.ReadCount? && o == step.o {
        assert Reads(s, o);
        assert forall h | h in s.handlers :: !Writes(s, h);
      } else if o in s.observers {
        assert ObserverInv(s, s.observers[o]);
      }
    }
  }

  /**
   What a caller can rely on: whenever no one writes, the count is the number of commits and the severity is
   that of the last one; a handler that succeeded has committed exactly once, one that failed never; every
   commit is that of a handler with that severity; every answered `/state` request shows the state after some
   number of commits, none of those made before it arrived missing.
   */
  ghost predicate Consistent(t: System) {
    && (NoWriter(t) ==> t.count == |t.commits| && t.last == SeverityAfter(t.commits, |t.commits|))
    && (forall h | h in t.handlers && t.handlers[h].Succeeded? :: CommitsOf(t.commits, h) == 1)
    && (forall h | h in t.handlers && t.handlers[h].Failed? :: CommitsOf(t.commits, h) == 0)
    && (forall c | c in t.commits :: HasCommitted(t, c.handler) && t.handlers[c.handler].severity == c.severity)
    && (forall o | o in t.observers && t.observers[o].Answered? ::
          t.observers[o].floor <= t.observers[o].count <= |t.commits|
          && t.observers[o].severity == SeverityAfter(t.commits, t.observers[o].count))
  }

  lemma Readings(t: System)
    requires Inv(t)
    ensures Consistent(t)
  {
    if NoWriter(t) {
      assert forall h | h in t.handlers :: !Writes(t, h) && !t.handlers[h].Counted?;
    }
    forall o | o in t.observers && t.observers[o].Answered?
      ensures t.observers[o].floor <= t.observers[o].count <= |t.commits|
              && t.observers[o].severity == SeverityAfter(t.commits, t.observers[o].count)
    {
      assert ObserverInv(t, t.observers[o]);
    }
  }

  lemma StepKeeps(s: System, step: Step)
    requires Inv(s) && Enabled(s, step)
    ensures Inv(Next(s, step))
  {
    LockKept(s, step);
    FieldsKept(s, step);
    CommitsKept(s, step);
    ObserversKept(s, step);
  }

  lemma {:induction false} RunKeeps(s: System, steps: seq<Step>)
    requires Inv(s) && IsRun(s, steps)
    ensures Inv(Final(s, steps))
    decreases |steps|
  {
    if steps != [] {
      StepKeeps(s, steps[0]);
      RunKeeps(Next(s, steps[0]), steps[1..]);
    }
  }

  /** Main theorem: every interleaving of handlers and `/state` requests on a fresh server is consistent. */
  lemma EveryInterleaving(steps: seq<Step>)
    requires IsRun(START, steps)
    ensures Consistent(Final(START, steps))
  {
    assert Inv(START);
    RunKeeps(START, steps);
    Readings(Final(START, steps));
  }

  /** What an answered request showed never becomes wrong: later commits only add to the order. */
  lemma {:induction false} CommitsAreFinal(s: System, steps: seq<Step>)
    requires IsRun(s, steps)
    ensures s.commits <= Final(s, steps).commits
    decreases |steps|
  {
    if steps != [] {
      CommitsAreFinal(Next(s, steps[0]), steps[1..]);
    }
  }

  // ---------------------------------------------------------------- the state told by the steps

  /** The handlers in the order of their Store steps. */
  function Stores(steps: seq<Step>): seq<nat> {
    if steps == [] then []
    else
      var last := steps[|steps| - 1];
      Stores(steps[..|steps| - 1]) + (if last.Store? then [last.h] else [])
  }

  predicate HasSeverity(h: Handler) {
    !h.Working? && !h.Failed?
  }

  /** The request arrived when this many severities had been stored. */
  predicate AskedAfter(past: seq<Step>, o: nat, floor: nat) {
    exists k | 0 <= k < |past| :: past[k] == Ask(o) && floor == |Stores(past[..k])|
  }

  /** What the steps taken say about the handlers, the order of commits and the requests. */
  ghost predicate Told(past: seq<Step>, s: System) {
    && (forall h | h in s.handlers && HasSeverity(s.handlers[h]) :: Classify(h, s.handlers[h].severity) in past)
    && (forall h, severity :: Classify(h, severity) in past ==>
          h in s.handlers && HasSeverity(s.handlers[h]) && s.handlers[h].severity == severity)
    && (forall h :: Fail(h) in past <==> h in s.handlers && s.handlers[h].Failed?)
    && (forall h :: Unlock(h) in past <==> h in s.handlers && s.handlers[h].Succeeded?)
    && |s.commits| == |Stores(past)|
    && (forall i | 0 <= i < |s.commits| :: s.commits[i].handler == Stores(past)[i])
    && (forall i | 0 <= i < |s.commits| :: Classify(s.commits[i].handler, s.commits[i].severity) in past)
    && (forall o | o in s.observers :: AskedAfter(past, o, s.observers[o].floor))
  }

  lemma AskedStill(past: seq<Step>, step: Step, o: nat, floor: nat)
    requires AskedAfter(past, o, floor)
    ensures AskedAfter(past + [step], o, floor)
  {
    var k :| 0 <= k < |past| && past[k] == Ask(o) && floor == |Stores(past[..k])|;
    assert (past + [step])[k] == Ask(o) && (past + [step])[..k] == past[..k];
  }

  lemma StoresSnoc(past: seq<Step>, step: Step)
    ensures Stores(past + [step]) == Stores(past) + (if step.Store? then [step.h] else [])
  {
    assert (past + [step])[..|past|] == past;
  }

  lemma SeveritiesTold(past: seq<Step>, s: System, step: Step)
    requires Told(past, s) && Enabled(s, step)
    ensures var t := Next(s, step);
            var now := past + [step];
            && (forall h | h in t.handlers && HasSeverity(t.handlers[h]) :: Classify(h, t.handlers[h].severity) in now)
            && (forall h, severity :: Classify(h, severity) in now ==>
                  h in t.handlers && HasSeverity(t.handlers[h]) && t.handlers[h].severity == severity)
  {
    assert forall x: Step :: x in past + [step] <==> x in past || x == step;
  }

  lemma EndsTold(past: seq<Step>, s: System, step: Step)
    requires Told(past, s) && Enabled(s, step)
    ensures var t := Next(s, step);
            && (forall h :: Fail(h) in past + [step] <==> h in t.handlers && t.handlers[h].Failed?)
            && (forall h :: Unlock(h) in past + [step] <==> h in t.handlers && t.handlers[h].Succeeded?)
  {
    assert forall x: Step :: x in past + [step] <==> x in past || x == step;
  }

  lemma CommitsTold(past: seq<Step>, s: System, step: Step)
    requires Told(past, s) && Enabled(s, step)
    ensures var t := Next(s, step);
            var now := past + [step];
            && |t.commits| == |Stores(now)|
            && (forall i | 0 <= i < |t.commits| :: t.commits[i].handler == Stores(now)[i])
            && (forall i | 0 <= i < |t.commits| :: Classify(t.commits[i].handler, t.commits[i].severity) in now)
  {
    StoresSnoc(past, step);
    assert forall x: Step :: x in past ==> x in past + [step];
  }

  lemma ObserversTold(past: seq<Step>, s: System, step: Step)
    requires Told(past, s) && Enabled(s, step)
    ensures var t := Next(s, step);
            forall o | o in t.observers :: AskedAfter(past + [step], o, t.observers[o].floor)
  {
    var t := Next(s, step);
    forall o | o in t.observers ensures AskedAfter(past + [step], o, t.observers[o].floor) {
      if o in s.observers {
        AskedStill(past, step, o, s.observers[o].floor);
      } else {
        assert (past + [step])[|past|] == Ask(o) && (past + [step])[..|past|] == past;
      }
    }
  }

  lemma StepTold(past: seq<Step>, s: System, step: Step)
    requires Told(past, s) && Enabled(s, step)
    ensures Told(past + [step], Next(s, step))
  {
    SeveritiesTold(past, s, step);
    EndsTold(past, s, step);
    CommitsTold(past, s, step);
    ObserversTold(past, s, step);
  }

  lemma {:induction false} ToldOn(past: seq<Step>, s: System, steps: seq<Step>)
    requires Told(past, s) && IsRun(s, steps)
    ensures Told(past + steps, Final(s, steps))
    decreases |steps|
  {
    if steps == [] {
      assert past + steps == past;
    } else {
      StepTold(past, s, steps[0]);
      ToldOn(past + [steps[0]], Next(s, steps[0]), steps[1..]);
      assert past + steps == past + [steps[0]] + steps[1..];
    }
  }

  /**
   Over every interleaving on a fresh server: a handler has a severity exactly when it was classified with it,
   has failed or succeeded exactly when it took that step, the commits are those of the Store steps in their order,
   each with the severity of its handler's classification, and a request's floor counts the stores before it.
   */
  lemma StepsTell(steps: seq<Step>)
    requires IsRun(START, steps)
    ensures Told(steps, Final(START, steps))
  {
    assert Told([], START);
    ToldOn([], START, steps);
    assert [] + steps == steps;
  }

  /** A classified handler that finds the lock free commits in four steps. */
  lemma ReadyCommits(s: System, h: nat, severity: string)
    requires h in s.handlers && s.handlers[h] == Ready(severity) && NoWriter(s) && NoReader(s)
    ensures var steps := [Lock(h), Increment(h), Store(h), Unlock(h)];
            && IsRun(s, steps)
            && Final(s, steps) == System(s.count + 1, severity, s.handlers[h := Succeeded(severity)], s.observers,
                                         s.commits + [Commit(h, severity)])
  {
    var s1 := Next(s, Lock(h));
    var s2 := Next(s1, Increment(h));
    var s3 := Next(s2, Store(h));
    var s4 := Next(s3, Unlock(h));
    FourSteps(s, Lock(h), Increment(h), Store(h), Unlock(h), s1, s2, s3, s4);
    assert s4.handlers == s.handlers[h := Succeeded(severity)];
  }

  lemma FourSteps(s: System, a: Step, b: Step, c: Step, d: Step, s1: System, s2: System, s3: System, s4: System)
    requires Enabled(s, a) && s1 == Next(s, a) && Enabled(s1, b) && s2 == Next(s1, b)
    requires Enabled(s2, c) && s3 == Next(s2, c) && Enabled(s3, d) && s4 == Next(s3, d)
    ensures IsRun(s, [a, b, c, d]) && Final(s, [a, b, c, d]) == s4
  {
    assert [a, b, c, d][1..] == [b, c, d] && [b, c, d][1..] == [c, d] && [c, d][1..] == [d] && [d][1..] == [];
    assert IsRun(s4, []) && Final(s4, []) == s4;
    assert IsRun(s3, [d]) && Final(s3, [d]) == s4;
    assert IsRun(s2, [c, d]) && Final(s2, [c, d]) == s4;
    assert IsRun(s1, [b, c, d]) && Final(s1, [b, c, d]) == s4;
  }

  /** A request that finds no writer is answered with the two fields in four steps. */
  lemma WaitingIsAnswered(s: System, o: nat, floor: nat)
    requires o in s.observers && s.observers[o] == Waiting(floor) && NoWriter(s)
    ensures var steps := [ReadLock(o), ReadCount(o), ReadSeverity(o), ReadUnlock(o)];
            && IsRun(s, steps)
            && Final(s, steps) == s.(observers := s.observers[o := Answered(floor, s.count, s.last)])
  {
    var s1 := Next(s, ReadLock(o));
    var s2 := Next(s1, ReadCount(o));
    var s3 := Next(s2, ReadSeverity(o));
    var s4 := Next(s3, ReadUnlock(o));
    FourSteps(s, ReadLock(o), ReadCount(o), ReadSeverity(o), ReadUnlock(o), s1, s2, s3, s4);
    assert s4.observers == s.observers[o := Answered(floor, s.count, s.last)];
  }
}

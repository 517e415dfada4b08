/**
 What single runs do, in terms of what the run was given: why each event of a run happened, when the state
 file goes away, which epochs let a request through, and what a run that gets far enough leaves behind.
 */
module RegistrationEffects {
  import opened Options
  import opened Registration
  import opened RegistrationRuns

  // ---------------------------------------------------------------- the gate, in plain arithmetic

  /** As 64-bit numbers the proxy's epoch is the chain's, or the next. */
  ghost predicate AtMostOneAhead(onchain: int, proxy: int) {
    exists d: int, k: int {:trigger Shift(d, k)} :: 0 <= d <= 1 && proxy - onchain == Shift(d, k)
  }

  function Shift(d: int, k: int): int {
    d + k * 0x1_0000_0000_0000_0000
  }

  ghost predicate LetsThrough(g: GateReading) {
    g.onchain.Some? && g.proxy.Some? ==> AtMostOneAhead(g.onchain.value, g.proxy.value)
  }

  lemma GateExactly(g: GateReading)
    ensures ConfirmedMismatch(g) <==> !LetsThrough(g)
  {
    if g.onchain.Some? && g.proxy.Some? {
      SyncExactly(g.onchain.value, g.proxy.value);
    }
  }

  lemma SyncExactly(onchain: nat, proxy: nat)
    ensures PolicyInSync(onchain, proxy) <==> AtMostOneAhead(onchain, proxy)
  {
    CongruentExactly(onchain, proxy);
    CongruentExactly(onchain + 1, proxy);
    if proxy % UINT64 == onchain % UINT64 {
      var k :| proxy - onchain == Shift(0, k);
    } else if proxy % UINT64 == (onchain + 1) % UINT64 {
      var k :| proxy - (onchain + 1) == Shift(0, k);
      assert proxy - onchain == Shift(1, k);
    }
    if d, k :| 0 <= d <= 1 && proxy - onchain == Shift(d, k) {
      assert d == 1 ==> proxy - (onchain + 1) == Shift(0, k);
    }
  }

  lemma CongruentExactly(a: nat, b: nat)
    ensures b % UINT64 == a % UINT64 <==> exists k :: b - a == Shift(0, k)
  {
    if b % UINT64 == a % UINT64 {
      assert b - a == Shift(0, b / UINT64 - a / UINT64);
    }
    if k :| b - a == Shift(0, k) {
      assert b == (a / UINT64 + k) * UINT64 + a % UINT64;
    }
  }

  /** In every chain, a request directly follows a reading of two epochs of which the proxy's is at most one ahead. */
  lemma RequestsFollowTheGate(jobs: seq<Job>, i: nat)
    requires i < |History(jobs)| && History(jobs)[i].Requested?
    ensures i > 0 && History(jobs)[i - 1].GateRead? && LetsThrough(History(jobs)[i - 1].reading)
  {
    AlwaysBooked(jobs);
    RequestFollowsGate(History(jobs), i);
  }

  lemma RequestFollowsGate(t: seq<Event>, i: nat)
    requires Proven(false, t) && i < |t| && t[i].Requested?
    ensures i > 0 && t[i - 1].GateRead? && LetsThrough(t[i - 1].reading)
  {
    assert ProvenEvent(false, t[..i], t[i]);
    GateExactly(t[i - 1].reading);
  }

  // ---------------------------------------------------------------- why an event happened

  /** The recorded step a write was for, and the call and the save that belong to it. */
  predicate SavedFor(plan: Plan, st: RegState) {
    && st.completed != ""
    && match st.completed[|st.completed| - 1]
       case 'r' => plan.register == Done(st.attestation) && plan.savedRegister
       case 'R' => plan.attest == Done(st.attestation) && plan.savedAttest
       case 'a' => plan.request == Done(st.instruction) && plan.savedRequest
       case _ => false
  }

  /** The state file goes away at a fresh start, or when the whole command has succeeded. */
  predicate MayRemove(command: string, plan: Plan) {
    || (!plan.resume && plan.removesStale)
    || (plan.starts && plan.removesFile && ('p' in command ==> plan.proof && plan.promote.Done?))
  }

  /** The reasons for an event of a run that found the machine registered or not. */
  ghost predicate Explained(command: string, plan: Plan, registered: bool, e: Event) {
    (e.Started? || e.Removed? || plan.starts) &&
    match e
    case Started(resume) => resume == plan.resume
    case Emitted(id, step, preRegistered) =>
      && step in command
      && ((step == 'r' && !plan.register.Refused? && id == plan.register.id)
          || (step == 'R' && !plan.attest.Refused? && id == plan.attest.id))
      && (preRegistered <==> step == 'r' && !(plan.machineQuery && registered))
    case GateRead(reading) => 'a' in command && reading == plan.gate
    case Requested(id, _) => 'a' in command && !plan.request.Refused? && id == plan.request.id && LetsThrough(plan.gate)
    case Promoted(_) => 'p' in command && plan.proof && !plan.promote.Refused?
    case Wrote(st) => SavedFor(plan, st)
    case Removed => MayRemove(command, plan)
  }

  /** The world has only gained explained events since. */
  ghost predicate Since(command: string, plan: Plan, w: World, v: World) {
    && w.trace <= v.trace
    && forall e | e in v.trace[|w.trace|..] :: Explained(command, plan, w.registered, e)
  }

  lemma SinceLog(command: string, plan: Plan, w: World, v: World, e: Event)
    requires Since(command, plan, w, v) && Explained(command, plan, w.registered, e)
    ensures Since(command, plan, w, Log(v, e))
  {
    assert Log(v, e).trace[|w.trace|..] == v.trace[|w.trace|..] + [e];
  }

  lemma SinceDelete(command: string, plan: Plan, w: World, v: World, deleted: bool)
    requires Since(command, plan, w, v) && (deleted ==> MayRemove(command, plan))
    ensures Since(command, plan, w, Delete(v, deleted))
  {
    if deleted && v.file.Some? {
      SinceLog(command, plan, w, v, Removed);
    }
  }

  lemma SinceSave(command: string, plan: Plan, w: World, v: World, st: RegState, saved: bool)
    requires Since(command, plan, w, v) && plan.starts && (saved ==> SavedFor(plan, st))
    ensures Since(command, plan, w, Save(v, st, saved))
  {
    if saved {
      SinceLog(command, plan, w, v, Wrote(st));
    }
  }

  lemma BeginExplained(command: string, plan: Plan, w: World)
    ensures Since(command, plan, w, Begin(plan, w).world) && Begin(plan, w).world.registered == w.registered
  {
    SinceDelete(command, plan, w, w, !plan.resume && plan.removesStale);
    SinceLog(command, plan, w, Delete(w, !plan.resume && plan.removesStale), Started(plan.resume));
  }

  lemma EmitStepExplained(command: string, plan: Plan, w: World, s: Session, step: char, pre: bool, call: Call, saved: bool)
    requires Since(command, plan, w, s.world) && plan.starts && step in command
    requires (step == 'r' && call == plan.register && saved == plan.savedRegister)
             || (step == 'R' && call == plan.attest && saved == plan.savedAttest)
    requires pre <==> step == 'r' && !(plan.machineQuery && w.registered)
    ensures Since(command, plan, w, EmitStep(s, step, pre, call, saved).world)
  {
    if !call.Refused? {
      SinceLog(command, plan, w, s.world, Emitted(call.id, step, pre));
      assert Emit(s.world, call.id, step, pre).trace == Log(s.world, Emitted(call.id, step, pre)).trace;
      if call.Done? {
        SinceSave(command, plan, w, Emit(s.world, call.id, step, pre),
                  RegState(s.state.completed + [step], call.id, s.state.instruction), saved);
      }
    }
  }

  lemma EmissionsExplained(command: string, plan: Plan, w: World)
    ensures Since(command, plan, w, AttestStep(command, plan, RegisterStep(command, plan, Begin(plan, w))).world)
    ensures AttestStep(command, plan, RegisterStep(command, plan, Begin(plan, w))).alive ==> plan.starts
  {
    var s := Begin(plan, w);
    BeginExplained(command, plan, w);
    if s.alive && 'r' in command && 'r' !in s.state.completed {
      EmitStepExplained(command, plan, w, s, 'r', !(plan.machineQuery && s.world.registered), plan.register, plan.savedRegister);
    }
    var u := RegisterStep(command, plan, s);
    if u.alive && 'R' in command && 'R' !in u.state.completed {
      EmitStepExplained(command, plan, w, u, 'R', false, plan.attest, plan.savedAttest);
    }
  }

  lemma RequestExplained(command: string, given: Hash, plan: Plan, w: World, s: Session)
    requires Since(command, plan, w, s.world) && (s.alive ==> plan.starts)
    ensures Since(command, plan, w, RequestStep(command, given, plan, s).world)
    ensures RequestStep(command, given, plan, s).alive ==> plan.starts
  {
    if s.alive && 'a' in command && 'a' !in s.state.completed {
      var gated := Log(s.world, GateRead(plan.gate));
      SinceLog(command, plan, w, s.world, GateRead(plan.gate));
      GateExactly(plan.gate);
      if !ConfirmedMismatch(plan.gate) && !plan.request.Refused? {
        SinceLog(command, plan, w, gated, Requested(plan.request.id, s.attestation));
        if plan.request.Done? {
          SinceSave(command, plan, w, Log(gated, Requested(plan.request.id, s.attestation)),
                    RegState(s.state.completed + "a", s.state.attestation, plan.request.id), plan.savedRequest);
        }
      }
    }
  }

  lemma PromoteExplained(command: string, plan: Plan, w: World, s: Session)
    requires Since(command, plan, w, s.world) && (s.alive ==> plan.starts)
    ensures Since(command, plan, w, PromoteStep(command, plan, s).world)
    ensures PromoteStep(command, plan, s).alive ==> plan.starts
    ensures PromoteStep(command, plan, s).alive && 'p' in command ==> plan.proof && plan.promote.Done?
  {
    if s.alive && 'p' in command && plan.proof && !plan.promote.Refused? {
      SinceLog(command, plan, w, s.world, Promoted(s.instruction));
    }
  }

  /** Main theorem on single runs: whatever the world, every event of a run has its reason in what the run was given. */
  lemma RunExplained(command: string, given: Hash, plan: Plan, w: World)
    ensures Since(command, plan, w, Run(command, given, plan, w))
  {
    var s := AttestStep(command, plan, RegisterStep(command, plan, Begin(plan, w)));
    var u := RequestStep(command, given, plan, s);
    EmissionsExplained(command, plan, w);
    RequestExplained(command, given, plan, w, s);
    PromoteExplained(command, plan, w, u);
    var v := PromoteStep(command, plan, u);
    if v.alive {
      SinceDelete(command, plan, w, v.world, plan.removesFile);
    }
  }

  // ---------------------------------------------------------------- the state file

  /** The machine is registered once some attestation came with a pre-registration. */
  lemma {:induction false} RegisteredExactly(jobs: seq<Job>)
    ensures Chain(jobs, NEW_WORLD).registered <==> exists e | e in History(jobs) :: e.Emitted? && e.preRegistered
  {
    if jobs != [] {
      var last := jobs[|jobs| - 1];
      RegisteredExactly(jobs[..|jobs| - 1]);
      RunRegisters(last.command, last.given, last.plan, Chain(jobs[..|jobs| - 1], NEW_WORLD));
    }
  }

  ghost predicate RegistersTruly(w: World) {
    w.registered <==> exists e | e in w.trace :: e.Emitted? && e.preRegistered
  }

  lemma TrulyLog(w: World, e: Event)
    requires RegistersTruly(w) && !e.Emitted?
    ensures RegistersTruly(Log(w, e))
  {
    assert forall x | x in w.trace :: x in Log(w, e).trace;
  }

  lemma TrulyEmit(w: World, id: Hash, step: char, pre: bool)
    requires RegistersTruly(w)
    ensures RegistersTruly(Emit(w, id, step, pre))
  {
    var e := Emitted(id, step, pre);
    var v := Emit(w, id, step, pre);
    assert e in v.trace && forall x | x in w.trace :: x in v.trace;
  }

  lemma TrulyStep(s: Session, step: char, pre: bool, call: Call, saved: bool)
    requires RegistersTruly(s.world)
    ensures RegistersTruly(EmitStep(s, step, pre, call, saved).world)
  {
    if !call.Refused? {
      TrulyEmit(s.world, call.id, step, pre);
      if call.Done? && saved {
        TrulyLog(Emit(s.world, call.id, step, pre), Wrote(RegState(s.state.completed + [step], call.id, s.state.instruction)));
      }
    }
  }

  lemma TrulyRequest(command: string, given: Hash, plan: Plan, s: Session)
    requires RegistersTruly(s.world)
    ensures RegistersTruly(RequestStep(command, given, plan, s).world)
  {
    if s.alive && 'a' in command && 'a' !in s.state.completed {
      TrulyLog(s.world, GateRead(plan.gate));
      if !ConfirmedMismatch(plan.gate) && !plan.request.Refused? {
        var requested := Log(Log(s.world, GateRead(plan.gate)), Requested(plan.request.id, s.attestation));
        TrulyLog(Log(s.world, GateRead(plan.gate)), Requested(plan.request.id, s.attestation));
        TrulyLog(requested, Wrote(RegState(s.state.completed + "a", s.state.attestation, plan.request.id)));
      }
    }
  }

  lemma TrulyDelete(w: World, deleted: bool)
    requires RegistersTruly(w)
    ensures RegistersTruly(Delete(w, deleted))
  {
    TrulyLog(w, Removed);
  }

  lemma RunRegisters(command: string, given: Hash, plan: Plan, w: World)
    requires RegistersTruly(w)
    ensures RegistersTruly(Run(command, given, plan, w))
  {
    TrulyDelete(w, !plan.resume && plan.removesStale);
    TrulyLog(Delete(w, !plan.resume && plan.removesStale), Started(plan.resume));
    var s0 := Begin(plan, w);
    TrulyStep(s0, 'r', !(plan.machineQuery && s0.world.registered), plan.register, plan.savedRegister);
    var s1 := RegisterStep(command, plan, s0);
    TrulyStep(s1, 'R', false, plan.attest, plan.savedAttest);
    var s2 := AttestStep(command, plan, s1);
    TrulyRequest(command, given, plan, s2);
    var s3 := RequestStep(command, given, plan, s2);
    TrulyLog(s3.world, Promoted(s3.instruction));
    TrulyDelete(PromoteStep(command, plan, s3).world, plan.removesFile);
  }

  /** The file lists at least these steps, and memory at least what the file lists. */
  predicate Holds(base: string, s: Session) {
    s.world.file.Some? && base <= s.world.file.value.completed <= s.state.completed
  }

  lemma EmitStepHolds(base: string, s: Session, step: char, pre: bool, call: Call, saved: bool)
    requires Holds(base, s)
    ensures Holds(base, EmitStep(s, step, pre, call, saved))
  {
  }

  lemma EmissionsHold(command: string, plan: Plan, base: string, s: Session)
    requires Holds(base, s)
    ensures Holds(base, AttestStep(command, plan, RegisterStep(command, plan, s)))
  {
    EmitStepHolds(base, s, 'r', !(plan.machineQuery && s.world.registered), plan.register, plan.savedRegister);
    EmitStepHolds(base, RegisterStep(command, plan, s), 'R', false, plan.attest, plan.savedAttest);
  }

  lemma RequestHolds(command: string, given: Hash, plan: Plan, base: string, s: Session)
    requires Holds(base, s)
    ensures Holds(base, RequestStep(command, given, plan, s))
  {
  }

  /**
   A resumed run loses nothing the file lists, unless the whole command has succeeded: with `p` in it, the proof
   was there and the production transaction confirmed.
   */
  lemma FileSurvivesFailure(command: string, given: Hash, plan: Plan, w: World)
    requires plan.resume && w.file.Some?
    ensures var v := Run(command, given, plan, w);
            v.file.None? || !(w.file.value.completed <= v.file.value.completed) ==>
              plan.removesFile && ('p' in command ==> plan.proof && plan.promote.Done?)
  {
    var base := w.file.value.completed;
    var s := Begin(plan, w);
    assert Holds(base, s);
    EmissionsHold(command, plan, base, s);
    var u := AttestStep(command, plan, RegisterStep(command, plan, s));
    RequestHolds(command, given, plan, base, u);
    PromotedAlive(command, plan, RequestStep(command, given, plan, u));
  }

  lemma PromotedAlive(command: string, plan: Plan, s: Session)
    ensures PromoteStep(command, plan, s).alive && 'p' in command ==> plan.proof && plan.promote.Done?
    ensures PromoteStep(command, plan, s).world.file == s.world.file && PromoteStep(command, plan, s).state == s.state
  {
  }

  /** Every removal is part of a fresh start, or directly follows a promotion. */
  predicate Flanked(t: seq<Event>) {
    forall i {:trigger t[i]} | 0 <= i < |t| && t[i].Removed? ::
      (i + 1 < |t| && t[i + 1] == Started(false)) || (i > 0 && t[i - 1].Promoted?)
  }

  lemma FlankedLog(t: seq<Event>, e: Event)
    requires Flanked(t) && (e.Removed? ==> t != [] && t[|t| - 1].Promoted?)
    ensures Flanked(t + [e])
  {
    var u := t + [e];
    forall i | 0 <= i < |u| && u[i].Removed?
      ensures (i + 1 < |u| && u[i + 1] == Started(false)) || (i > 0 && u[i - 1].Promoted?)
    {
      if i < |t| {
        assert t[i] == u[i];
        assert i > 0 ==> t[i - 1] == u[i - 1];
        assert i + 1 < |t| ==> t[i + 1] == u[i + 1];
      }
    }
  }

  lemma FlankedFreshStart(t: seq<Event>)
    requires Flanked(t)
    ensures Flanked(t + [Removed] + [Started(false)])
  {
    var u := t + [Removed] + [Started(false)];
    forall i | 0 <= i < |u| && u[i].Removed?
      ensures (i + 1 < |u| && u[i + 1] == Started(false)) || (i > 0 && u[i - 1].Promoted?)
    {
      if i < |t| {
        assert t[i] == u[i];
        assert i > 0 ==> t[i - 1] == u[i - 1];
        assert i + 1 < |t| ==> t[i + 1] == u[i + 1];
      }
    }
  }

  lemma FlankedBegin(plan: Plan, w: World)
    requires Flanked(w.trace)
    ensures Flanked(Begin(plan, w).world.trace)
  {
    if !plan.resume && plan.removesStale && w.file.Some? {
      FlankedFreshStart(w.trace);
    } else {
      FlankedLog(w.trace, Started(plan.resume));
    }
  }

  lemma FlankedEmit(s: Session, step: char, pre: bool, call: Call, saved: bool)
    requires Flanked(s.world.trace)
    ensures Flanked(EmitStep(s, step, pre, call, saved).world.trace)
  {
    if !call.Refused? {
      FlankedLog(s.world.trace, Emitted(call.id, step, pre));
      FlankedLog(Emit(s.world, call.id, step, pre).trace, Wrote(RegState(s.state.completed + [step], call.id, s.state.instruction)));
    }
  }

  lemma FlankedRequest(command: string, given: Hash, plan: Plan, s: Session)
    requires Flanked(s.world.trace)
    ensures Flanked(RequestStep(command, given, plan, s).world.trace)
  {
    if s.alive && 'a' in command && 'a' !in s.state.completed {
      FlankedLog(s.world.trace, GateRead(plan.gate));
      if !plan.request.Refused? {
        var gated := Log(s.world, GateRead(plan.gate));
        FlankedLog(gated.trace, Requested(plan.request.id, s.attestation));
        FlankedLog(Log(gated, Requested(plan.request.id, s.attestation)).trace,
                   Wrote(RegState(s.state.completed + "a", s.state.attestation, plan.request.id)));
      }
    }
  }

  lemma FlankedEnd(command: string, plan: Plan, s: Session)
    requires Flanked(s.world.trace) && 'p' in command
    ensures var u := PromoteStep(command, plan, s);
            Flanked((if u.alive then Delete(u.world, plan.removesFile) else u.world).trace)
  {
    FlankedLog(s.world.trace, Promoted(s.instruction));
    FlankedLog(s.world.trace + [Promoted(s.instruction)], Removed);
  }

  lemma RunFlanked(command: string, given: Hash, plan: Plan, w: World)
    requires Flanked(w.trace) && 'p' in command
    ensures Flanked(Run(command, given, plan, w).trace)
  {
    var s := Begin(plan, w);
    FlankedBegin(plan, w);
    FlankedEmit(s, 'r', !(plan.machineQuery && s.world.registered), plan.register, plan.savedRegister);
    var u := RegisterStep(command, plan, s);
    FlankedEmit(u, 'R', false, plan.attest, plan.savedAttest);
    var x := AttestStep(command, plan, u);
    FlankedRequest(command, given, plan, x);
    FlankedEnd(command, plan, RequestStep(command, given, plan, x));
  }

  /** Over every chain of commands with `p`. */
  lemma {:induction false} RemovalsFlanked(jobs: seq<Job>)
    requires forall i | 0 <= i < |jobs| :: 'p' in jobs[i].command
    ensures Flanked(History(jobs))
  {
    if jobs != [] {
      var last := jobs[|jobs| - 1];
      RemovalsFlanked(jobs[..|jobs| - 1]);
      RunFlanked(last.command, last.given, last.plan, Chain(jobs[..|jobs| - 1], NEW_WORLD));
    }
  }

  // ---------------------------------------------------------------- what a run that gets far enough does

  /** Everything up to the gate succeeds. */
  predicate ReachesGate(plan: Plan) {
    plan.starts && plan.register.Done? && plan.attest.Done?
  }

  /**
   If everything else succeeds, a run whose file lists no `a` logs a request exactly when one of the epochs could
   not be read or the proxy's is at most one ahead.
   */
  lemma RequestsExactly(command: string, given: Hash, plan: Plan, w: World)
    requires ReachesGate(plan) && !plan.request.Refused? && 'a' in command && 'a' !in Found(plan, w)
    ensures var v := Run(command, given, plan, w);
            w.trace <= v.trace && ((exists e | e in v.trace[|w.trace|..] :: e.Requested?) <==> LetsThrough(plan.gate))
  {
    RunExplained(command, given, plan, w);
    GateExactly(plan.gate);
    if LetsThrough(plan.gate) {
      var s := AttestStep(command, plan, RegisterStep(command, plan, Begin(plan, w)));
      EmissionsExplained(command, plan, w);
      GateReached(command, plan, w);
      RequestLogged(command, given, plan, w, s);
      var u := RequestStep(command, given, plan, s);
      assert u.world.trace <= Run(command, given, plan, w).trace;
    }
  }

  lemma GateReached(command: string, plan: Plan, w: World)
    requires ReachesGate(plan) && 'a' !in Found(plan, w)
    ensures var s := AttestStep(command, plan, RegisterStep(command, plan, Begin(plan, w)));
            s.alive && 'a' !in s.state.completed
  {
    var u := RegisterStep(command, plan, Begin(plan, w));
    assert u.alive && 'a' !in u.state.completed;
  }

  lemma RequestLogged(command: string, given: Hash, plan: Plan, w: World, s: Session)
    requires s.alive && 'a' in command && 'a' !in s.state.completed && w.trace <= s.world.trace
    requires !ConfirmedMismatch(plan.gate) && !plan.request.Refused?
    ensures var t := RequestStep(command, given, plan, s).world.trace;
            w.trace <= t && |t| >= |s.world.trace| + 2 && t[|s.world.trace| + 1] == Requested(plan.request.id, s.attestation)
            && t[|s.world.trace| + 1] in t[|w.trace|..]
  {
    var t := RequestStep(command, given, plan, s).world.trace;
    var k := |s.world.trace| + 1;
    assert t[|w.trace|..][k - |w.trace|] == t[k];
  }

  /** If everything up to the promotion succeeds, it happens exactly when the proof is there and the call not refused. */
  lemma PromotesExactly(command: string, given: Hash, plan: Plan, w: World)
    requires Ordered(command, w) && 'p' in command
    requires ReachesGate(plan) && LetsThrough(plan.gate) && plan.request.Done?
    ensures var v := Run(command, given, plan, w);
            && w.trace <= v.trace
            && ((exists e | e in v.trace[|w.trace|..] :: e.Promoted?) <==> plan.proof && !plan.promote.Refused?)
            && (v.production <==> w.production || (plan.proof && !plan.promote.Refused?))
  {
    RunExplained(command, given, plan, w);
    GateExactly(plan.gate);
    MissingStepsExactly(command, given, plan, w);
    NotYetPromoted(command, given, plan, w);
    var u := Prepared(command, given, plan, w);
    EmissionsExplained(command, plan, w);
    RequestExplained(command, given, plan, w, AttestStep(command, plan, RegisterStep(command, plan, Begin(plan, w))));
    if plan.proof && !plan.promote.Refused? {
      var t := u.world.trace + [Promoted(u.instruction)];
      assert t <= Run(command, given, plan, w).trace;
      assert Run(command, given, plan, w).trace[|w.trace|..][|u.world.trace| - |w.trace|] == Promoted(u.instruction);
    }
  }

  lemma EmissionsDoNotPromote(command: string, plan: Plan, s: Session)
    ensures AttestStep(command, plan, RegisterStep(command, plan, s)).world.production == s.world.production
  {
    var u := RegisterStep(command, plan, s);
    assert u.world.production == s.world.production;
  }

  lemma RequestDoesNotPromote(command: string, given: Hash, plan: Plan, s: Session)
    ensures RequestStep(command, given, plan, s).world.production == s.world.production
  {
  }

  lemma NotYetPromoted(command: string, given: Hash, plan: Plan, w: World)
    ensures Prepared(command, given, plan, w).world.production == w.production
  {
    EmissionsDoNotPromote(command, plan, Begin(plan, w));
    RequestDoesNotPromote(command, given, plan, AttestStep(command, plan, RegisterStep(command, plan, Begin(plan, w))));
  }

  /** Memory and file agree, or nothing has been recorded. */
  predicate FileIsState(s: Session) {
    s.world.file == Some(s.state) || (s.world.file.None? && s.state == EMPTY_STATE)
  }

  lemma EmitStepFiles(s: Session, step: char, pre: bool, call: Call)
    requires FileIsState(s) && !call.Lost?
    ensures FileIsState(EmitStep(s, step, pre, call, true))
  {
  }

  lemma RequestFiles(command: string, given: Hash, plan: Plan, s: Session)
    requires FileIsState(s) && plan.savedRequest
    ensures FileIsState(RequestStep(command, given, plan, s))
  {
  }

  /** If the saves work, a run that fails at the promotion leaves a file that lists every step before it. */
  lemma SavedExactly(command: string, given: Hash, plan: Plan, w: World)
    requires Ordered(command, w) && 'p' in command && Order(command) != ""
    requires ReachesGate(plan) && LetsThrough(plan.gate) && plan.request.Done?
    requires plan.savedRegister && plan.savedAttest && plan.savedRequest
    requires !plan.resume ==> plan.removesStale
    requires !(plan.proof && plan.promote.Done?)
    ensures Run(command, given, plan, w).file.Some? && Run(command, given, plan, w).file.value.completed == Order(command)
  {
    GateExactly(plan.gate);
    MissingStepsExactly(command, given, plan, w);
    var s := Begin(plan, w);
    EmitStepFiles(s, 'r', !(plan.machineQuery && s.world.registered), plan.register);
    var u := RegisterStep(command, plan, s);
    EmitStepFiles(u, 'R', false, plan.attest);
    RequestFiles(command, given, plan, AttestStep(command, plan, u));
    PromotedAlive(command, plan, Prepared(command, given, plan, w));
  }

  /** If no save works and nothing is removed, the file is as it was. */
  lemma UnsavedKeeps(command: string, given: Hash, plan: Plan, w: World)
    requires !plan.savedRegister && !plan.savedAttest && !plan.savedRequest && !plan.removesFile
    requires plan.resume || !plan.removesStale
    ensures Run(command, given, plan, w).file == w.file
  {
    var s := Begin(plan, w);
    assert s.world.file == w.file;
    var u := RegisterStep(command, plan, s);
    assert u.world.file == w.file;
    var v := AttestStep(command, plan, u);
    assert v.world.file == w.file;
    assert RequestStep(command, given, plan, v).world.file == w.file;
    PromotedAlive(command, plan, RequestStep(command, given, plan, v));
  }
}

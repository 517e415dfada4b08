/**
 TEE registration: the steps `r` (pre-register), `R` (request an attestation), `a` (request the
 FTDC availability check) and `p` (move to production), the state file that lets an interrupted
 registration resume, and the on-chain history all of this leaves behind.

 `Run` gives one run of `register-tee` as a function of the world before it; the class
 `RegistrationTool` is the step-by-step program. What holds over whole chains of interrupted
 runs is proved about `Run` in RegistrationRuns.dfy.
 */
module Registration {
  import opened Options

  /** Instruction ids; ZERO_HASH is the zero value a run starts from. */
  type Hash = nat
  const ZERO_HASH: Hash := 0

  const UINT64: nat := 0x1_0000_0000_0000_0000

  /** What the state file holds. */
  datatype RegState = RegState(completed: string, attestation: Hash, instruction: Hash)

  const EMPTY_STATE := RegState("", ZERO_HASH, ZERO_HASH)

  /**
   An external call: it succeeds, it fails without effect, or it takes effect on the chain and the
   run ends before the result is used (an error while waiting for the receipt, or a crash).
   */
  datatype Call = Done(id: Hash) | Refused | Lost(id: Hash)

  /** The on-chain reward epoch and the proxy's signing policy, when they could be read. */
  datatype GateReading = GateReading(onchain: Option<nat>, proxy: Option<nat>)

  /** Everything outside the program's control during one run. */
  datatype Plan = Plan(
    resume: bool, removesStale: bool, starts: bool,
    machineQuery: bool, register: Call, savedRegister: bool,
    attest: Call, savedAttest: bool,
    gate: GateReading, request: Call, savedRequest: bool,
    proof: bool, promote: Call, removesFile: bool)

  /** What happened, on the chain and to the state file, in order. */
  datatype Event =
    | Started(resume: bool)
    | Emitted(id: Hash, step: char, preRegistered: bool)
    | GateRead(reading: GateReading)
    | Requested(id: Hash, attestation: Hash)
    | Promoted(proofOf: Hash)
    | Wrote(state: RegState)
    | Removed

  datatype World = World(file: Option<RegState>, registered: bool, production: bool, trace: seq<Event>)

  const NEW_WORLD := World(None, false, false, [])

  // ---------------------------------------------------------------- the policy gate

  /** Epochs are compared as 64-bit numbers, so the tolerated successor wraps around. */
  predicate PolicyInSync(onchain: nat, proxy: nat) {
    proxy % UINT64 == onchain % UINT64 || proxy % UINT64 == (onchain + 1) % UINT64
  }

  /** Only a mismatch between two successful readings stops a run. */
  predicate ConfirmedMismatch(g: GateReading) {
    g.onchain.Some? && g.proxy.Some? && !PolicyInSync(g.onchain.value, g.proxy.value)
  }

  // ---------------------------------------------------------------- one run, as a function

  /** The variables of a run; `alive` is false once it has returned an error or crashed. */
  datatype Session = Session(world: World, state: RegState, alive: bool, attestation: Hash, instruction: Hash)

  function Log(w: World, e: Event): World {
    w.(trace := w.trace + [e])
  }

  /** A failed save is only a warning: the file keeps its previous contents. */
  function Save(w: World, st: RegState, saved: bool): World {
    if saved then Log(w.(file := Some(st)), Wrote(st)) else w
  }

  function Delete(w: World, deleted: bool): World {
    if deleted && w.file.Some? then Log(w.(file := None), Removed) else w
  }

  function Emit(w: World, id: Hash, step: char, preRegister: bool): World {
    Log(w.(registered := w.registered || preRegister), Emitted(id, step, preRegister))
  }

  function Begin(plan: Plan, w: World): Session {
    var cleared := Log(Delete(w, !plan.resume && plan.removesStale), Started(plan.resume));
    Session(cleared, cleared.file.GetOr(EMPTY_STATE), plan.starts, ZERO_HASH, ZERO_HASH)
  }

  /** The common part of `r` and `R`: one transaction that emits an attestation instruction. */
  function EmitStep(s: Session, step: char, preRegister: bool, call: Call, saved: bool): Session {
    match call
    case Refused => s.(alive := false)
    case Lost(id) => s.(alive := false, world := Emit(s.world, id, step, preRegister))
    case Done(id) =>
      var st := RegState(s.state.completed + [step], id, s.state.instruction);
      s.(world := Save(Emit(s.world, id, step, preRegister), st, saved), state := st, attestation := id)
  }

  function RegisterStep(command: string, plan: Plan, s: Session): Session {
    if !s.alive || 'r' !in command then s
    else if 'r' in s.state.completed then s.(attestation := s.state.attestation)
    else EmitStep(s, 'r', !(plan.machineQuery && s.world.registered), plan.register, plan.savedRegister)
  }

  function AttestStep(command: string, plan: Plan, s: Session): Session {
    if !s.alive || 'R' !in command then s
    else if 'R' in s.state.completed then s.(attestation := s.state.attestation)
    else EmitStep(s, 'R', false, plan.attest, plan.savedAttest)
  }

  function RequestStep(command: string, given: Hash, plan: Plan, s: Session): Session {
    if !s.alive then s
    else if 'a' !in command then s.(instruction := given)
    else if 'a' in s.state.completed then s.(instruction := s.state.instruction)
    else
      var gated := Log(s.world, GateRead(plan.gate));
      if ConfirmedMismatch(plan.gate) then s.(alive := false, world := gated)
      else
        match plan.request
        case Refused => s.(alive := false, world := gated)
        case Lost(id) => s.(alive := false, world := Log(gated, Requested(id, s.attestation)))
        case Done(id) =>
          var st := RegState(s.state.completed + "a", s.state.attestation, id);
          s.(world := Save(Log(gated, Requested(id, s.attestation)), st, plan.savedRequest),
             state := st, instruction := id)
  }

  function PromoteStep(command: string, plan: Plan, s: Session): Session {
    if !s.alive || 'p' !in command then s
    else if !plan.proof || plan.promote.Refused? then s.(alive := false)
    else s.(alive := plan.promote.Done?, world := Log(s.world.(production := true), Promoted(s.instruction)))
  }

  /** One run of the tool from the world w. */
  function Run(command: string, given: Hash, plan: Plan, w: World): World {
    var s := PromoteStep(command, plan,
             RequestStep(command, given, plan,
             AttestStep(command, plan,
             RegisterStep(command, plan, Begin(plan, w)))));
    if s.alive then Delete(s.world, plan.removesFile) else s.world
  }

  // ---------------------------------------------------------------- the program

  class RegistrationTool {
    var file: Option<RegState>
    var registered: bool
    var production: bool
    var trace: seq<Event>

    function Contents(): World
      reads this
    {
      World(file, registered, production, trace)
    }

    constructor ()
      ensures Contents() == NEW_WORLD
    {
      file, registered, production, trace := None, false, false, [];
    }

    method SaveState(st: RegState, saved: bool)
      modifies this
      ensures Contents() == Save(old(Contents()), st, saved)
    {
      if saved {
        file := Some(st);
        trace := trace + [Wrote(st)];
      }
    }

    method RemoveFile(removed: bool)
      modifies this
      ensures Contents() == Delete(old(Contents()), removed)
    {
      if removed && file.Some? {
        file := None;
        trace := trace + [Removed];
      }
    }

    /** Sends the transaction that emits an attestation instruction; false means the run must stop. */
    method SendAttestation(step: char, preRegister: bool, call: Call) returns (ok: bool, id: Hash)
      modifies this
      ensures ok <==> call.Done?
      ensures call.Refused? ==> Contents() == old(Contents())
      ensures !call.Refused? ==> Contents() == Emit(old(Contents()), call.id, step, preRegister)
      ensures ok ==> id == call.id
    {
      if call.Refused? {
        return false, ZERO_HASH;
      }
      registered := registered || preRegister;
      trace := trace + [Emitted(call.id, step, preRegister)];
      return call.Done?, call.id;
    }

    /** The `r` or `R` step proper: send, then record the step in memory and on disk. */
    method Perform(step: char, preRegister: bool, call: Call, saved: bool, state: RegState, attestation: Hash)
      returns (ok: bool, next: RegState, id: Hash)
      modifies this
      ensures EmitStep(Session(old(Contents()), state, true, attestation, ZERO_HASH), step, preRegister, call, saved)
           == Session(Contents(), next, ok, id, ZERO_HASH)
    {
      var sent, emitted := SendAttestation(step, preRegister, call);
      if !sent {
        return false, state, attestation;
      }
      next := RegState(state.completed + [step], emitted, state.instruction);
      SaveState(next, saved);
      return true, next, emitted;
    }

    method PreRegister(command: string, plan: Plan, state: RegState) returns (ok: bool, next: RegState, id: Hash)
      modifies this
      ensures RegisterStep(command, plan, Session(old(Contents()), state, true, ZERO_HASH, ZERO_HASH))
           == Session(Contents(), next, ok, id, ZERO_HASH)
    {
      if 'r' !in command {
        return true, state, ZERO_HASH;
      }
      if 'r' in state.completed {
        return true, state, state.attestation;
      }
      var known := plan.machineQuery && registered;
      ok, next, id := Perform('r', !known, plan.register, plan.savedRegister, state, ZERO_HASH);
    }

    method RequestAttestation(command: string, plan: Plan, state: RegState, attestation: Hash)
      returns (ok: bool, next: RegState, id: Hash)
      modifies this
      ensures AttestStep(command, plan, Session(old(Contents()), state, true, attestation, ZERO_HASH))
           == Session(Contents(), next, ok, id, ZERO_HASH)
    {
      if 'R' !in command {
        return true, state, attestation;
      }
      if 'R' in state.completed {
        return true, state, state.attestation;
      }
      ok, next, id := Perform('R', false, plan.attest, plan.savedAttest, state, attestation);
    }

    method RequestAvailability(command: string, given: Hash, plan: Plan, state: RegState, attestation: Hash)
      returns (ok: bool, next: RegState, instruction: Hash)
      modifies this
      ensures RequestStep(command, given, plan, Session(old(Contents()), state, true, attestation, ZERO_HASH))
           == Session(Contents(), next, ok, attestation, instruction)
    {
      next, instruction := state, ZERO_HASH;
      if 'a' !in command {
        return true, next, given;
      }
      if 'a' in state.completed {
        return true, next, state.instruction;
      }
      trace := trace + [GateRead(plan.gate)];
      if ConfirmedMismatch(plan.gate) || plan.request.Refused? {
        return false, next, instruction;
      }
      trace := trace + [Requested(plan.request.id, attestation)];
      if plan.request.Lost? {
        return false, next, instruction;
      }
      next := RegState(state.completed + "a", state.attestation, plan.request.id);
      SaveState(next, plan.savedRequest);
      return true, next, plan.request.id;
    }

    method Promote(command: string, plan: Plan, state: RegState, attestation: Hash, instruction: Hash)
      returns (ok: bool)
      modifies this
      ensures PromoteStep(command, plan, Session(old(Contents()), state, true, attestation, instruction))
           == Session(Contents(), state, ok, attestation, instruction)
    {
      if 'p' !in command {
        return true;
      }
      if !plan.proof || plan.promote.Refused? {
        return false;
      }
      production := true;
      trace := trace + [Promoted(instruction)];
      return plan.promote.Done?;
    }

    /** `register-tee`: clear a stale file unless resuming, then the four steps of RegisterNode. */
    method RegisterTee(command: string, given: Hash, plan: Plan)
      modifies this
      ensures Contents() == Run(command, given, plan, old(Contents()))
    {
      RemoveFile(!plan.resume && plan.removesStale);
      trace := trace + [Started(plan.resume)];
      if !plan.starts {
        return;
      }
      var state := if file.Some? then file.value else EMPTY_STATE;
      var attestation, instruction := ZERO_HASH, ZERO_HASH;
      var ok: bool;
      ok, state, attestation := PreRegister(command, plan, state);
      if ok {
        ok, state, attestation := RequestAttestation(command, plan, state, attestation);
      }
      if ok {
        ok, state, instruction := RequestAvailability(command, given, plan, state, attestation);
      }
      if ok {
        ok := Promote(command, plan, state, attestation, instruction);
      }
      if ok {
        RemoveFile(plan.removesFile);
      }
    }
  }
}

/**
 What every chain of interrupted and resumed registration runs keeps, whatever command each run is given.

 `Proven` is read off the history alone: which attestation each availability request carried, which
 request each production proof came from, what each write of the state file contained. Its bookkeeping
 half holds of every chain; its sourcing half holds exactly for the sets of commands that are compatible.
 */
module RegistrationRuns {
  import opened Options
  import opened Registration

  // ---------------------------------------------------------------- reading the history

  function Last(t: seq<Event>): Event
    requires t != []
  {
    t[|t| - 1]
  }

  function Front(t: seq<Event>): seq<Event>
    requires t != []
  {
    t[..|t| - 1]
  }

  /** The most recent attestation id emitted for the TEE. */
  function LastEmitted(t: seq<Event>): Option<Hash> {
    if t == [] then None
    else if Last(t).Emitted? then Some(Last(t).id)
    else LastEmitted(Front(t))
  }

  /** The most recent availability request: its id and the attestation it carried. */
  function LastRequest(t: seq<Event>): Option<(Hash, Hash)> {
    if t == [] then None
    else if Last(t).Requested? then Some((Last(t).id, Last(t).attestation))
    else LastRequest(Front(t))
  }

  /** The state file, replayed from its writes and removals. */
  function FileOf(t: seq<Event>): Option<RegState> {
    if t == [] then None
    else match Last(t)
      case Wrote(st) => Some(st)
      case Removed => None
      case _ => FileOf(Front(t))
  }

  /** The recorded steps of a command, in the order the program takes them. */
  function Order(command: string): string {
    (if 'r' in command then "r" else "") + (if 'R' in command then "R" else "") + (if 'a' in command then "a" else "")
  }

  predicate Listed(file: Option<RegState>, step: char) {
    file.Some? && step in file.value.completed
  }

  /** What an event must satisfy given the history before it; `sourced` adds where ids come from. */
  predicate ProvenEvent(sourced: bool, before: seq<Event>, e: Event) {
    match e
    case Emitted(_, step, _) => !Listed(FileOf(before), step)
    case Requested(_, attestation) =>
      && !Listed(FileOf(before), 'a')
      && before != [] && Last(before).GateRead? && !ConfirmedMismatch(Last(before).reading)
      && (sourced ==> LastEmitted(before) == Some(attestation))
    case Promoted(id) =>
      sourced ==>
        && LastRequest(before).Some? && LastRequest(before).value.0 == id
        && LastEmitted(before) == Some(LastRequest(before).value.1)
    case Wrote(st) =>
      && st.completed != ""
      && (FileOf(before).Some? ==> FileOf(before).value.completed < st.completed)
    case _ => true
  }

  predicate Proven(sourced: bool, t: seq<Event>) {
    forall i {:trigger t[i]} | 0 <= i < |t| :: ProvenEvent(sourced, t[..i], t[i])
  }

  lemma Snoc(t: seq<Event>, e: Event)
    ensures Front(t + [e]) == t && Last(t + [e]) == e
  {
  }

  lemma ProvenSnoc(sourced: bool, t: seq<Event>, e: Event)
    requires Proven(sourced, t) && ProvenEvent(sourced, t, e)
    ensures Proven(sourced, t + [e])
  {
    var u := t + [e];
    forall i | 0 <= i < |u| ensures ProvenEvent(sourced, u[..i], u[i]) {
      if i < |t| {
        assert u[..i] == t[..i] && u[i] == t[i];
      } else {
        assert u[..i] == t;
      }
    }
  }

  // ---------------------------------------------------------------- the commands

  /** The attestation-emitting steps of a command. */
  function Emissions(command: string): set<char> {
    set step | step in {'r', 'R'} && step in command
  }

  /** The commands that emit attestations before requesting and request before promoting. */
  predicate WellOrdered(command: string) {
    && ('a' in command ==> 'r' in command || 'R' in command)
    && ('p' in command ==> 'a' in command)
  }

  /** Commands that may share a state file: no run emits an attestation that a requesting run would not look for. */
  predicate Compatible(commands: set<string>) {
    forall c | c in commands ::
      && WellOrdered(c)
      && ('a' in c ==> forall d | d in commands :: Emissions(d) <= Emissions(c))
  }

  /** A non-empty set of emissions that covers the command's, and is the command's if it requests. */
  predicate Fits(need: set<char>, command: string) {
    && WellOrdered(command)
    && {} != need <= {'r', 'R'} && Emissions(command) <= need
    && ('a' in command ==> Emissions(command) == need)
  }

  /** The emissions every requesting command of a compatible set looks for. */
  lemma CommonNeed(commands: set<string>) returns (need: set<char>)
    requires Compatible(commands)
    ensures {} != need <= {'r', 'R'} && forall c | c in commands :: Fits(need, c)
  {
    if c :| c in commands && 'a' in c {
      need := Emissions(c);
      assert ('r' in c ==> 'r' in need) && ('R' in c ==> 'R' in need);
      forall d | d in commands ensures Fits(need, d) {
        assert 'a' in d ==> Emissions(c) <= Emissions(d);
      }
    } else {
      need := {'r', 'R'};
      assert 'r' in need;
    }
  }

  // ---------------------------------------------------------------- the invariant

  /** The emissions the chain's requests look for; None where only the bookkeeping is of interest. */
  type Need = n: Option<set<char>> | n.Some? ==> {} != n.value <= {'r', 'R'} witness None

  predicate Recorded(steps: set<char>, completed: string) {
    forall step | step in steps :: step in completed
  }

  /** A recorded state, in memory or on disk, describes the chain truthfully. */
  predicate Truthful(need: Need, st: RegState, t: seq<Event>) {
    need.Some? ==>
      && (Recorded(need.value, st.completed) ==> LastEmitted(t) == Some(st.attestation))
      && ('a' in st.completed ==>
            Recorded(need.value, st.completed) && LastRequest(t) == Some((st.instruction, st.attestation)))
  }

  ghost predicate Inv(need: Need, w: World) {
    && Proven(need.Some?, w.trace)
    && w.file == FileOf(w.trace)
    && (w.file.Some? ==> Truthful(need, w.file.value, w.trace))
  }

  /** During a run: memory is truthful and never behind the file. */
  ghost predicate SessionInv(need: Need, s: Session) {
    && Inv(need, s.world)
    && (s.alive ==> Truthful(need, s.state, s.world.trace))
    && (s.world.file.Some? ==> s.world.file.value.completed <= s.state.completed)
  }

  /** Appending an event that touches neither file, emissions nor requests keeps every reading. */
  lemma Neutral(need: Need, w: World, e: Event)
    requires Inv(need, w) && ProvenEvent(need.Some?, w.trace, e)
    requires e.Started? || e.GateRead? || e.Promoted?
    ensures Inv(need, Log(w, e))
    ensures LastEmitted(Log(w, e).trace) == LastEmitted(w.trace)
    ensures LastRequest(Log(w, e).trace) == LastRequest(w.trace)
  {
    Snoc(w.trace, e);
    ProvenSnoc(need.Some?, w.trace, e);
  }

  lemma DeleteKeeps(need: Need, w: World, deleted: bool)
    requires Inv(need, w)
    ensures Inv(need, Delete(w, deleted))
    ensures LastEmitted(Delete(w, deleted).trace) == LastEmitted(w.trace)
    ensures LastRequest(Delete(w, deleted).trace) == LastRequest(w.trace)
  {
    Snoc(w.trace, Removed);
    ProvenSnoc(need.Some?, w.trace, Removed);
  }

  lemma SaveKeeps(need: Need, w: World, st: RegState, saved: bool)
    requires Inv(need, w) && Truthful(need, st, w.trace) && st.completed != ""
    requires w.file.Some? ==> w.file.value.completed < st.completed
    ensures Inv(need, Save(w, st, saved))
    ensures Truthful(need, st, Save(w, st, saved).trace)
    ensures Save(w, st, saved).file.Some? ==> Save(w, st, saved).file.value.completed <= st.completed
  {
    Snoc(w.trace, Wrote(st));
    ProvenSnoc(need.Some?, w.trace, Wrote(st));
  }

  lemma BeginKeeps(need: Need, plan: Plan, w: World)
    requires Inv(need, w)
    ensures SessionInv(need, Begin(plan, w))
  {
    DeleteKeeps(need, w, !plan.resume && plan.removesStale);
    Neutral(need, Delete(w, !plan.resume && plan.removesStale), Started(plan.resume));
    if need.Some? {
      assert !Recorded(need.value, EMPTY_STATE.completed) by {
        var step :| step in need.value;
      }
    }
  }

  /** Emitting is harmless to the file as long as the file does not list the step. */
  lemma EmitKeeps(need: Need, w: World, id: Hash, step: char, pre: bool)
    requires Inv(need, w) && !Listed(w.file, step)
    requires need.Some? ==> step in need.value
    ensures Inv(need, Emit(w, id, step, pre))
    ensures LastEmitted(Emit(w, id, step, pre).trace) == Some(id)
  {
    Snoc(w.trace, Emitted(id, step, pre));
    ProvenSnoc(need.Some?, w.trace, Emitted(id, step, pre));
  }

  /** The run's attestation variable is the one its memory records, along with these steps. */
  predicate Carries(s: Session, completed: string) {
    s.attestation == s.state.attestation && s.state.completed == completed
  }

  lemma EmitStepKeeps(need: Need, s: Session, step: char, pre: bool, call: Call, saved: bool)
    requires SessionInv(need, s) && s.alive
    requires step in "rR" && step !in s.state.completed
    requires need.Some? ==> step in need.value
    ensures SessionInv(need, EmitStep(s, step, pre, call, saved))
    ensures EmitStep(s, step, pre, call, saved).alive ==>
              Carries(EmitStep(s, step, pre, call, saved), s.state.completed + [step])
  {
    if !call.Refused? {
      EmitKeeps(need, s.world, call.id, step, pre);
      if call.Done? {
        var w := Emit(s.world, call.id, step, pre);
        var st := RegState(s.state.completed + [step], call.id, s.state.instruction);
        assert need.Some? ==> 'a' !in s.state.completed && step != 'a';
        SaveKeeps(need, w, st, saved);
      }
    }
  }

  /** What a run of a command must meet for the sourcing half. */
  predicate Suits(need: Need, command: string) {
    need.Some? ==> Fits(need.value, command)
  }

  lemma RegisterKeeps(need: Need, command: string, plan: Plan, s: Session)
    requires SessionInv(need, s) && Suits(need, command)
    ensures SessionInv(need, RegisterStep(command, plan, s))
    ensures RegisterStep(command, plan, s).alive && 'r' in command ==>
              && 'r' in RegisterStep(command, plan, s).state.completed
              && Carries(RegisterStep(command, plan, s), RegisterStep(command, plan, s).state.completed)
  {
    if !s.alive || 'r' !in command {
    } else if 'r' in s.state.completed {
      assert RegisterStep(command, plan, s) == s.(attestation := s.state.attestation);
    } else {
      assert 'r' in Emissions(command);
      EmitStepKeeps(need, s, 'r', !(plan.machineQuery && s.world.registered), plan.register, plan.savedRegister);
    }
  }

  lemma AttestKeeps(need: Need, command: string, plan: Plan, s: Session)
    requires SessionInv(need, s) && Suits(need, command)
    requires s.alive && 'r' in command ==> 'r' in s.state.completed && Carries(s, s.state.completed)
    ensures SessionInv(need, AttestStep(command, plan, s))
    ensures AttestStep(command, plan, s).alive && ('r' in command || 'R' in command) ==>
              && Recorded(Emissions(command), AttestStep(command, plan, s).state.completed)
              && Carries(AttestStep(command, plan, s), AttestStep(command, plan, s).state.completed)
  {
    if !s.alive || 'R' !in command {
    } else if 'R' in s.state.completed {
      assert AttestStep(command, plan, s) == s.(attestation := s.state.attestation);
    } else {
      assert 'R' in Emissions(command);
      EmitStepKeeps(need, s, 'R', false, plan.attest, plan.savedAttest);
    }
  }

  /** A request right after a gate that lets it pass, while no `a` is recorded. */
  lemma AskKeeps(need: Need, w: World, id: Hash, attestation: Hash)
    requires Inv(need, w) && !Listed(w.file, 'a')
    requires need.Some? ==> LastEmitted(w.trace) == Some(attestation)
    requires w.trace != [] && Last(w.trace).GateRead? && !ConfirmedMismatch(Last(w.trace).reading)
    ensures var v := Log(w, Requested(id, attestation));
            Inv(need, v) && LastEmitted(v.trace) == LastEmitted(w.trace) && LastRequest(v.trace) == Some((id, attestation))
  {
    Snoc(w.trace, Requested(id, attestation));
    ProvenSnoc(need.Some?, w.trace, Requested(id, attestation));
  }

  /** The `a` step proper, once memory records all the emissions it looks for. */
  lemma AskStepKeeps(need: Need, command: string, given: Hash, plan: Plan, s: Session)
    requires SessionInv(need, s) && s.alive && 'a' in command && 'a' !in s.state.completed
    requires need.Some? ==> Recorded(need.value, s.state.completed) && s.attestation == s.state.attestation
    ensures SessionInv(need, RequestStep(command, given, plan, s))
    ensures RequestStep(command, given, plan, s).alive ==>
              && 'a' in RequestStep(command, given, plan, s).state.completed
              && RequestStep(command, given, plan, s).instruction == RequestStep(command, given, plan, s).state.instruction
  {
    var gated := Log(s.world, GateRead(plan.gate));
    Neutral(need, s.world, GateRead(plan.gate));
    Snoc(s.world.trace, GateRead(plan.gate));
    if ConfirmedMismatch(plan.gate) || plan.request.Refused? {
      assert RequestStep(command, given, plan, s) == s.(alive := false, world := gated);
    } else {
      AskKeeps(need, gated, plan.request.id, s.attestation);
      if plan.request.Done? {
        RecordAsked(need, s, Log(gated, Requested(plan.request.id, s.attestation)), plan.request.id, plan.savedRequest);
      }
    }
  }

  lemma RecordAsked(need: Need, s: Session, w: World, id: Hash, saved: bool)
    requires Inv(need, w) && w.file == s.world.file
    requires w.file.Some? ==> w.file.value.completed <= s.state.completed
    requires need.Some? ==> Recorded(need.value, s.state.completed) && s.attestation == s.state.attestation
    requires need.Some? ==> LastEmitted(w.trace) == Some(s.attestation) && LastRequest(w.trace) == Some((id, s.attestation))
    ensures var st := RegState(s.state.completed + "a", s.state.attestation, id);
            SessionInv(need, s.(world := Save(w, st, saved), state := st, instruction := id))
  {
    SaveKeeps(need, w, RegState(s.state.completed + "a", s.state.attestation, id), saved);
  }

  lemma RequestKeeps(need: Need, command: string, given: Hash, plan: Plan, s: Session)
    requires SessionInv(need, s) && Suits(need, command)
    requires s.alive && ('r' in command || 'R' in command) ==>
               Carries(s, s.state.completed) && Recorded(Emissions(command), s.state.completed)
    ensures SessionInv(need, RequestStep(command, given, plan, s))
    ensures var u := RequestStep(command, given, plan, s);
            u.alive && 'a' in command ==> 'a' in u.state.completed && u.instruction == u.state.instruction
  {
    if s.alive && 'a' in command && 'a' !in s.state.completed {
      AskStepKeeps(need, command, given, plan, s);
    }
  }

  lemma PromoteKeeps(need: Need, command: string, plan: Plan, s: Session)
    requires SessionInv(need, s) && Suits(need, command)
    requires s.alive && 'a' in command ==> 'a' in s.state.completed && s.instruction == s.state.instruction
    ensures Inv(need, PromoteStep(command, plan, s).world)
  {
    if s.alive && 'p' in command && plan.proof && !plan.promote.Refused? {
      Neutral(need, s.world, Promoted(s.instruction));
    }
  }

  /** One run keeps the invariant: the bookkeeping for any command, the sourcing for commands that fit. */
  lemma RunKeeps(need: Need, command: string, given: Hash, plan: Plan, w: World)
    requires Inv(need, w) && Suits(need, command)
    ensures Inv(need, Run(command, given, plan, w))
  {
    BeginKeeps(need, plan, w);
    RegisterKeeps(need, command, plan, Begin(plan, w));
    AttestKeeps(need, command, plan, RegisterStep(command, plan, Begin(plan, w)));
    var s := AttestStep(command, plan, RegisterStep(command, plan, Begin(plan, w)));
    RequestKeeps(need, command, given, plan, s);
    PromoteKeeps(need, command, plan, RequestStep(command, given, plan, s));
    DeleteKeeps(need, PromoteStep(command, plan, RequestStep(command, given, plan, s)).world, plan.removesFile);
  }

  // ---------------------------------------------------------------- chains of runs

  /** One run: its command, the id given on the command line, and everything outside its control. */
  datatype Job = Job(command: string, given: Hash, plan: Plan)

  /** A chain of runs, each with a command of its own. */
  function Chain(jobs: seq<Job>, w: World): World {
    if jobs == [] then w
    else
      var last := jobs[|jobs| - 1];
      Run(last.command, last.given, last.plan, Chain(jobs[..|jobs| - 1], w))
  }

  /** The history of a chain of runs on a new TEE. */
  function History(jobs: seq<Job>): seq<Event> {
    Chain(jobs, NEW_WORLD).trace
  }

  predicate From(commands: set<string>, jobs: seq<Job>) {
    forall i | 0 <= i < |jobs| :: jobs[i].command in commands
  }

  lemma {:induction false} ChainKeeps(need: Need, jobs: seq<Job>, w: World)
    requires Inv(need, w) && forall i | 0 <= i < |jobs| :: Suits(need, jobs[i].command)
    ensures Inv(need, Chain(jobs, w))
  {
    if jobs != [] {
      var last := jobs[|jobs| - 1];
      ChainKeeps(need, jobs[..|jobs| - 1], w);
      RunKeeps(need, last.command, last.given, last.plan, Chain(jobs[..|jobs| - 1], w));
    }
  }

  /** The bookkeeping holds over every chain, whatever the commands. */
  lemma AlwaysBooked(jobs: seq<Job>)
    ensures Proven(false, History(jobs))
  {
    assert Inv(None, NEW_WORLD);
    ChainKeeps(None, jobs, NEW_WORLD);
  }

  // ---------------------------------------------------------------- when provenance holds

  const OPEN_GATE := GateReading(None, None)

  /** A run in which every call succeeds; the ids it obtains are given. */
  function FaultFree(first: Hash, second: Hash, request: Hash): Plan {
    Plan(true, true, true, true, Done(first), true, Done(second), true, OPEN_GATE, Done(request), true, true, Done(0), true)
  }

  lemma UnprovenAt(before: seq<Event>, e: Event, t: seq<Event>)
    requires before + [e] <= t && !ProvenEvent(true, before, e)
    ensures !Proven(true, t)
  {
    if Proven(true, t) {
      ProvenAt(before, e, t);
    }
  }

  lemma OneJob(job: Job)
    ensures Chain([job], NEW_WORLD) == Run(job.command, job.given, job.plan, NEW_WORLD)
  {
    assert [job][..0] == [];
    assert Chain([job][..0], NEW_WORLD) == NEW_WORLD;
  }

  /** From scratch and without `r` and `R`, the request carries the zero id although nothing was emitted. */
  lemma RequestWithoutAttestation(command: string)
    requires 'a' in command && 'r' !in command && 'R' !in command
    ensures !Proven(true, Run(command, 7, FaultFree(1, 2, 3), NEW_WORLD).trace)
  {
    var plan := FaultFree(1, 2, 3);
    var s := AttestStep(command, plan, RegisterStep(command, plan, Begin(plan, NEW_WORLD)));
    assert s == Begin(plan, NEW_WORLD) && s.world.trace == [Started(true)];
    var before := [Started(true), GateRead(OPEN_GATE)];
    var e := Requested(3, ZERO_HASH);
    var u := RequestStep(command, 7, plan, s);
    assert before + [e] <= u.world.trace;
    assert u.world.trace <= Run(command, 7, plan, NEW_WORLD).trace;
    assert Front(before) == [Started(true)] && Front([Started(true)]) == [];
    assert LastEmitted(before) == LastEmitted([Started(true)]) == LastEmitted([]) == None;
    UnprovenAt(before, e, Run(command, 7, plan, NEW_WORLD).trace);
  }

  /** From scratch and without `a`, the proof is fetched with the id given on the command line. */
  lemma PromotionWithoutRequest(command: string)
    requires 'p' in command && 'a' !in command
    ensures !Proven(true, Run(command, 7, FaultFree(1, 2, 3), NEW_WORLD).trace)
  {
    var plan := FaultFree(1, 2, 3);
    var s := AttestStep(command, plan, RegisterStep(command, plan, Begin(plan, NEW_WORLD)));
    var before := s.world.trace;
    AttestsOnly(command, plan);
    NoRequestYet(before);
    var u := PromoteStep(command, plan, RequestStep(command, 7, plan, s));
    assert u.world.trace == before + [Promoted(7)];
    assert u.world.trace <= Run(command, 7, plan, NEW_WORLD).trace;
    UnprovenAt(before, Promoted(7), Run(command, 7, plan, NEW_WORLD).trace);
  }

  lemma AttestsOnly(command: string, plan: Plan)
    requires plan == FaultFree(1, 2, 3)
    ensures var s := AttestStep(command, plan, RegisterStep(command, plan, Begin(plan, NEW_WORLD)));
            s.alive && forall e :: e in s.world.trace ==> !e.Requested?
  {
  }

  lemma {:induction false} NoRequestYet(t: seq<Event>)
    requires forall e :: e in t ==> !e.Requested?
    ensures LastRequest(t).None?
  {
    if t != [] {
      assert Last(t) in t && forall e :: e in Front(t) ==> e in t;
      NoRequestYet(Front(t));
    }
  }

  lemma IllOrdered(command: string)
    requires !WellOrdered(command)
    ensures !Proven(true, History([Job(command, 7, FaultFree(1, 2, 3))]))
  {
    OneJob(Job(command, 7, FaultFree(1, 2, 3)));
    if 'a' in command {
      RequestWithoutAttestation(command);
    } else {
      PromotionWithoutRequest(command);
    }
  }

  // A chain of three runs that goes wrong: the first records its attestation but is refused the request, the
  // second emits another attestation and loses it, the third resumes the first.
  const RECORDING := FaultFree(1, 1, 3).(request := Refused)
  const LOSING := FaultFree(2, 2, 3).(register := Lost(2), attest := Lost(2))
  const RESUMING := FaultFree(4, 5, 6)

  function AfterRecording(mine: char): World {
    var st := RegState([mine], 1, ZERO_HASH);
    World(Some(st), mine == 'r', false, [Started(true), Emitted(1, mine, mine == 'r'), Wrote(st), GateRead(OPEN_GATE)])
  }

  function AfterLosing(mine: char, other: char): World {
    Emit(Log(AfterRecording(mine), Started(true)), 2, other, other == 'r')
  }

  /** The requesting command emits by the one step and not by the other. */
  predicate EmitsOnly(command: string, mine: char, other: char) {
    {mine, other} == {'r', 'R'} && mine in command && other !in command && 'a' in command
  }

  lemma Records(c: string, mine: char, other: char)
    requires EmitsOnly(c, mine, other)
    ensures Run(c, 0, RECORDING, NEW_WORLD) == AfterRecording(mine)
  {
    var s0 := Begin(RECORDING, NEW_WORLD);
    assert s0 == Session(World(None, false, false, [Started(true)]), EMPTY_STATE, true, ZERO_HASH, ZERO_HASH);
    var s2 := AttestStep(c, RECORDING, RegisterStep(c, RECORDING, s0));
    var st := RegState([mine], 1, ZERO_HASH);
    assert "" + [mine] == [mine];
    assert s2 == Session(World(Some(st), mine == 'r', false, [Started(true), Emitted(1, mine, mine == 'r'), Wrote(st)]), st, true, 1, ZERO_HASH);
  }

  lemma Loses(d: string, mine: char, other: char)
    requires {mine, other} == {'r', 'R'} && other in d
    ensures Run(d, 0, LOSING, AfterRecording(mine)) == AfterLosing(mine, other)
  {
    var s0 := Begin(LOSING, AfterRecording(mine));
    assert s0.state.completed == [mine];
    var s2 := AttestStep(d, LOSING, RegisterStep(d, LOSING, s0));
    assert s2.world == AfterLosing(mine, other) && !s2.alive;
  }

  lemma Resumes(c: string, mine: char, other: char, w: World)
    requires EmitsOnly(c, mine, other) && w.file == Some(RegState([mine], 1, ZERO_HASH))
    ensures w.trace + [Started(true), GateRead(OPEN_GATE), Requested(6, 1)] <= Run(c, 0, RESUMING, w).trace
  {
    var s2 := AttestStep(c, RESUMING, RegisterStep(c, RESUMING, Begin(RESUMING, w)));
    assert s2 == Session(Log(w, Started(true)), w.file.value, true, 1, ZERO_HASH);
    var s3 := RequestStep(c, 0, RESUMING, s2);
    assert w.trace + [Started(true), GateRead(OPEN_GATE), Requested(6, 1)] <= s3.world.trace;
    assert s3.world.trace <= Run(c, 0, RESUMING, w).trace;
  }

  lemma LosingIsLatest(mine: char, other: char)
    ensures LastEmitted(AfterLosing(mine, other).trace + [Started(true), GateRead(OPEN_GATE)]) == Some(2)
  {
    var t := AfterLosing(mine, other).trace;
    Snoc(Log(AfterRecording(mine), Started(true)).trace, Emitted(2, other, other == 'r'));
    assert LastEmitted(t) == Some(2);
    Snoc(t, Started(true));
    assert LastEmitted(t + [Started(true)]) == Some(2);
    Snoc(t + [Started(true)], GateRead(OPEN_GATE));
    assert t + [Started(true), GateRead(OPEN_GATE)] == t + [Started(true)] + [GateRead(OPEN_GATE)];
  }

  function Mixture(c: string, d: string): seq<Job> {
    [Job(c, 0, RECORDING), Job(d, 0, LOSING), Job(c, 0, RESUMING)]
  }

  lemma MixtureEnds(c: string, d: string, mine: char, other: char)
    requires EmitsOnly(c, mine, other) && other in d
    ensures Chain(Mixture(c, d), NEW_WORLD) == Run(c, 0, RESUMING, AfterLosing(mine, other))
  {
    var jobs := Mixture(c, d);
    assert jobs[..2][..1] == [jobs[0]];
    OneJob(jobs[0]);
    Records(c, mine, other);
    Loses(d, mine, other);
    assert Chain(jobs[..2], NEW_WORLD) == AfterLosing(mine, other);
  }

  /** The third run requests with attestation 1 although attestation 2 was emitted after it. */
  lemma ForeignEmission(c: string, d: string, mine: char, other: char)
    requires EmitsOnly(c, mine, other) && other in d
    ensures !Proven(true, History(Mixture(c, d)))
    ensures var before := AfterLosing(mine, other).trace + [Started(true), GateRead(OPEN_GATE)];
            before + [Requested(6, 1)] <= History(Mixture(c, d)) && LastEmitted(before) == Some(2)
  {
    var w := AfterLosing(mine, other);
    var before := w.trace + [Started(true), GateRead(OPEN_GATE)];
    MixtureEnds(c, d, mine, other);
    Resumes(c, mine, other, w);
    LosingIsLatest(mine, other);
    assert before + [Requested(6, 1)] == w.trace + [Started(true), GateRead(OPEN_GATE), Requested(6, 1)];
    UnprovenAt(before, Requested(6, 1), History(Mixture(c, d)));
  }

  lemma IncompatibleFails(commands: set<string>) returns (jobs: seq<Job>)
    requires !Compatible(commands)
    ensures From(commands, jobs) && !Proven(true, History(jobs))
  {
    if c :| c in commands && !WellOrdered(c) {
      jobs := [Job(c, 7, FaultFree(1, 2, 3))];
      IllOrdered(c);
    } else {
      var c, d :| c in commands && d in commands && 'a' in c && !(Emissions(d) <= Emissions(c));
      var other :| other in Emissions(d) && other !in Emissions(c);
      var mine := if other == 'r' then 'R' else 'r';
      jobs := Mixture(c, d);
      ForeignEmission(c, d, mine, other);
    }
  }

  /**
   Main theorem. Over every chain of runs on a new TEE, each run with any command of a given set, every request
   carries the latest attestation and every promotion uses the latest request, exactly when all commands are
   well-ordered and no command emits by a step that a requesting command of the set lacks.
   */
  lemma MixedExactly(commands: set<string>)
    ensures Compatible(commands) <==> forall jobs | From(commands, jobs) :: Proven(true, History(jobs))
  {
    if Compatible(commands) {
      var need := CommonNeed(commands);
      forall jobs | From(commands, jobs) ensures Proven(true, History(jobs)) {
        BeginsTruthful(need);
        ChainKeeps(Some(need), jobs, NEW_WORLD);
      }
    } else {
      var jobs := IncompatibleFails(commands);
    }
  }

  lemma BeginsTruthful(need: set<char>)
    requires {} != need <= {'r', 'R'}
    ensures Inv(Some(need), NEW_WORLD)
  {
  }

  /** The tool's default command and a wider one must not share a state file. */
  lemma MixedCommandsAreUnsound()
    ensures WellOrdered("rap") && WellOrdered("rRap") && !Compatible({"rap", "rRap"})
    ensures !Proven(true, History(Mixture("rap", "rRap")))
  {
    assert 'R' in Emissions("rRap") && 'R' !in Emissions("rap");
    ForeignEmission("rap", "rRap", 'r', 'R');
  }

  // ---------------------------------------------------------------- one command

  /** A recorded `a` means everything before it is recorded. */
  lemma PrefixShape(command: string, completed: string)
    requires completed <= Order(command)
    ensures 'a' in completed ==> completed == Order(command) && 'a' in command
    ensures 'R' in completed ==> ('r' in command ==> 'r' in completed)
    ensures 'r' in command && 'r' !in completed ==> completed == ""
    ensures 'r' in command && 'R' in command && 'r' in completed && 'R' !in completed ==> completed == "r"
    ensures 'r' !in command && 'R' in command && 'R' !in completed ==> completed == ""
    ensures 'a' in command && 'a' !in completed
              && ('r' in command ==> 'r' in completed) && ('R' in command ==> 'R' in completed)
            ==> completed + "a" == Order(command)
  {
    var order := Order(command);
    assert completed == order[..|completed|];
    assert |order| <= 3;
    if |completed| == 0 {
    } else if |completed| == 1 {
      assert completed == [order[0]];
    } else if |completed| == 2 {
      assert completed == [order[0], order[1]];
    } else {
      assert completed == [order[0], order[1], order[2]];
    }
  }

  /** The first recorded step, and the one that may follow it. */
  lemma NextStep(command: string, completed: string)
    requires completed <= Order(command)
    ensures 'r' in command && 'r' !in completed ==> completed + ['r'] <= Order(command)
    ensures 'R' in command && 'R' !in completed && ('r' in command ==> 'r' in completed) ==> completed + ['R'] <= Order(command)
  {
    PrefixShape(command, completed);
    if 'r' in command && 'r' !in completed {
      assert completed + ['r'] == "r";
    } else if 'R' in command && 'R' !in completed && ('r' in command ==> 'r' in completed) {
      assert completed + ['R'] == (if 'r' in command then "rR" else "R");
    }
  }

  /** Every write lists the command's recorded steps in order, up to some step. */
  predicate OrderedWrites(command: string, t: seq<Event>) {
    forall e | e in t :: e.Wrote? ==> e.state.completed <= Order(command)
  }

  ghost predicate Ordered(command: string, w: World) {
    OrderedWrites(command, w.trace) && (w.file.Some? ==> w.file.value.completed <= Order(command))
  }

  ghost predicate SessionOrdered(command: string, s: Session) {
    Ordered(command, s.world) && s.state.completed <= Order(command)
  }

  lemma EmitStepOrdered(command: string, s: Session, step: char, pre: bool, call: Call, saved: bool)
    requires SessionOrdered(command, s) && s.state.completed + [step] <= Order(command)
    ensures SessionOrdered(command, EmitStep(s, step, pre, call, saved))
  {
  }

  lemma RegisterOrdered(command: string, plan: Plan, s: Session)
    requires SessionOrdered(command, s)
    ensures var u := RegisterStep(command, plan, s);
            SessionOrdered(command, u) && (u.alive && 'r' in command ==> 'r' in u.state.completed)
  {
    NextStep(command, s.state.completed);
    if s.alive && 'r' in command && 'r' !in s.state.completed {
      EmitStepOrdered(command, s, 'r', !(plan.machineQuery && s.world.registered), plan.register, plan.savedRegister);
    }
  }

  lemma AttestOrdered(command: string, plan: Plan, s: Session)
    requires SessionOrdered(command, s) && (s.alive && 'r' in command ==> 'r' in s.state.completed)
    ensures var u := AttestStep(command, plan, s);
            SessionOrdered(command, u) && (u.alive ==> Recorded(Emissions(command), u.state.completed))
  {
    NextStep(command, s.state.completed);
    if s.alive && 'R' in command && 'R' !in s.state.completed {
      EmitStepOrdered(command, s, 'R', false, plan.attest, plan.savedAttest);
    }
  }

  lemma RequestOrdered(command: string, given: Hash, plan: Plan, s: Session)
    requires SessionOrdered(command, s) && (s.alive ==> Recorded(Emissions(command), s.state.completed))
    ensures SessionOrdered(command, RequestStep(command, given, plan, s))
  {
    if s.alive && 'a' in command && 'a' !in s.state.completed {
      assert ('r' in command ==> 'r' in Emissions(command)) && ('R' in command ==> 'R' in Emissions(command));
      assert s.state.completed + "a" <= Order(command) by {
        PrefixShape(command, s.state.completed);
      }
    }
  }

  lemma RunOrdered(command: string, given: Hash, plan: Plan, w: World)
    requires Ordered(command, w)
    ensures Ordered(command, Run(command, given, plan, w))
  {
    var s := Begin(plan, w);
    assert SessionOrdered(command, s);
    RegisterOrdered(command, plan, s);
    AttestOrdered(command, plan, RegisterStep(command, plan, s));
    RequestOrdered(command, given, plan, AttestStep(command, plan, RegisterStep(command, plan, s)));
  }

  lemma {:induction false} ChainOrdered(command: string, jobs: seq<Job>)
    requires From({command}, jobs)
    ensures Ordered(command, Chain(jobs, NEW_WORLD))
  {
    if jobs != [] {
      var last := jobs[|jobs| - 1];
      ChainOrdered(command, jobs[..|jobs| - 1]);
      RunOrdered(command, last.given, last.plan, Chain(jobs[..|jobs| - 1], NEW_WORLD));
    }
  }

  predicate Sound(command: string, t: seq<Event>) {
    Proven(true, t) && OrderedWrites(command, t)
  }

  /**
   Over every chain of runs of one command, started on a new TEE, the history is sound and the file always lists
   the command's steps in order, exactly when the command requests only after attesting and promotes only after
   requesting.
   */
  lemma ProvenanceExactly(command: string)
    ensures WellOrdered(command) <==> forall jobs | From({command}, jobs) :: Sound(command, History(jobs))
  {
    MixedExactly({command});
    assert Compatible({command}) <==> WellOrdered(command);
    forall jobs | From({command}, jobs) ensures OrderedWrites(command, History(jobs)) {
      ChainOrdered(command, jobs);
    }
  }

  // ---------------------------------------------------------------- bounded repetition

  predicate Executes(e: Event, step: char) {
    (e.Emitted? && e.step == step) || (e.Requested? && step == 'a')
  }

  /**
   Executions of a step so far, how many of them their run ended without persisting, how often the
   file was removed, and whether the current run has executed the step without persisting it yet.
   */
  datatype Tally = Tally(executions: nat, unpersisted: nat, removals: nat, open: bool)

  function Count(t: seq<Event>, step: char): Tally {
    if t == [] then Tally(0, 0, 0, false)
    else
      var c := Count(Front(t), step);
      var e := Last(t);
      if Executes(e, step) then
        c.(executions := c.executions + 1, unpersisted := c.unpersisted + (if c.open then 1 else 0), open := true)
      else if e.Started? then
        c.(unpersisted := c.unpersisted + (if c.open then 1 else 0), open := false)
      else if e.Wrote? && step in e.state.completed then c.(open := false)
      else if e.Removed? then c.(removals := c.removals + 1)
      else c
  }

  lemma {:induction false} CountBound(t: seq<Event>, step: char)
    requires Proven(false, t)
    ensures var c := Count(t, step);
            && (c.open ==> !Listed(FileOf(t), step))
            && c.executions <= c.unpersisted + c.removals
                 + (if c.open then 1 else 0) + (if Listed(FileOf(t), step) then 1 else 0)
  {
    if t != [] {
      var front := Front(t);
      assert ProvenEvent(false, front, Last(t)) by {
        assert t[..|t| - 1] == front;
      }
      forall i | 0 <= i < |front| ensures ProvenEvent(false, front[..i], front[i]) {
        assert t[i] == front[i] && t[..i] == front[..i];
      }
      CountBound(front, step);
    }
  }

  /**
   Over every chain of runs, whatever their commands, a step is executed at most once more than the executions
   whose run ended before persisting them, plus one for every time the file was removed (a completed or a fresh
   registration).
   */
  lemma BoundedRepetition(jobs: seq<Job>, step: char)
    ensures var c := Count(History(jobs), step);
            c.executions <= c.unpersisted + (if c.open then 1 else 0) + c.removals + 1
  {
    AlwaysBooked(jobs);
    CountBound(History(jobs), step);
  }

  // ---------------------------------------------------------------- recovery

  /** Every call of the recorded steps succeeds. */
  predicate Prepares(plan: Plan) {
    plan.starts && plan.register.Done? && plan.attest.Done? && !ConfirmedMismatch(plan.gate) && plan.request.Done?
  }

  predicate Succeeds(plan: Plan) {
    Prepares(plan) && plan.proof && plan.promote.Done?
  }

  /** The recorded steps executed in a history, in order. */
  function Steps(t: seq<Event>): string {
    if t == [] then ""
    else match Last(t)
      case Emitted(_, step, _) => Steps(Front(t)) + [step]
      case Requested(_, _) => Steps(Front(t)) + "a"
      case _ => Steps(Front(t))
  }

  lemma StepsSave(w: World, st: RegState, saved: bool)
    ensures Steps(Save(w, st, saved).trace) == Steps(w.trace)
  {
    Snoc(w.trace, Wrote(st));
  }

  lemma StepsDelete(w: World, deleted: bool)
    ensures Steps(Delete(w, deleted).trace) == Steps(w.trace)
  {
    Snoc(w.trace, Removed);
  }

  /** A failure-free `r` or `R` either finds its step recorded or executes it. */
  lemma EmitStepAdvances(s: Session, step: char, pre: bool, id: Hash, saved: bool)
    ensures var u := EmitStep(s, step, pre, Done(id), saved);
            u.alive == s.alive && u.state.completed == s.state.completed + [step]
            && Steps(u.world.trace) == Steps(s.world.trace) + [step]
  {
    Snoc(s.world.trace, Emitted(id, step, pre));
    StepsSave(Emit(s.world, id, step, pre), RegState(s.state.completed + [step], id, s.state.instruction), saved);
  }

  lemma RequestAdvances(command: string, given: Hash, plan: Plan, s: Session)
    requires Prepares(plan) && s.alive && 'a' in command && 'a' !in s.state.completed
    ensures var u := RequestStep(command, given, plan, s);
            u.alive && u.state.completed == s.state.completed + "a"
            && Steps(u.world.trace) == Steps(s.world.trace) + "a"
  {
    Snoc(s.world.trace, GateRead(plan.gate));
    var gated := Log(s.world, GateRead(plan.gate));
    Snoc(gated.trace, Requested(plan.request.id, s.attestation));
    StepsSave(Log(gated, Requested(plan.request.id, s.attestation)),
              RegState(s.state.completed + "a", s.state.attestation, plan.request.id), plan.savedRequest);
  }

  /** The session after the three recorded steps of a run. */
  function Prepared(command: string, given: Hash, plan: Plan, w: World): Session {
    RequestStep(command, given, plan, AttestStep(command, plan, RegisterStep(command, plan, Begin(plan, w))))
  }

  /** Since the run began with `done` recorded, exactly the steps recorded since were executed. */
  predicate Progress(command: string, base: string, done: string, s: Session) {
    && s.alive && done <= s.state.completed <= Order(command)
    && Steps(s.world.trace) == base + s.state.completed[|done|..]
  }

  lemma BeginProgress(command: string, plan: Plan, w: World)
    requires Ordered(command, w) && plan.starts
    ensures Progress(command, Steps(w.trace), Begin(plan, w).state.completed, Begin(plan, w))
  {
    StepsDelete(w, !plan.resume && plan.removesStale);
    Snoc(Delete(w, !plan.resume && plan.removesStale).trace, Started(plan.resume));
  }

  lemma RegisterProgress(command: string, base: string, done: string, plan: Plan, s: Session)
    requires Progress(command, base, done, s) && Prepares(plan)
    ensures Progress(command, base, done, RegisterStep(command, plan, s))
    ensures 'r' in command ==> 'r' in RegisterStep(command, plan, s).state.completed
  {
    if 'r' in command && 'r' !in s.state.completed {
      NextStep(command, s.state.completed);
      EmitStepAdvances(s, 'r', !(plan.machineQuery && s.world.registered), plan.register.id, plan.savedRegister);
    }
  }

  lemma AttestProgress(command: string, base: string, done: string, plan: Plan, s: Session)
    requires Progress(command, base, done, s) && Prepares(plan)
    requires 'r' in command ==> 'r' in s.state.completed
    ensures Progress(command, base, done, AttestStep(command, plan, s))
    ensures 'r' in command ==> 'r' in AttestStep(command, plan, s).state.completed
    ensures 'R' in command ==> 'R' in AttestStep(command, plan, s).state.completed
  {
    if 'R' in command && 'R' !in s.state.completed {
      NextStep(command, s.state.completed);
      EmitStepAdvances(s, 'R', false, plan.attest.id, plan.savedAttest);
    }
  }

  lemma RequestProgress(command: string, given: Hash, base: string, done: string, plan: Plan, s: Session)
    requires Progress(command, base, done, s) && Prepares(plan)
    requires 'r' in command ==> 'r' in s.state.completed
    requires 'R' in command ==> 'R' in s.state.completed
    ensures Progress(command, base, done, RequestStep(command, given, plan, s))
    ensures RequestStep(command, given, plan, s).state.completed == Order(command)
  {
    PrefixShape(command, s.state.completed);
    if 'a' in command && 'a' !in s.state.completed {
      RequestAdvances(command, given, plan, s);
    }
  }

  /** The steps the file lists for a run: none after a fresh start that removed it. */
  function Found(plan: Plan, w: World): string {
    if (!plan.resume && plan.removesStale) || w.file.None? then "" else w.file.value.completed
  }

  /** A run whose recorded steps succeed executes exactly those its file does not list, in order. */
  lemma MissingStepsExactly(command: string, given: Hash, plan: Plan, w: World)
    requires Ordered(command, w) && Prepares(plan)
    ensures var done := Found(plan, w);
            var u := Prepared(command, given, plan, w);
            && u.alive && u.state.completed == Order(command) && done <= Order(command)
            && Steps(u.world.trace) == Steps(w.trace) + Order(command)[|done|..]
  {
    var s := Begin(plan, w);
    var base, done := Steps(w.trace), s.state.completed;
    BeginProgress(command, plan, w);
    RegisterProgress(command, base, done, plan, s);
    AttestProgress(command, base, done, plan, RegisterStep(command, plan, s));
    RequestProgress(command, given, base, done, plan, AttestStep(command, plan, RegisterStep(command, plan, s)));
  }

  /** From every reachable file, one failure-free run reaches production and leaves no file behind. */
  lemma Recovery(command: string, jobs: seq<Job>, given: Hash, plan: Plan)
    requires WellOrdered(command) && 'p' in command && From({command}, jobs) && Succeeds(plan)
    ensures var v := Run(command, given, plan, Chain(jobs, NEW_WORLD));
            && v.production && EndsPromoted(v.trace)
            && (plan.removesFile ==> v.file.None?)
  {
    ChainOrdered(command, jobs);
    NextRunProven(command, jobs, Job(command, given, plan));
    LastRun(command, given, plan, Chain(jobs, NEW_WORLD));
  }

  lemma NextRunProven(command: string, jobs: seq<Job>, job: Job)
    requires WellOrdered(command) && From({command}, jobs) && job.command == command
    ensures Proven(true, Run(command, job.given, job.plan, Chain(jobs, NEW_WORLD)).trace)
  {
    var again := jobs + [job];
    assert again[..|jobs|] == jobs;
    MixedExactly({command});
    assert From({command}, again);
    assert Proven(true, History(again));
  }

  lemma LastRun(command: string, given: Hash, plan: Plan, w: World)
    requires 'p' in command && Ordered(command, w) && Succeeds(plan)
    requires Proven(true, Run(command, given, plan, w).trace)
    ensures var v := Run(command, given, plan, w);
            v.production && EndsPromoted(v.trace) && (plan.removesFile ==> v.file.None?)
  {
    MissingStepsExactly(command, given, plan, w);
    var u := Prepared(command, given, plan, w);
    assert PromoteStep(command, plan, u).alive;
    PromotionEnds(command, plan, u, Run(command, given, plan, w));
  }

  /** The promotion with the proof of the latest request comes last, but for the removal of the file. */
  predicate EndsPromoted(t: seq<Event>) {
    && LastRequest(t).Some?
    && (|| (t != [] && Last(t) == Promoted(LastRequest(t).value.0))
        || (|t| > 1 && Last(t) == Removed && Last(Front(t)) == Promoted(LastRequest(t).value.0)))
  }

  lemma PromotionEnds(command: string, plan: Plan, u: Session, v: World)
    requires 'p' in command && Succeeds(plan) && u.alive
    requires v == Delete(PromoteStep(command, plan, u).world, plan.removesFile)
    requires Proven(true, v.trace)
    ensures v.production && (plan.removesFile ==> v.file.None?)
    ensures EndsPromoted(v.trace)
  {
    var t, e := u.world.trace, Promoted(u.instruction);
    assert v.trace == t + [e] || v.trace == t + [e] + [Removed];
    ProvenAt(t, e, v.trace);
    Snoc(t, e);
    Snoc(t + [e], Removed);
  }

  lemma ProvenAt(before: seq<Event>, e: Event, t: seq<Event>)
    requires before + [e] <= t && Proven(true, t)
    ensures ProvenEvent(true, before, e)
  {
    assert t[|before|] == (before + [e])[|before|] == e;
    assert t[..|before|] == (before + [e])[..|before|] == before;
  }
}

/**
 The Telegram bot: access control, triage, the on-chain write for Medium and above, and the alert to the
 safety officer. Telegram, the classifier and the chain are outside: each may fail at every use.
 */
module Bot {
  import opened IncidentLog
  import opened Numerals
  import opened Options
  import opened RecordPayload
  import opened Text

  /** keccak256 of a text, of which nothing is assumed. */
  type Hasher = string -> Word

  datatype Triage = Triage(severity: Severity, drivingFactor: string, summary: string, justification: string)

  function SeverityName(s: Severity): string {
    match s
    case Low => "LOW"
    case Medium => "MEDIUM"
    case High => "HIGH"
    case Critical => "CRITICAL"
  }

  predicate ShouldLog(t: Triage) {
    !t.severity.Low?
  }

  function RecordOf(t: Triage): Record {
    Record(t.drivingFactor, t.justification, SeverityName(t.severity), t.summary)
  }

  function UserText(user: int): string {
    if user < 0 then "-" + Print(-user, 10) else Print(user, 10)
  }

  /** What the contract is asked to store for a report. */
  function EntryFor(keccak: Hasher, t: Triage, user: int, relayer: Account, blockTime: nat): Incident {
    Incident(keccak(PythonPayload(RecordOf(t))), keccak(UserText(user)), t.severity, blockTime, relayer)
  }

  /** The chain call: mined and confirmed, refused, or mined although the bot sees an error. */
  datatype ChainCall = Confirmed | Refused | Unconfirmed

  datatype Message = Message(user: int, text: string)

  /**
   The outside world during one message: is the acknowledgement delivered, what does the classifier say,
   what becomes of the transaction, is the alert accepted (Telegram refuses text that is not its HTML). A
   failed alert ends the handler; the reply that would follow is not part of the history.
   */
  datatype Outside = Outside(ack: bool, classifier: Option<Triage>, chain: ChainCall, blockTime: nat, alert: bool)

  datatype Event =
    | Granted(user: int)
    | Blocked(user: int)
    | Triaged(user: int, triage: Triage)
    | Entered(user: int, incident: Incident)
    | Alerted(linked: bool, delivered: bool, triage: Triage)

  datatype Config = Config(accessCode: string, relayer: Account)

  datatype State = State(authorized: set<int>, incidents: seq<Incident>, trace: seq<Event>)

  /** Python's str.strip white space. */
  predicate IsPySpace(c: char) {
    c in " \t\n\r" || c == '\U{000B}' || c == '\U{000C}' || '\U{001C}' <= c <= '\U{001F}' || c == '\U{0085}' || c == '\U{00A0}'
    || c == '\U{1680}' || '\U{2000}' <= c <= '\U{200A}' || c == '\U{2028}' || c == '\U{2029}' || c == '\U{202F}' || c == '\U{205F}'
    || c == '\U{3000}'
  }

  /** Python strips what Go trims, and the four information separators. */
  lemma PythonStripsMore(c: char)
    ensures IsPySpace(c) <==> IsSpace(c) || 28 <= c as int <= 31
  {
  }

  function Strip(s: string): string {
    TrimOf(IsPySpace, s)
  }

  predicate OpensAccess(c: Config, text: string) {
    c.accessCode != "" && Strip(text) == c.accessCode
  }

  // ---------------------------------------------------------------- one message, as a function

  function Note(s: State, e: Event): State {
    s.(trace := s.trace + [e])
  }

  function Enter(s: State, user: int, incident: Incident): State {
    Note(s.(incidents := s.incidents + [incident]), Entered(user, incident))
  }

  function Handle(keccak: Hasher, c: Config, s: State, m: Message, o: Outside): State {
    if m.user !in s.authorized then
      if OpensAccess(c, m.text) then Note(s.(authorized := s.authorized + {m.user}), Granted(m.user))
      else Note(s, Blocked(m.user))
    else if !o.ack || o.classifier.None? then s
    else
      var t := o.classifier.value;
      var triaged := Note(s, Triaged(m.user, t));
      if !ShouldLog(t) then triaged
      else
        var entered := if o.chain.Refused? then triaged
                       else Enter(triaged, m.user, EntryFor(keccak, t, m.user, c.relayer, o.blockTime));
        Note(entered, Alerted(o.chain.Confirmed?, o.alert, t))
  }

  // ---------------------------------------------------------------- the program

  class SafetyBot {
    var authorizedUsers: set<int>
    var trace: seq<Event>
    const log: Log
    const config: Config

    constructor (config: Config, allowed: set<int>, log: Log)
      ensures this.config == config && this.log == log && authorizedUsers == allowed && trace == []
    {
      this.config := config;
      this.log := log;
      authorizedUsers := allowed;
      trace := [];
    }

    function Contents(): State
      reads this, log
    {
      State(authorizedUsers, log.incidents, trace)
    }

    /** log_incident_on_chain; the transaction may be mined although the call raises. */
    method LogOnChain(keccak: Hasher, t: Triage, user: int, o: Outside) returns (confirmed: bool)
      requires log.Valid() && ShouldLog(t)
      modifies this`trace, log
      ensures log.Valid() && authorizedUsers == old(authorizedUsers)
      ensures confirmed <==> o.chain.Confirmed?
      ensures Contents() == if o.chain.Refused? then old(Contents())
                            else Enter(old(Contents()), user, EntryFor(keccak, t, user, config.relayer, o.blockTime))
    {
      if o.chain.Refused? {
        return false;
      }
      var recordHash := keccak(PythonPayload(RecordOf(t)));
      var reporterId := keccak(UserText(user));
      var id := log.LogIncident(recordHash, reporterId, t.severity, config.relayer, o.blockTime);
      trace := trace + [Entered(user, log.incidents[id])];
      return o.chain.Confirmed?;
    }

    /** handle_report; a failed acknowledgement raises and ends the handler before triage. */
    method HandleReport(keccak: Hasher, m: Message, o: Outside)
      requires log.Valid()
      modifies this, log
      ensures log.Valid()
      ensures Contents() == Handle(keccak, config, old(Contents()), m, o)
    {
      if m.user !in authorizedUsers {
        if config.accessCode != "" && Strip(m.text) == config.accessCode {
          authorizedUsers := authorizedUsers + {m.user};
          trace := trace + [Granted(m.user)];
        } else {
          trace := trace + [Blocked(m.user)];
        }
        return;
      }
      if !o.ack {
        return;
      }
      if o.classifier.None? {
        return;
      }
      var result := o.classifier.value;
      trace := trace + [Triaged(m.user, result)];
      if ShouldLog(result) {
        var confirmed := LogOnChain(keccak, result, m.user, o);
        trace := trace + [Alerted(confirmed, o.alert, result)];
      }
    }
  }

  // ---------------------------------------------------------------- whole runs

  /** A message to the bot, or an entry somebody else writes to the public contract. */
  datatype Input = FromTelegram(message: Message, outside: Outside) | FromOthers(incident: Incident)

  function Run(keccak: Hasher, c: Config, s: State, inputs: seq<Input>): State {
    if inputs == [] then s
    else
      var before := Run(keccak, c, s, inputs[..|inputs| - 1]);
      match inputs[|inputs| - 1]
      case FromTelegram(m, o) => Handle(keccak, c, before, m, o)
      case FromOthers(incident) => before.(incidents := before.incidents + [incident])
  }

  /** Nobody else signs with the relayer's key. */
  predicate OnlyBotRelays(c: Config, inputs: seq<Input>) {
    forall i | 0 <= i < |inputs| :: inputs[i].FromOthers? ==> inputs[i].incident.reporter != c.relayer
  }

  /** Who may report, given who could at the start and what happened since. */
  function AuthorizedAfter(initial: set<int>, trace: seq<Event>): set<int> {
    if trace == [] then initial
    else
      var last := trace[|trace| - 1];
      AuthorizedAfter(initial, trace[..|trace| - 1]) + (if last.Granted? then {last.user} else {})
  }

  function RelayerEntries(c: Config, incidents: seq<Incident>): seq<Incident> {
    if incidents == [] then []
    else
      var last := incidents[|incidents| - 1];
      RelayerEntries(c, incidents[..|incidents| - 1]) + (if last.reporter == c.relayer then [last] else [])
  }

  function EnteredIncidents(trace: seq<Event>): seq<Incident> {
    if trace == [] then []
    else
      var last := trace[|trace| - 1];
      EnteredIncidents(trace[..|trace| - 1]) + (if last.Entered? then [last.incident] else [])
  }

  /** How many reports were triaged Medium or above, entered on chain; alerts sent, with a link, and delivered. */
  datatype Totals = Totals(serious: nat, entered: nat, sent: nat, linked: nat, delivered: nat)

  function Tally(n: Totals, e: Event): Totals {
    match e
    case Triaged(_, t) => if ShouldLog(t) then n.(serious := n.serious + 1) else n
    case Entered(_, _) => n.(entered := n.entered + 1)
    case Alerted(linked, delivered, _) =>
      n.(sent := n.sent + 1, linked := n.linked + (if linked then 1 else 0), delivered := n.delivered + (if delivered then 1 else 0))
    case _ => n
  }

  function Count(trace: seq<Event>): Totals {
    if trace == [] then Totals(0, 0, 0, 0, 0) else Tally(Count(trace[..|trace| - 1]), trace[|trace| - 1])
  }

  /** What an event must satisfy given the events before it. */
  ghost predicate SoundEvent(keccak: Hasher, c: Config, initial: set<int>, before: seq<Event>, e: Event) {
    match e
    case Triaged(user, _) => user in AuthorizedAfter(initial, before)
    case Entered(user, incident) =>
      && user in AuthorizedAfter(initial, before)
      && before != [] && before[|before| - 1].Triaged? && before[|before| - 1].user == user
      && ShouldLog(before[|before| - 1].triage)
      && incident == EntryFor(keccak, before[|before| - 1].triage, user, c.relayer, incident.timestamp)
    case Alerted(linked, _, t) =>
      && before != [] && ShouldLog(t)
      && (before[|before| - 1].Entered? ==> |before| > 1 && before[|before| - 2].Triaged? && before[|before| - 2].triage == t)
      && (!before[|before| - 1].Entered? ==> before[|before| - 1].Triaged? && before[|before| - 1].triage == t && !linked)
    case _ => true
  }

  ghost predicate Sound(keccak: Hasher, c: Config, initial: set<int>, trace: seq<Event>) {
    forall i {:trigger trace[i]} | 0 <= i < |trace| :: SoundEvent(keccak, c, initial, trace[..i], trace[i])
  }

  /** The trace is sound and accounts for the authorised set and for the relayer's entries on the chain. */
  ghost predicate Accounted(keccak: Hasher, c: Config, initial: set<int>, s: State) {
    && Sound(keccak, c, initial, s.trace)
    && s.authorized == AuthorizedAfter(initial, s.trace)
    && RelayerEntries(c, s.incidents) == EnteredIncidents(s.trace)
  }

  predicate Balanced(n: Totals) {
    n.linked <= n.entered <= n.serious && n.delivered <= n.sent == n.serious
  }

  ghost predicate Inv(keccak: Hasher, c: Config, initial: set<int>, s: State) {
    Accounted(keccak, c, initial, s) && Balanced(Count(s.trace))
  }

  lemma SoundSnoc(keccak: Hasher, c: Config, initial: set<int>, trace: seq<Event>, e: Event)
    requires Sound(keccak, c, initial, trace) && SoundEvent(keccak, c, initial, trace, e)
    ensures Sound(keccak, c, initial, trace + [e])
  {
    var u := trace + [e];
    forall i | 0 <= i < |u| ensures SoundEvent(keccak, c, initial, u[..i], u[i]) {
      if i < |trace| {
        assert u[..i] == trace[..i] && u[i] == trace[i];
      } else {
        assert u[..i] == trace;
      }
    }
  }

  lemma {:induction false} Readings(initial: set<int>, trace: seq<Event>, e: Event)
    ensures Count(trace + [e]) == Tally(Count(trace), e)
    ensures AuthorizedAfter(initial, trace + [e]) == AuthorizedAfter(initial, trace) + (if e.Granted? then {e.user} else {})
    ensures EnteredIncidents(trace + [e]) == EnteredIncidents(trace) + (if e.Entered? then [e.incident] else [])
  {
    assert (trace + [e])[..|trace|] == trace;
  }

  lemma NoteKeeps(keccak: Hasher, c: Config, initial: set<int>, s: State, e: Event)
    requires Accounted(keccak, c, initial, s) && SoundEvent(keccak, c, initial, s.trace, e)
    requires !e.Granted? && !e.Entered?
    ensures Accounted(keccak, c, initial, Note(s, e))
    ensures Count(Note(s, e).trace) == Tally(Count(s.trace), e)
  {
    SoundSnoc(keccak, c, initial, s.trace, e);
    Readings(initial, s.trace, e);
  }

  lemma EnterKeeps(keccak: Hasher, c: Config, initial: set<int>, s: State, user: int, incident: Incident)
    requires Accounted(keccak, c, initial, s) && SoundEvent(keccak, c, initial, s.trace, Entered(user, incident))
    requires incident.reporter == c.relayer
    ensures Accounted(keccak, c, initial, Enter(s, user, incident))
    ensures Count(Enter(s, user, incident).trace) == Tally(Count(s.trace), Entered(user, incident))
  {
    SoundSnoc(keccak, c, initial, s.trace, Entered(user, incident));
    Readings(initial, s.trace, Entered(user, incident));
    assert (s.incidents + [incident])[..|s.incidents|] == s.incidents;
  }

  lemma GrantKeeps(keccak: Hasher, c: Config, initial: set<int>, s: State, user: int)
    requires Inv(keccak, c, initial, s)
    ensures Inv(keccak, c, initial, Note(s.(authorized := s.authorized + {user}), Granted(user)))
  {
    SoundSnoc(keccak, c, initial, s.trace, Granted(user));
    Readings(initial, s.trace, Granted(user));
  }

  lemma TriageKeeps(keccak: Hasher, c: Config, initial: set<int>, s: State, user: int, t: Triage)
    requires Accounted(keccak, c, initial, s) && user in s.authorized
    ensures Accounted(keccak, c, initial, Note(s, Triaged(user, t)))
    ensures Count(Note(s, Triaged(user, t)).trace) == Tally(Count(s.trace), Triaged(user, t))
  {
    NoteKeeps(keccak, c, initial, s, Triaged(user, t));
  }

  lemma AlertAfterTriage(keccak: Hasher, c: Config, initial: set<int>, s: State, user: int, t: Triage, delivered: bool)
    requires Accounted(keccak, c, initial, s) && ShouldLog(t)
    requires s.trace != [] && s.trace[|s.trace| - 1] == Triaged(user, t)
    ensures Accounted(keccak, c, initial, Note(s, Alerted(false, delivered, t)))
    ensures Count(Note(s, Alerted(false, delivered, t)).trace) == Tally(Count(s.trace), Alerted(false, delivered, t))
  {
    NoteKeeps(keccak, c, initial, s, Alerted(false, delivered, t));
  }

  lemma EnterAfterTriage(keccak: Hasher, c: Config, initial: set<int>, s: State, user: int, t: Triage, blockTime: nat)
    requires Accounted(keccak, c, initial, s) && ShouldLog(t) && user in s.authorized
    requires s.trace != [] && s.trace[|s.trace| - 1] == Triaged(user, t)
    ensures var e := Enter(s, user, EntryFor(keccak, t, user, c.relayer, blockTime));
            && Accounted(keccak, c, initial, e)
            && Count(e.trace) == Tally(Count(s.trace), e.trace[|e.trace| - 1]) && e.trace[|e.trace| - 1].Entered?
  {
    EnterKeeps(keccak, c, initial, s, user, EntryFor(keccak, t, user, c.relayer, blockTime));
  }

  lemma AlertAfterEntry(keccak: Hasher, c: Config, initial: set<int>, s: State, user: int, t: Triage, linked: bool, delivered: bool)
    requires Accounted(keccak, c, initial, s) && ShouldLog(t)
    requires |s.trace| > 1 && s.trace[|s.trace| - 1].Entered? && s.trace[|s.trace| - 2] == Triaged(user, t)
    ensures Accounted(keccak, c, initial, Note(s, Alerted(linked, delivered, t)))
    ensures Count(Note(s, Alerted(linked, delivered, t)).trace) == Tally(Count(s.trace), Alerted(linked, delivered, t))
  {
    NoteKeeps(keccak, c, initial, s, Alerted(linked, delivered, t));
  }

  lemma RefusedKeeps(keccak: Hasher, c: Config, initial: set<int>, s: State, user: int, t: Triage, delivered: bool)
    requires Inv(keccak, c, initial, s) && user in s.authorized && ShouldLog(t)
    ensures Inv(keccak, c, initial, Note(Note(s, Triaged(user, t)), Alerted(false, delivered, t)))
  {
    TriageKeeps(keccak, c, initial, s, user, t);
    AlertAfterTriage(keccak, c, initial, Note(s, Triaged(user, t)), user, t, delivered);
  }

  lemma MinedKeeps(keccak: Hasher, c: Config, initial: set<int>, s: State, user: int, t: Triage, incident: Incident, linked: bool, delivered: bool)
    requires Inv(keccak, c, initial, s) && user in s.authorized && ShouldLog(t)
    requires incident == EntryFor(keccak, t, user, c.relayer, incident.timestamp)
    ensures Inv(keccak, c, initial, Note(Enter(Note(s, Triaged(user, t)), user, incident), Alerted(linked, delivered, t)))
  {
    TriageKeeps(keccak, c, initial, s, user, t);
    var triaged := Note(s, Triaged(user, t));
    EnterAfterTriage(keccak, c, initial, triaged, user, t, incident.timestamp);
    var entered := Enter(triaged, user, incident);
    assert entered.trace[|entered.trace| - 2] == Triaged(user, t);
    AlertAfterEntry(keccak, c, initial, entered, user, t, linked, delivered);
  }

  /** A report of Medium or above: at most one entry and exactly one alert follow its triage. */
  lemma SeriousKeeps(keccak: Hasher, c: Config, initial: set<int>, s: State, m: Message, o: Outside)
    requires Inv(keccak, c, initial, s) && m.user in s.authorized
    requires o.ack && o.classifier.Some? && ShouldLog(o.classifier.value)
    ensures Inv(keccak, c, initial, Handle(keccak, c, s, m, o))
  {
    var t := o.classifier.value;
    if o.chain.Refused? {
      RefusedKeeps(keccak, c, initial, s, m.user, t, o.alert);
    } else {
      MinedKeeps(keccak, c, initial, s, m.user, t, EntryFor(keccak, t, m.user, c.relayer, o.blockTime), o.chain.Confirmed?, o.alert);
    }
  }

  lemma HandleKeeps(keccak: Hasher, c: Config, initial: set<int>, s: State, m: Message, o: Outside)
    requires Inv(keccak, c, initial, s)
    ensures Inv(keccak, c, initial, Handle(keccak, c, s, m, o))
  {
    if m.user !in s.authorized {
      if OpensAccess(c, m.text) {
        GrantKeeps(keccak, c, initial, s, m.user);
      } else {
        NoteKeeps(keccak, c, initial, s, Blocked(m.user));
      }
    } else if o.ack && o.classifier.Some? {
      if ShouldLog(o.classifier.value) {
        SeriousKeeps(keccak, c, initial, s, m, o);
      } else {
        NoteKeeps(keccak, c, initial, s, Triaged(m.user, o.classifier.value));
      }
    }
  }

  /**
   Main theorem, over all sequences of messages, failures and foreign entries. The relayer's entries are
   those of the trace: each of an authorised user's report of Medium or above, under the hash of that
   user's id and of that record. Linked alerts, entries and serious reports are ordered, and for every serious
   report exactly one alert is sent whatever the chain does.
   */
  lemma {:induction false} EveryRun(keccak: Hasher, c: Config, initial: set<int>, inputs: seq<Input>)
    requires OnlyBotRelays(c, inputs)
    ensures Inv(keccak, c, initial, Run(keccak, c, State(initial, [], []), inputs))
  {
    if inputs != [] {
      var front := inputs[..|inputs| - 1];
      var last := inputs[|inputs| - 1];
      EveryRun(keccak, c, initial, front);
      var before := Run(keccak, c, State(initial, [], []), front);
      match last
      case FromTelegram(m, o) => HandleKeeps(keccak, c, initial, before, m, o);
      case FromOthers(incident) =>
        assert (before.incidents + [incident])[..|before.incidents|] == before.incidents;
    }
  }

  /** Every serious report reached the officer exactly if no sending failed. */
  lemma DeliveredExactly(keccak: Hasher, c: Config, initial: set<int>, inputs: seq<Input>)
    requires OnlyBotRelays(c, inputs)
    ensures var s := Run(keccak, c, State(initial, [], []), inputs);
            Count(s.trace).delivered == Count(s.trace).serious <==> forall e | e in s.trace :: e.Alerted? ==> e.delivered
  {
    EveryRun(keccak, c, initial, inputs);
    AllDelivered(Run(keccak, c, State(initial, [], []), inputs).trace);
  }

  lemma {:induction false} AllDelivered(trace: seq<Event>)
    ensures Count(trace).delivered <= Count(trace).sent
    ensures Count(trace).delivered == Count(trace).sent <==> forall e | e in trace :: e.Alerted? ==> e.delivered
  {
    if trace != [] {
      var front, last := trace[..|trace| - 1], trace[|trace| - 1];
      assert trace == front + [last];
      AllDelivered(front);
      assert last in trace && forall e | e in front :: e in trace;
      assert forall e | e in trace :: e in front || e == last;
    }
  }

  /** At the k-th input an authorised user's report of Medium or above made this entry. */
  predicate EarnedAt(keccak: Hasher, c: Config, initial: set<int>, inputs: seq<Input>, k: nat, incident: Incident) {
    && k < |inputs| && inputs[k].FromTelegram?
    && var m, o := inputs[k].message, inputs[k].outside;
    && m.user in Run(keccak, c, State(initial, [], []), inputs[..k]).authorized
    && o.ack && o.classifier.Some? && o.classifier.value.severity != Low && !o.chain.Refused?
    && incident == EntryFor(keccak, o.classifier.value, m.user, c.relayer, o.blockTime)
  }

  lemma EarnedEarlier(keccak: Hasher, c: Config, initial: set<int>, inputs: seq<Input>, k: nat, incident: Incident)
    requires inputs != [] && k < |inputs| - 1
    ensures EarnedAt(keccak, c, initial, inputs, k, incident)
            <==> EarnedAt(keccak, c, initial, inputs[..|inputs| - 1], k, incident)
  {
    assert inputs[..|inputs| - 1][..k] == inputs[..k];
  }

  /** One message adds an entry exactly if it is such a report. */
  lemma EarnedLast(keccak: Hasher, c: Config, initial: set<int>, inputs: seq<Input>, incident: Incident)
    requires inputs != [] && OnlyBotRelays(c, inputs) && incident.reporter == c.relayer
    ensures var start := State(initial, [], []);
            incident in Run(keccak, c, start, inputs).incidents
            <==> || incident in Run(keccak, c, start, inputs[..|inputs| - 1]).incidents
                 || EarnedAt(keccak, c, initial, inputs, |inputs| - 1, incident)
  {
    var last := inputs[|inputs| - 1];
    assert last.FromOthers? ==> last.incident != incident;
  }

  ghost predicate Earned(keccak: Hasher, c: Config, initial: set<int>, inputs: seq<Input>, incident: Incident) {
    exists k :: EarnedAt(keccak, c, initial, inputs, k, incident)
  }

  lemma EarnedSnoc(keccak: Hasher, c: Config, initial: set<int>, inputs: seq<Input>, incident: Incident)
    requires inputs != []
    ensures Earned(keccak, c, initial, inputs, incident)
            <==> Earned(keccak, c, initial, inputs[..|inputs| - 1], incident)
                 || EarnedAt(keccak, c, initial, inputs, |inputs| - 1, incident)
  {
    var n := |inputs| - 1;
    if k :| 0 <= k < n && EarnedAt(keccak, c, initial, inputs, k, incident) {
      EarnedEarlier(keccak, c, initial, inputs, k, incident);
    }
    if k :| EarnedAt(keccak, c, initial, inputs[..n], k, incident) {
      EarnedEarlier(keccak, c, initial, inputs, k, incident);
    }
  }

  /** The relayer's entries on the chain are exactly those of reports by users authorised at that moment. */
  lemma {:induction false} EntriesAreEarned(keccak: Hasher, c: Config, initial: set<int>, inputs: seq<Input>, incident: Incident)
    requires OnlyBotRelays(c, inputs) && incident.reporter == c.relayer
    ensures incident in Run(keccak, c, State(initial, [], []), inputs).incidents <==> Earned(keccak, c, initial, inputs, incident)
  {
    if inputs != [] {
      EntriesAreEarned(keccak, c, initial, inputs[..|inputs| - 1], incident);
      EarnedLast(keccak, c, initial, inputs, incident);
      EarnedSnoc(keccak, c, initial, inputs, incident);
    }
  }

  /** The message is the access code with nothing but white space around it; there has to be a code. */
  ghost predicate SendsCode(c: Config, text: string) {
    c.accessCode != "" && Surrounds(IsPySpace, text, c.accessCode)
  }

  lemma OpensExactly(c: Config, text: string)
    ensures OpensAccess(c, text) <==> SendsCode(c, text)
  {
    TrimExactly(IsPySpace, text, c.accessCode);
  }

  /** Exactly those are authorised who were from the start or have sent the code. */
  lemma {:induction false} AuthorizedExactly(keccak: Hasher, c: Config, initial: set<int>, inputs: seq<Input>, user: int)
    ensures user in Run(keccak, c, State(initial, [], []), inputs).authorized
            <==> user in initial || exists k | 0 <= k < |inputs| ::
                   inputs[k].FromTelegram? && inputs[k].message.user == user && SendsCode(c, inputs[k].message.text)
  {
    if inputs != [] {
      var front, last := inputs[..|inputs| - 1], inputs[|inputs| - 1];
      AuthorizedExactly(keccak, c, initial, front, user);
      assert inputs == front + [last];
      if last.FromTelegram? {
        OpensExactly(c, last.message.text);
      }
      assert forall k | 0 <= k < |front| :: inputs[k] == front[k];
    }
  }

  /** Nobody loses authorisation. */
  lemma {:induction false} AuthorizationGrows(keccak: Hasher, c: Config, s: State, inputs: seq<Input>, k: nat)
    requires k <= |inputs|
    ensures Run(keccak, c, s, inputs[..k]).authorized <= Run(keccak, c, s, inputs).authorized
  {
    if k == |inputs| {
      assert inputs[..k] == inputs;
    } else {
      var front := inputs[..|inputs| - 1];
      AuthorizationGrows(keccak, c, s, front, k);
      assert front[..k] == inputs[..k];
    }
  }

  /**
   What an entry says of the report: the severity given, the relayer and the block's time; the hash of a text that
   reads back as the four fields under their own names; and the hash of the user's id in decimal digits.
   */
  lemma EntryTells(keccak: Hasher, t: Triage, user: int, relayer: Account, blockTime: nat)
    ensures var e := EntryFor(keccak, t, user, relayer, blockTime);
            var name := ["LOW", "MEDIUM", "HIGH", "CRITICAL"][match t.severity case Low => 0 case Medium => 1 case High => 2 case Critical => 3];
            var text := PythonPayload(RecordOf(t));
            && e.severity == t.severity && e.reporter == relayer && e.timestamp == blockTime
            && e.recordHash == keccak(text)
            && ParseObject(text) == Some([("driving_factor", t.drivingFactor), ("justification", t.justification),
                                          ("severity", name), ("summary", t.summary)])
            && e.reporterId == keccak(UserText(user))
    ensures var digits := if user < 0 then UserText(user)[1..] else UserText(user);
            && IsNumeral(digits, 10) && Parse(digits, 10) == (if user < 0 then -user else user)
            && (user != 0 ==> digits[0] != '0') && (user == 0 ==> digits == "0") && (user < 0 ==> UserText(user)[0] == '-')
  {
    PythonRoundTrip(RecordOf(t));
    PrintThenParse(if user < 0 then -user else user, 10);
    assert user < 0 ==> UserText(user)[1..] == Print(-user, 10);
  }

  /** The reports triaged Medium or above so far, with what became of the chain call and of the alert. */
  function SeriousReports(keccak: Hasher, c: Config, initial: set<int>, inputs: seq<Input>): seq<(Triage, bool, bool)> {
    if inputs == [] then []
    else
      var front, last := inputs[..|inputs| - 1], inputs[|inputs| - 1];
      SeriousReports(keccak, c, initial, front)
      + (if && last.FromTelegram?
            && last.message.user in Run(keccak, c, State(initial, [], []), front).authorized
            && last.outside.ack && last.outside.classifier.Some? && last.outside.classifier.value.severity != Low
         then [(last.outside.classifier.value, last.outside.chain.Confirmed?, last.outside.alert)] else [])
  }

  function Alerts(trace: seq<Event>): seq<(Triage, bool, bool)> {
    if trace == [] then []
    else
      var last := trace[|trace| - 1];
      Alerts(trace[..|trace| - 1]) + (if last.Alerted? then [(last.triage, last.linked, last.delivered)] else [])
  }

  lemma AlertsSnoc(trace: seq<Event>, e: Event)
    ensures Alerts(trace + [e]) == Alerts(trace) + (if e.Alerted? then [(e.triage, e.linked, e.delivered)] else [])
  {
    assert (trace + [e])[..|trace|] == trace;
  }

  lemma HandleAlerts(keccak: Hasher, c: Config, s: State, m: Message, o: Outside)
    ensures Alerts(Handle(keccak, c, s, m, o).trace)
         == Alerts(s.trace) + (if m.user in s.authorized && o.ack && o.classifier.Some? && o.classifier.value.severity != Low
                               then [(o.classifier.value, o.chain.Confirmed?, o.alert)] else [])
  {
    if m.user !in s.authorized {
      AlertsSnoc(s.trace, Granted(m.user));
      AlertsSnoc(s.trace, Blocked(m.user));
    } else if o.ack && o.classifier.Some? {
      var t := o.classifier.value;
      AlertsSnoc(s.trace, Triaged(m.user, t));
      if t.severity != Low {
        SeriousAlerts(keccak, c, Note(s, Triaged(m.user, t)), m, o, t);
      }
    }
  }

  lemma SeriousAlerts(keccak: Hasher, c: Config, triaged: State, m: Message, o: Outside, t: Triage)
    ensures var incident := EntryFor(keccak, t, m.user, c.relayer, o.blockTime);
            var entered := if o.chain.Refused? then triaged else Enter(triaged, m.user, incident);
            Alerts(Note(entered, Alerted(o.chain.Confirmed?, o.alert, t)).trace)
              == Alerts(triaged.trace) + [(t, o.chain.Confirmed?, o.alert)]
  {
    var entry := Entered(m.user, EntryFor(keccak, t, m.user, c.relayer, o.blockTime));
    AlertsSnoc(triaged.trace, entry);
    AlertsSnoc(if o.chain.Refused? then triaged.trace else triaged.trace + [entry], Alerted(o.chain.Confirmed?, o.alert, t));
  }

  /** The alerts are those of the serious reports, in order: linked exactly if the chain call was confirmed. */
  lemma {:induction false} AlertsExactly(keccak: Hasher, c: Config, initial: set<int>, inputs: seq<Input>)
    ensures Alerts(Run(keccak, c, State(initial, [], []), inputs).trace) == SeriousReports(keccak, c, initial, inputs)
  {
    if inputs != [] {
      var front, last := inputs[..|inputs| - 1], inputs[|inputs| - 1];
      AlertsExactly(keccak, c, initial, front);
      if last.FromTelegram? {
        HandleAlerts(keccak, c, Run(keccak, c, State(initial, [], []), front), last.message, last.outside);
      }
    }
  }

  /** Different users are hashed from different texts, and so are different records. */
  lemma HashInputsDiffer(user: int, other: int, t: Triage, u: Triage)
    ensures UserText(user) == UserText(other) ==> user == other
    ensures PythonPayload(RecordOf(t)) == PythonPayload(RecordOf(u)) ==> t == u
  {
    if UserText(user) == UserText(other) {
      var a, b := UserText(user), UserText(other);
      assert IsNumeral(Print(if user < 0 then -user else user, 10), 10);
      assert IsNumeral(Print(if other < 0 then -other else other, 10), 10);
      assert a[0] == '-' <==> user < 0;
      assert b[0] == '-' <==> other < 0;
      if user < 0 {
        assert a[1..] == Print(-user, 10) && b[1..] == Print(-other, 10);
        PrintInjective(-user, -other, 10);
      } else {
        PrintInjective(user, other, 10);
      }
    }
    if PythonPayload(RecordOf(t)) == PythonPayload(RecordOf(u)) {
      PythonInjective(RecordOf(t), RecordOf(u));
      assert SeverityName(t.severity) == SeverityName(u.severity);
      SeverityNamesDiffer(t.severity, u.severity);
    }
  }

  lemma SeverityNamesDiffer(a: Severity, b: Severity)
    requires SeverityName(a) == SeverityName(b)
    ensures a == b
  {
    assert SeverityName(a)[0] == SeverityName(b)[0];
  }
}

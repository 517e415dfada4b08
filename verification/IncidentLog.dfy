/** The on-chain incident log: an append-only array, and the events it emits. */
module IncidentLog {
  import opened Options

  datatype Severity = Low | Medium | High | Critical

  type Word = nat
  type Account = nat

  datatype Incident = Incident(recordHash: Word, reporterId: Word, severity: Severity, timestamp: nat, reporter: Account)

  datatype Logged = Logged(id: nat, recordHash: Word, reporterId: Word, severity: Severity, timestamp: nat, reporter: Account)

  class Log {
    var incidents: seq<Incident>
    var events: seq<Logged>

    ghost predicate Valid()
      reads this
    {
      incidents == Replay(events) && Dense(events)
    }

    constructor ()
      ensures Valid() && incidents == [] && events == []
    {
      incidents, events := [], [];
    }

    method LogIncident(recordHash: Word, reporterId: Word, severity: Severity, sender: Account, blockTime: nat)
      returns (id: nat)
      requires Valid()
      modifies this
      ensures Valid()
      ensures id == |old(incidents)|
      ensures incidents == old(incidents) + [Incident(recordHash, reporterId, severity, blockTime, sender)]
      ensures old(events) <= events && |events| == |old(events)| + 1
    {
      id := |incidents|;
      incidents := incidents + [Incident(recordHash, reporterId, severity, blockTime, sender)];
      events := events + [Logged(id, recordHash, reporterId, severity, blockTime, sender)];
      ReplaySnoc(old(events), events[|events| - 1]);
    }

    method IncidentCount() returns (n: nat)
      ensures n == |incidents|
    {
      n := |incidents|;
    }

    /** Reverts for an id that has not been given out. */
    method GetIncident(id: nat) returns (incident: Option<Incident>)
      ensures incident.Some? <==> id < |incidents|
      ensures incident.Some? ==> incident.value == incidents[id]
    {
      incident := if id < |incidents| then Some(incidents[id]) else None;
    }
  }

  /** The log an observer rebuilds from the events alone. */
  function Replay(events: seq<Logged>): (r: seq<Incident>)
    ensures |r| == |events|
  {
    if events == [] then []
    else
      var e := events[|events| - 1];
      Replay(events[..|events| - 1]) + [Incident(e.recordHash, e.reporterId, e.severity, e.timestamp, e.reporter)]
  }

  /** Ids are dense: the n-th event carries id n. */
  predicate Dense(events: seq<Logged>) {
    forall i | 0 <= i < |events| :: events[i].id == i
  }

  lemma {:induction false} ReplaySnoc(events: seq<Logged>, e: Logged)
    requires Dense(events) && e.id == |events|
    ensures Replay(events + [e]) == Replay(events) + [Incident(e.recordHash, e.reporterId, e.severity, e.timestamp, e.reporter)]
    ensures Dense(events + [e])
  {
    assert (events + [e])[..|events|] == events;
  }

  // ---------------------------------------------------------------- whole histories

  /** One call of logIncident. */
  datatype Call = Call(recordHash: Word, reporterId: Word, severity: Severity, sender: Account, blockTime: nat)

  function After(calls: seq<Call>): (incidents: seq<Incident>)
    ensures |incidents| == |calls|
  {
    if calls == [] then []
    else
      var c := calls[|calls| - 1];
      After(calls[..|calls| - 1]) + [Incident(c.recordHash, c.reporterId, c.severity, c.blockTime, c.sender)]
  }

  method LogAll(log: Log, calls: seq<Call>)
    requires log.Valid() && log.incidents == []
    modifies log
    ensures log.Valid() && log.incidents == After(calls)
  {
    var i := 0;
    while i < |calls|
      invariant 0 <= i <= |calls| && log.Valid()
      invariant log.incidents == After(calls[..i])
    {
      assert calls[..i + 1][..i] == calls[..i];
      var _ := log.LogIncident(calls[i].recordHash, calls[i].reporterId, calls[i].severity, calls[i].sender, calls[i].blockTime);
      i := i + 1;
    }
    assert calls[..i] == calls;
  }

  /** An incident never changes once it has an id, whatever is logged later. */
  lemma {:induction false} NeverChanges(calls: seq<Call>, later: seq<Call>, id: nat)
    requires id < |calls|
    ensures After(calls + later)[id] == After(calls)[id]
  {
    if later == [] {
      assert calls + later == calls;
    } else {
      assert (calls + later)[..|calls + later| - 1] == calls + later[..|later| - 1];
      NeverChanges(calls, later[..|later| - 1], id);
    }
  }

  /** Incidents are in time order when the blocks are. */
  lemma {:induction false} TimeOrdered(calls: seq<Call>, i: nat, j: nat)
    requires i <= j < |calls|
    requires forall a, b | 0 <= a <= b < |calls| :: calls[a].blockTime <= calls[b].blockTime
    ensures After(calls)[i].timestamp <= After(calls)[j].timestamp
  {
    TimeOf(calls, i);
    TimeOf(calls, j);
  }

  lemma {:induction false} TimeOf(calls: seq<Call>, i: nat)
    requires i < |calls|
    ensures After(calls)[i].timestamp == calls[i].blockTime
  {
    if i < |calls| - 1 {
      TimeOf(calls[..|calls| - 1], i);
    }
  }
}

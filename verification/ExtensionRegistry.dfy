/**
 The extension registry as far as the tools use it, SetupExtension's four guarded steps on it, and the
 instruction-sender contract that finds its own extension id by scanning it.
 */
module ExtensionRegistry {
  import opened Options

  const UINT160_LIMIT: nat := 0x1_0000000000000000000000000000000000000000
  const UINT256_LIMIT: nat := 0x1_0000000000000000000000000000000000000000000000000000000000000000

  type Address = a: nat | a < UINT160_LIMIT

  const ZERO_ADDRESS: Address := 0
  const FIRST_PUBLIC_EXTENSION_ID: nat := 0x10000
  const EVM_TYPE := "EVM"

  /** Registered ids with their instruction senders, and what is allowed for each id. */
  datatype Chain = Chain(
    next: nat, senders: map<nat, Address>,
    machineOwners: set<(nat, Address)>, projectOwners: set<(nat, Address)>, keyTypes: set<(nat, string)>)

  /** Ids are handed out in order; only ids below the next one have a sender. */
  predicate ValidChain(c: Chain) {
    FIRST_PUBLIC_EXTENSION_ID <= c.next < UINT256_LIMIT && forall id | id in c.senders :: id < c.next
  }

  function SenderOf(c: Chain, id: nat): Address {
    if id in c.senders then c.senders[id] else ZERO_ADDRESS
  }

  /** The registry only grows: registered senders stay, nothing allowed is taken back. */
  predicate Extends(c: Chain, d: Chain) {
    && c.next <= d.next
    && (forall id: nat | id < c.next :: SenderOf(d, id) == SenderOf(c, id))
    && c.machineOwners <= d.machineOwners && c.projectOwners <= d.projectOwners && c.keyTypes <= d.keyTypes
  }

  function Append(c: Chain, sender: Address): Chain {
    c.(next := c.next + 1, senders := c.senders[c.next := sender])
  }

  /** The chain after a complete setup of a new extension. */
  function SetUp(c: Chain, sender: Address, deployer: Address): Chain {
    Append(c, sender).(machineOwners := c.machineOwners + {(c.next, deployer)},
                       projectOwners := c.projectOwners + {(c.next, deployer)},
                       keyTypes := c.keyTypes + {(c.next, EVM_TYPE)})
  }

  // ---------------------------------------------------------------- SetupExtension

  /** A transaction: mined and reported, refused, or mined although the caller sees an error. */
  datatype Tx = Sent | Rejected | Interrupted

  datatype SetupPlan = SetupPlan(
    register: Tx, machineQuery: bool, machineTx: Tx, projectQuery: bool, projectTx: Tx, keyQuery: bool, keyTx: Tx)

  /** Registration and the three queries succeed, and so does every transaction that is still needed. */
  predicate Completes(c: Chain, deployer: Address, plan: SetupPlan) {
    && plan.register.Sent? && c.next + 1 < UINT256_LIMIT
    && plan.machineQuery && ((c.next, deployer) in c.machineOwners || plan.machineTx.Sent?)
    && plan.projectQuery && ((c.next, deployer) in c.projectOwners || plan.projectTx.Sent?)
    && plan.keyQuery && ((c.next, EVM_TYPE) in c.keyTypes || plan.keyTx.Sent?)
  }

  /** What a transaction that may not be needed leaves: does it land, and does the caller go on? */
  predicate Lands(needed: bool, tx: Tx) {
    needed && !tx.Rejected?
  }

  predicate GoesOn(needed: bool, tx: Tx) {
    !needed || tx.Sent?
  }

  /** How far a setup gets: the registration, then the three allowances, each unless one before it stopped. */
  function Reached(c: Chain, sender: Address, deployer: Address, plan: SetupPlan): Chain {
    var id := c.next;
    if plan.register.Rejected? || id + 1 >= UINT256_LIMIT then c
    else
      var machine := plan.register.Sent? && plan.machineQuery;
      var needMachine := (id, deployer) !in c.machineOwners;
      var project := machine && GoesOn(needMachine, plan.machineTx) && plan.projectQuery;
      var needProject := (id, deployer) !in c.projectOwners;
      var key := project && GoesOn(needProject, plan.projectTx) && plan.keyQuery;
      Append(c, sender).(
        machineOwners := c.machineOwners + (if machine && Lands(needMachine, plan.machineTx) then {(id, deployer)} else {}),
        projectOwners := c.projectOwners + (if project && Lands(needProject, plan.projectTx) then {(id, deployer)} else {}),
        keyTypes := c.keyTypes + (if key && Lands((id, EVM_TYPE) !in c.keyTypes, plan.keyTx) then {(id, EVM_TYPE)} else {}))
  }

  /** An allowance is only there if it was before, or everything due before it succeeded and its own call landed. */
  lemma ReachedExactly(c: Chain, sender: Address, deployer: Address, plan: SetupPlan)
    requires ValidChain(c)
    ensures var d := Reached(c, sender, deployer, plan);
            var id := c.next;
            var mined := !plan.register.Rejected? && id + 1 < UINT256_LIMIT;
            var machine := mined && plan.register.Sent? && plan.machineQuery;
            var project := machine && ((id, deployer) in c.machineOwners || plan.machineTx.Sent?) && plan.projectQuery;
            var key := project && ((id, deployer) in c.projectOwners || plan.projectTx.Sent?) && plan.keyQuery;
            && d.next == (if mined then id + 1 else id)
            && (mined ==> SenderOf(d, id) == sender) && (forall i: nat | i < id :: SenderOf(d, i) == SenderOf(c, i))
            && ((id, deployer) in d.machineOwners <==> (id, deployer) in c.machineOwners || (machine && !plan.machineTx.Rejected?))
            && ((id, deployer) in d.projectOwners <==> (id, deployer) in c.projectOwners || (project && !plan.projectTx.Rejected?))
            && ((id, EVM_TYPE) in d.keyTypes <==> (id, EVM_TYPE) in c.keyTypes || (key && !plan.keyTx.Rejected?))
            && (forall x | x in d.machineOwners - c.machineOwners || x in d.projectOwners - c.projectOwners :: x == (id, deployer))
            && (forall x | x in d.keyTypes - c.keyTypes :: x == (id, EVM_TYPE))
  {
  }

  class Registry {
    var next: nat
    var senders: map<nat, Address>
    var machineOwners: set<(nat, Address)>
    var projectOwners: set<(nat, Address)>
    var keyTypes: set<(nat, string)>

    function Contents(): Chain
      reads this
    {
      Chain(next, senders, machineOwners, projectOwners, keyTypes)
    }

    /** Register(): the next id, unless the counter is exhausted. */
    method Register(sender: Address, tx: Tx) returns (id: Option<nat>)
      requires ValidChain(Contents())
      modifies this
      ensures ValidChain(Contents())
      ensures Contents() == if tx.Rejected? || old(next) + 1 >= UINT256_LIMIT then old(Contents()) else Append(old(Contents()), sender)
      ensures id.Some? <==> tx.Sent? && old(next) + 1 < UINT256_LIMIT
      ensures id.Some? ==> id.value == old(next)
    {
      if tx.Rejected? || next + 1 >= UINT256_LIMIT {
        return None;
      }
      id := if tx.Sent? then Some(next) else None;
      senders := senders[next := sender];
      next := next + 1;
    }

    /**
     SetupExtension. Success leaves exactly the complete setup of the next id, whatever was already
     allowed for it; failure leaves the chain somewhere between the old state and the complete setup.
     */
    method SetupExtension(sender: Address, deployer: Address, plan: SetupPlan) returns (id: Option<nat>)
      requires ValidChain(Contents())
      modifies this
      ensures ValidChain(Contents())
      ensures Contents() == Reached(old(Contents()), sender, deployer, plan)
      ensures id.Some? <==> Completes(old(Contents()), deployer, plan)
      ensures id.Some? ==> id.value == old(next) && Contents() == SetUp(old(Contents()), sender, deployer)
      ensures id.Some? ==> next == id.value + 1 && senders == old(senders)[id.value := sender]
      ensures id.Some? ==> machineOwners == old(machineOwners) + {(id.value, deployer)}
                           && projectOwners == old(projectOwners) + {(id.value, deployer)}
                           && keyTypes == old(keyTypes) + {(id.value, EVM_TYPE)}
      ensures id.None? ==> Extends(old(Contents()), Contents())
      ensures id.None? && Contents() != old(Contents()) ==> Extends(Contents(), SetUp(old(Contents()), sender, deployer))
    {
      id := Register(sender, plan.register);
      if id.None? {
        return;
      }
      var extension := id.value;

      if !plan.machineQuery {
        return None;
      }
      if (extension, deployer) !in machineOwners {
        if plan.machineTx.Rejected? {
          return None;
        }
        machineOwners := machineOwners + {(extension, deployer)};
        if plan.machineTx.Interrupted? {
          return None;
        }
      }

      if !plan.projectQuery {
        return None;
      }
      if (extension, deployer) !in projectOwners {
        if plan.projectTx.Rejected? {
          return None;
        }
        projectOwners := projectOwners + {(extension, deployer)};
        if plan.projectTx.Interrupted? {
          return None;
        }
      }

      if !plan.keyQuery {
        return None;
      }
      if (extension, EVM_TYPE) !in keyTypes {
        if plan.keyTx.Rejected? {
          return None;
        }
        keyTypes := keyTypes + {(extension, EVM_TYPE)};
        if plan.keyTx.Interrupted? {
          return None;
        }
      }
    }
  }

  // ---------------------------------------------------------------- setExtensionId

  /** The least public id from `from` on whose sender is the contract. */
  function LeastFrom(c: Chain, self: Address, from: nat): (id: Option<nat>)
    ensures id.Some? ==> from <= id.value < c.next && SenderOf(c, id.value) == self
    ensures id.Some? ==> forall j | from <= j < id.value :: SenderOf(c, j) != self
    ensures id.None? ==> forall j | from <= j < c.next :: SenderOf(c, j) != self
    decreases c.next - from
  {
    if from >= c.next then None
    else if SenderOf(c, from) == self then Some(from)
    else LeastFrom(c, self, from + 1)
  }

  function LeastId(c: Chain, self: Address): (id: Option<nat>)
    ensures id.Some? ==> id.value >= FIRST_PUBLIC_EXTENSION_ID
  {
    LeastFrom(c, self, FIRST_PUBLIC_EXTENSION_ID)
  }

  class InstructionSender {
    const self: Address
    var extensionId: nat

    constructor (self: Address)
      ensures this.self == self && extensionId == 0
    {
      this.self := self;
      extensionId := 0;
    }

    /** Reverts (ok is false, nothing changes) exactly when the id is already set or no public id is ours. */
    method SetExtensionId(c: Chain) returns (ok: bool)
      modifies this
      ensures ok <==> old(extensionId) == 0
                      && exists i :: 65536 <= i < c.next && SenderOf(c, i) == self
      ensures ok ==> 65536 <= extensionId < c.next && SenderOf(c, extensionId) == self
      ensures ok ==> forall j | FIRST_PUBLIC_EXTENSION_ID <= j < extensionId :: SenderOf(c, j) != self
      ensures extensionId == Apply(self, Joint(c, old(extensionId)), SetId).stored
      ensures !ok ==> extensionId == old(extensionId)
    {
      if extensionId != 0 {
        return false;
      }
      var i := FIRST_PUBLIC_EXTENSION_ID;
      while i < c.next
        invariant FIRST_PUBLIC_EXTENSION_ID <= i
        invariant forall j | FIRST_PUBLIC_EXTENSION_ID <= j < i && j < c.next :: SenderOf(c, j) != self
        invariant extensionId == old(extensionId)
      {
        if SenderOf(c, i) == self {
          extensionId := i;
          return true;
        }
        i := i + 1;
      }
      return false;
    }

    /** _getExtensionId: reverts until the id is set. */
    method GetExtensionId() returns (id: Option<nat>)
      ensures id.None? <==> extensionId == 0
      ensures id.Some? ==> id.value == extensionId
    {
      id := if extensionId == 0 then None else Some(extensionId);
    }
  }

  // ---------------------------------------------------------------- whole runs

  datatype Op = Register(sender: Address) | SetId

  /** The registry and the contract's stored id, over registrations interleaved with setExtensionId. */
  datatype Joint = Joint(chain: Chain, stored: nat)

  function Apply(self: Address, s: Joint, op: Op): Joint {
    match op
    case Register(sender) => if s.chain.next + 1 < UINT256_LIMIT then s.(chain := Append(s.chain, sender)) else s
    case SetId =>
      if s.stored == 0 && LeastId(s.chain, self).Some? then s.(stored := LeastId(s.chain, self).value) else s
  }

  function ApplyAll(self: Address, s: Joint, ops: seq<Op>): Joint {
    if ops == [] then s else Apply(self, ApplyAll(self, s, ops[..|ops| - 1]), ops[|ops| - 1])
  }

  /** Appending a registration keeps the least id. */
  lemma {:induction false} LeastSurvivesAppend(c: Chain, sender: Address, self: Address, from: nat)
    requires ValidChain(c) && LeastFrom(c, self, from).Some?
    ensures LeastFrom(Append(c, sender), self, from) == LeastFrom(c, self, from)
    decreases c.next - from
  {
    if SenderOf(c, from) != self {
      LeastSurvivesAppend(c, sender, self, from + 1);
    }
  }

  /** The stored id is 0 until it is set; from then on it is the least public id of the contract, for good. */
  lemma {:induction false} StoredIdIsStable(self: Address, s: Joint, ops: seq<Op>)
    requires ValidChain(s.chain) && (s.stored == 0 || LeastId(s.chain, self) == Some(s.stored))
    ensures var t := ApplyAll(self, s, ops);
            && ValidChain(t.chain) && Extends(s.chain, t.chain)
            && (t.stored == 0 || LeastId(t.chain, self) == Some(t.stored))
            && (t.stored == 0 || 65536 <= t.stored < t.chain.next)
            && (s.stored != 0 ==> t.stored == s.stored)
  {
    if ops != [] {
      var front := ops[..|ops| - 1];
      StoredIdIsStable(self, s, front);
      var t := ApplyAll(self, s, front);
      var op := ops[|ops| - 1];
      if op.Register? && t.stored != 0 {
        LeastSurvivesAppend(t.chain, op.sender, self, FIRST_PUBLIC_EXTENSION_ID);
      }
    }
  }

  /** A newly set-up extension is the one setExtensionId finds exactly when its sender was not public before. */
  lemma NewIdIsFoundExactly(c: Chain, sender: Address, deployer: Address)
    requires ValidChain(c)
    ensures LeastId(SetUp(c, sender, deployer), sender) == Some(c.next)
            <==> forall i | FIRST_PUBLIC_EXTENSION_ID <= i < c.next :: SenderOf(c, i) != sender
  {
    var d := SetUp(c, sender, deployer);
    assert forall i: nat | i < c.next :: SenderOf(d, i) == SenderOf(c, i);
    assert SenderOf(d, c.next) == sender;
  }
}

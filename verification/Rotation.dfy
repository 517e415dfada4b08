/**
 The sequencer's weighted rotation: slot k belongs to agent k mod L of the rotation, the position is
 saved after every slot, and a restarted sequencer continues from the saved position.
 */
module Rotation {
  import opened Numerals
  import opened Options

  type Rotation = r: seq<string> | r != [] witness ["agent"]

  function AgentAt(rotation: Rotation, position: nat): string {
    rotation[position % |rotation|]
  }

  /** Every cycle serves the agents in the order listed. */
  lemma ListedOrder(rotation: Rotation, cycles: nat, k: nat)
    requires k < |rotation|
    ensures AgentAt(rotation, cycles * |rotation| + k) == rotation[k]
  {
    DivisionIsUnique(cycles * |rotation| + k, |rotation|, cycles, k);
  }

  /** How many of the n slots from a position on belong to the agent. */
  function Visits(rotation: Rotation, start: nat, n: nat, agent: string): nat {
    if n == 0 then 0
    else Visits(rotation, start, n - 1, agent) + (if AgentAt(rotation, start + n - 1) == agent then 1 else 0)
  }

  /** An agent's weight is the number of times the configuration lists it. */
  function Weight(rotation: Rotation, agent: string): nat {
    multiset(rotation)[agent]
  }

  // ---------------------------------------------------------------- fairness

  lemma {:induction false} VisitsSplit(rotation: Rotation, start: nat, m: nat, n: nat, agent: string)
    ensures Visits(rotation, start, m + n, agent)
         == Visits(rotation, start, m, agent) + Visits(rotation, start + m, n, agent)
  {
    if n > 0 {
      VisitsSplit(rotation, start, m, n - 1, agent);
      assert start + (m + n) - 1 == (start + m) + n - 1;
    }
  }

  lemma {:induction false} PrefixVisits(rotation: Rotation, n: nat, agent: string)
    requires n <= |rotation|
    ensures Visits(rotation, 0, n, agent) == multiset(rotation[..n])[agent]
  {
    if n > 0 {
      PrefixVisits(rotation, n - 1, agent);
      assert rotation[..n] == rotation[..n - 1] + [rotation[n - 1]];
      SmallModulus(n - 1, |rotation|);
    }
  }

  lemma SmallModulus(i: nat, m: nat)
    requires i < m
    ensures i % m == i
  {
  }

  lemma ModulusPeriod(i: nat, m: nat)
    requires m > 0
    ensures (i + m) % m == i % m
  {
    var q, r := i / m, i % m;
    assert i == q * m + r;
    assert i + m == (q + 1) * m + r;
    DivisionIsUnique(i + m, m, q + 1, r);
  }

  lemma DivisionIsUnique(i: nat, m: nat, q: nat, r: nat)
    requires m > 0 && i == q * m + r && r < m
    ensures i % m == r && i / m == q
  {
    var p, s := i / m, i % m;
    assert i == p * m + s && 0 <= s < m;
    OneMoreMultiple(m, p, q);
    OneMoreMultiple(m, q, p);
  }

  lemma OneMoreMultiple(m: nat, p: nat, q: nat)
    ensures p < q ==> p * m + m <= q * m
  {
    if p < q {
      var d := q - p - 1;
      assert q * m == p * m + m + d * m;
    }
  }

  /** Any L consecutive slots visit an agent exactly as often as its weight says. */
  lemma {:induction false} FullCycle(rotation: Rotation, start: nat, agent: string)
    ensures Visits(rotation, start, |rotation|, agent) == Weight(rotation, agent)
  {
    var cycle := |rotation|;
    if start == 0 {
      PrefixVisits(rotation, cycle, agent);
      assert rotation[..cycle] == rotation;
    } else {
      FullCycle(rotation, start - 1, agent);
      VisitsSplit(rotation, start - 1, 1, cycle, agent);
      VisitsSplit(rotation, start - 1, cycle, 1, agent);
      ModulusPeriod(start - 1, cycle);
      assert Visits(rotation, start - 1, 1, agent) == Visits(rotation, start - 1 + cycle, 1, agent) by {
        assert Visits(rotation, start - 1, 0, agent) == Visits(rotation, start - 1 + cycle, 0, agent) == 0;
      }
    }
  }

  lemma {:induction false} FullCycles(rotation: Rotation, start: nat, cycles: nat, agent: string)
    ensures Visits(rotation, start, cycles * |rotation|, agent) == cycles * Weight(rotation, agent)
  {
    if cycles == 0 {
      assert cycles * |rotation| == 0;
    } else {
      var before := (cycles - 1) * |rotation|;
      FullCycles(rotation, start, cycles - 1, agent);
      FullCycle(rotation, start + before, agent);
      VisitsSplit(rotation, start, before, |rotation|, agent);
      assert before + |rotation| == cycles * |rotation|;
      assert (cycles - 1) * Weight(rotation, agent) + Weight(rotation, agent) == cycles * Weight(rotation, agent);
    }
  }

  /** n slots are whole cycles and a rest that visits the agent at most once more than its weight. */
  lemma CyclesAndRest(rotation: Rotation, start: nat, n: nat, agent: string)
    ensures var cycle, w := |rotation|, Weight(rotation, agent);
            && n / cycle * w <= Visits(rotation, start, n, agent) <= n / cycle * w + w
            && (n % cycle == 0 ==> Visits(rotation, start, n, agent) == n / cycle * w)
  {
    var cycle := |rotation|;
    var q, r := n / cycle, n % cycle;
    assert n == q * cycle + r;
    FullCycles(rotation, start, q, agent);
    VisitsSplit(rotation, start, q * cycle, r, agent);
    var tail := start + q * cycle;
    FullCycle(rotation, tail, agent);
    VisitsSplit(rotation, tail, r, cycle - r, agent);
  }

  lemma RoundedUp(n: nat, m: nat)
    requires m > 0
    ensures (n + m - 1) / m == n / m + (if n % m == 0 then 0 else 1)
  {
    var q, r := n / m, n % m;
    assert n == q * m + r;
    if r == 0 {
      DivisionIsUnique(n + m - 1, m, q, m - 1);
    } else {
      assert n + m - 1 == (q + 1) * m + (r - 1);
      DivisionIsUnique(n + m - 1, m, q + 1, r - 1);
    }
  }

  /** Any n consecutive slots visit an agent between floor(n/L) and ceil(n/L) times its weight. */
  lemma Fairness(rotation: Rotation, start: nat, n: nat, agent: string)
    ensures n / |rotation| * Weight(rotation, agent) <= Visits(rotation, start, n, agent)
    ensures Visits(rotation, start, n, agent) <= (n + |rotation| - 1) / |rotation| * Weight(rotation, agent)
  {
    var cycle, w, v := |rotation|, Weight(rotation, agent), Visits(rotation, start, n, agent);
    var q, up := n / cycle, (n + cycle - 1) / cycle;
    CyclesAndRest(rotation, start, n, agent);
    assert up == q + 1 || (up == q && v == q * w) by {
      RoundedUp(n, cycle);
    }
    UpToMultiple(q, up, w, v);
  }

  lemma UpToMultiple(q: nat, up: nat, w: nat, v: nat)
    requires v <= q * w + w && (up == q + 1 || (up == q && v == q * w))
    ensures v <= up * w
  {
    assert (q + 1) * w == q * w + w;
  }

  // ---------------------------------------------------------------- the saved position

  /** The position a starting sequencer takes from its state file: 0 unless it holds a number. */
  function Resumed(file: Option<string>): nat {
    if file.Some? && file.value != "" && IsNumeral(file.value, 10) then Parse(file.value, 10) else 0
  }

  /** The start: 0 without a file, with an empty one or one that holds anything but digits; otherwise the number. */
  lemma ResumedExactly(text: string, n: nat, width: nat)
    ensures Resumed(None) == 0 && Resumed(Some("")) == 0
    ensures !IsNumeral(text, 10) ==> Resumed(Some(text)) == 0
    ensures Resumed(Some(ZeroPad(Print(n, 10), width))) == n
  {
    PrintThenParse(n, 10);
    ZeroPadKeepsValue(Print(n, 10), width, 10);
  }

  /**
   One slot as it happens: the rotation read for it (the configuration may be edited between slots), is the
   agent's session alive, and does the sequencer die before saving?
   */
  datatype Slot = Slot(rotation: Rotation, alive: bool, crashes: bool)

  /** The positions visited by a sequencer that is restarted after every crash. */
  function Positions(start: nat, slots: seq<Slot>): (p: seq<nat>)
    ensures |p| == |slots|
    decreases |slots|
  {
    if slots == [] then []
    else [start] + Positions(if slots[0].crashes then start else start + 1, slots[1..])
  }

  function Crashes(slots: seq<Slot>): nat {
    if slots == [] then 0 else (if slots[0].crashes then 1 else 0) + Crashes(slots[1..])
  }

  /** The positions whose slot was carried through, in order. */
  function Completed(start: nat, slots: seq<Slot>): seq<nat>
    decreases |slots|
  {
    if slots == [] then []
    else if slots[0].crashes then Completed(start, slots[1..])
    else [start] + Completed(start + 1, slots[1..])
  }

  /**
   A crash repeats the current slot and nothing else: positions advance by one after a completed slot,
   stay after a crash, and so never skip one.
   */
  lemma {:induction false} NeverSkips(start: nat, slots: seq<Slot>)
    ensures slots != [] ==> Positions(start, slots)[0] == start
    ensures forall i {:trigger slots[i]} | 0 <= i < |slots| - 1 ::
              Positions(start, slots)[i + 1] == Positions(start, slots)[i] + (if slots[i].crashes then 0 else 1)
    decreases |slots|
  {
    if slots != [] {
      var next := if slots[0].crashes then start else start + 1;
      NeverSkips(next, slots[1..]);
      forall i {:trigger slots[i]} | 0 <= i < |slots| - 1
        ensures Positions(start, slots)[i + 1] == Positions(start, slots)[i] + (if slots[i].crashes then 0 else 1)
      {
        if i > 0 {
          assert slots[1..][i - 1] == slots[i];
        }
      }
    }
  }

  /** The completed positions are exactly the consecutive ones, however many crashes fell in between. */
  lemma {:induction false} CompletedAreConsecutive(start: nat, slots: seq<Slot>)
    ensures |Completed(start, slots)| + Crashes(slots) == |slots|
    ensures forall i | 0 <= i < |Completed(start, slots)| :: Completed(start, slots)[i] == start + i
    decreases |slots|
  {
    if slots != [] {
      CompletedAreConsecutive(if slots[0].crashes then start else start + 1, slots[1..]);
    }
  }

  /** The agents whose session was alive in its slot, with the slot's position, in order. */
  function Dispatches(start: nat, slots: seq<Slot>): seq<(nat, string)>
    decreases |slots|
  {
    if slots == [] then []
    else (if slots[0].alive then [(start, AgentAt(slots[0].rotation, start))] else [])
         + Dispatches(if slots[0].crashes then start else start + 1, slots[1..])
  }

  /** How many of the completed slots were the agent's, alive or not. */
  function Served(start: nat, slots: seq<Slot>, agent: string): nat
    decreases |slots|
  {
    if slots == [] then 0
    else if slots[0].crashes then Served(start, slots[1..], agent)
    else (if AgentAt(slots[0].rotation, start) == agent then 1 else 0) + Served(start + 1, slots[1..], agent)
  }

  /** One more slot dispatches its agent, at the position reached, exactly if the session is alive. */
  lemma {:induction false} DispatchesSnoc(start: nat, slots: seq<Slot>, slot: Slot)
    ensures var at := start + |Completed(start, slots)|;
            Dispatches(start, slots + [slot])
              == Dispatches(start, slots) + (if slot.alive then [(at, AgentAt(slot.rotation, at))] else [])
    decreases |slots|
  {
    if slots == [] {
      assert slots + [slot] == [slot] && [slot][1..] == [];
    } else {
      assert (slots + [slot])[1..] == slots[1..] + [slot];
      DispatchesSnoc(if slots[0].crashes then start else start + 1, slots[1..], slot);
    }
  }

  lemma {:induction false} ServedIsVisits(rotation: Rotation, start: nat, slots: seq<Slot>, agent: string)
    requires forall i | 0 <= i < |slots| :: slots[i].rotation == rotation
    ensures Served(start, slots, agent) == Visits(rotation, start, |Completed(start, slots)|, agent)
    decreases |slots|
  {
    if slots != [] {
      if slots[0].crashes {
        ServedIsVisits(rotation, start, slots[1..], agent);
      } else {
        ServedIsVisits(rotation, start + 1, slots[1..], agent);
        VisitsSplit(rotation, start, 1, |Completed(start + 1, slots[1..])|, agent);
        assert Visits(rotation, start, 0, agent) == 0;
      }
    }
  }

  /** Between edits of the rotation, fairness survives crashes and dead agents: it holds of the completed slots. */
  lemma FairAcrossRestarts(rotation: Rotation, file: Option<string>, slots: seq<Slot>, agent: string)
    requires forall i | 0 <= i < |slots| :: slots[i].rotation == rotation
    ensures var n := |slots| - Crashes(slots);
            n / |rotation| * Weight(rotation, agent)
              <= Served(Resumed(file), slots, agent)
              <= (n + |rotation| - 1) / |rotation| * Weight(rotation, agent)
  {
    var start := Resumed(file);
    CompletedAreConsecutive(start, slots);
    ServedIsVisits(rotation, start, slots, agent);
    Fairness(rotation, start, |Completed(start, slots)|, agent);
  }

  // ---------------------------------------------------------------- the program

  class Sequencer {
    var index: nat
    var file: Option<string>
    var visited: seq<nat>
    var dispatched: seq<(nat, string)>

    /** What the file says and what the sequencer would resume from agree with its index. */
    ghost predicate Valid()
      reads this
    {
      Resumed(file) == index
    }

    constructor (file: Option<string>)
      ensures Valid() && this.file == file && visited == [] && dispatched == []
      ensures index == Resumed(file)
    {
      this.index := 0;
      this.file := file;
      visited, dispatched := [], [];
      new;
      Resume();
    }

    /** Start-up: read the saved index. */
    method Resume()
      modifies this`index
      ensures Valid()
    {
      index := 0;
      if file.Some? {
        var saved := file.value;
        if saved != "" && IsNumeral(saved, 10) {
          index := Parse(saved, 10);
        }
      }
    }

    /** INDEX=$((INDEX + 1)) and the write of the state file. */
    method Advance()
      requires Valid()
      modifies this`index, this`file
      ensures Valid() && index == old(index) + 1 && file == Some(Print(index, 10))
    {
      index := index + 1;
      file := Some(Print(index, 10));
      PrintThenParse(index, 10);
    }

    /** One pass of the main loop; after a crash the next pass starts from the file again. */
    method Visit(slot: Slot)
      requires Valid()
      modifies this
      ensures Valid()
      ensures visited == old(visited) + [old(index)]
      ensures index == old(index) + (if slot.crashes then 0 else 1)
      ensures dispatched == old(dispatched) + (if slot.alive then [(old(index), AgentAt(slot.rotation, old(index)))] else [])
    {
      visited := visited + [index];
      if slot.alive {
        dispatched := dispatched + [(index, AgentAt(slot.rotation, index))];
      }
      if slot.crashes {
        Resume();
      } else {
        Advance();
      }
    }

    /** The main loop over any sequence of slots. */
    method Serve(slots: seq<Slot>)
      requires Valid()
      modifies this
      ensures Valid()
      ensures visited == old(visited) + Positions(old(index), slots)
      ensures dispatched == old(dispatched) + Dispatches(old(index), slots)
      ensures index == old(index) + |Completed(old(index), slots)|
    {
      var i := 0;
      while i < |slots|
        invariant 0 <= i <= |slots| && Valid()
        invariant visited + Positions(index, slots[i..]) == old(visited) + Positions(old(index), slots)
        invariant dispatched + Dispatches(index, slots[i..]) == old(dispatched) + Dispatches(old(index), slots)
        invariant index + |Completed(index, slots[i..])| == old(index) + |Completed(old(index), slots)|
      {
        assert slots[i..] == [slots[i]] + slots[i + 1..];
        Visit(slots[i]);
        i := i + 1;
      }
    }
  }
}

/**
 The extension-id pipeline: the id is printed as 64 hexadecimal digits, written to extension.env, read
 back, judged by the register checks R1 to R7 and found again by the contract's scan.
 */
module RegistrationChecks {
  import opened EnvFile
  import opened ExtensionRegistry
  import opened Numerals
  import opened Options
  import opened Report
  import opened Text

  // ---------------------------------------------------------------- printing ids

  /** register-extension prints the id with `0x%064x`. */
  function PrintId(id: nat): string {
    "0x" + ZeroPad(Print(id, 16), 64)
  }

  function ParseHex(s: string): nat
    requires IsExtensionId(s) || IsAddress(s)
  {
    Parse(s[2..], 16)
  }

  lemma {:induction false} PowersOf16()
    ensures Power(16, 40) == UINT160_LIMIT && Power(16, 64) == UINT256_LIMIT
  {
    assert Power(16, 8) == 0x1_0000_0000 by {
      assert Power(16, 4) == 0x10000;
      PowerSum(4, 4);
    }
    assert Power(16, 32) == 0x1_0000_0000 * 0x1_0000_0000 * 0x1_0000_0000 * 0x1_0000_0000 by {
      PowerSum(8, 8);
      PowerSum(16, 16);
    }
    PowerSum(32, 8);
    PowerSum(32, 32);
  }

  lemma {:induction false} PowerSum(m: nat, n: nat)
    ensures Power(16, m + n) == Power(16, m) * Power(16, n)
  {
    if n > 0 {
      PowerSum(m, n - 1);
      assert Power(16, m + n) == 16 * Power(16, m + (n - 1));
      Sixteenfold(Power(16, m), Power(16, n - 1));
    }
  }

  lemma Sixteenfold(p: nat, q: nat)
    ensures 16 * (p * q) == p * (16 * q)
  {
  }

  /** The printed id matches the extension-id pattern exactly for 256-bit ids, and then denotes the id. */
  lemma PrintIdExactly(id: nat)
    ensures IsExtensionId(PrintId(id)) <==> id < UINT256_LIMIT
    ensures IsExtensionId(PrintId(id)) ==> ParseHex(PrintId(id)) == id
  {
    PowersOf16();
    PrintLength(id, 16, 64);
    ZeroPadKeepsValue(Print(id, 16), 64, 16);
    PrintThenParse(id, 16);
    assert PrintId(id)[2..] == ZeroPad(Print(id, 16), 64);
    assert PrintId(id)[..2] == "0x";
  }

  /** Conversely every text of the pattern is the print of the id it denotes, up to letter case. */
  lemma PatternIsPrint(s: string)
    requires IsExtensionId(s)
    ensures ParseHex(s) < UINT256_LIMIT && PrintId(ParseHex(s)) == s[..2] + LowerAll(s[2..])
  {
    PowersOf16();
    ParseBound(s[2..], 16);
    PadThenPrint(s[2..], 16);
  }

  // ---------------------------------------------------------------- the register checks

  /** Which of the registry queries succeed; R7 skips the ids whose query fails. */
  datatype Queries = Queries(counter: bool, sender: bool, owner: bool, key: bool, failedIds: set<nat>)

  datatype Finding = Finding(id: string, status: Status)

  const INT64_LIMIT: nat := 0x8000_0000_0000_0000

  /** big.Int.Int64 keeps the low 64 bits, read as a signed number. */
  function Int64(n: nat): int {
    var low := n % (2 * INT64_LIMIT);
    if low >= INT64_LIMIT then low - 2 * INT64_LIMIT else low
  }

  function AddressOf(s: string): Address
    requires IsAddress(s)
  {
    PowersOf16();
    ParseBound(s[2..], 16);
    ParseHex(s)
  }

  /** An address is read as the number it denotes, zero-padded to 40 digits. */
  lemma AddressExactly(a: Address)
    ensures var s := "0x" + ZeroPad(Print(a, 16), 40); IsAddress(s) && AddressOf(s) == a
  {
    var s := "0x" + ZeroPad(Print(a, 16), 40);
    PowersOf16();
    PrintLength(a, 16, 40);
    ZeroPadKeepsValue(Print(a, 16), 40, 16);
    PrintThenParse(a, 16);
    assert s[2..] == ZeroPad(Print(a, 16), 40) && s[..2] == "0x";
  }

  /** The ids below the bound that R7 finds to use the sender. */
  function Matching(c: Chain, sender: Address, bound: int, failed: set<nat>): seq<nat> {
    if bound <= 0 then []
    else Matching(c, sender, bound - 1, failed)
         + (if bound - 1 !in failed && SenderOf(c, bound - 1) == sender then [bound - 1] else [])
  }

  function R1(c: Chain, q: Queries): Finding {
    Finding("R1", if !q.counter then Fail else if c.next == 0 then Warn else Pass)
  }

  function R2(c: Chain, q: Queries, id: nat, sender: string): seq<Finding> {
    if !IsAddress(sender) then []
    else [Finding("R2", if q.sender && SenderOf(c, id) == AddressOf(sender) then Pass else Fail)]
  }

  function R3(c: Chain, q: Queries, id: nat, deployer: Address): Finding {
    Finding("R3", if q.owner && (id, deployer) in c.machineOwners then Pass else Fail)
  }

  function R4(c: Chain, q: Queries, id: nat): Finding {
    Finding("R4", if q.key && (id, EVM_TYPE) in c.keyTypes then Pass else Fail)
  }

  function R7(c: Chain, q: Queries, sender: string): seq<Finding> {
    if !q.counter || c.next == 0 || !IsAddress(sender) then []
    else [Finding("R7", if |Matching(c, AddressOf(sender), Int64(c.next), q.failedIds)| > 1 then Warn else Pass)]
  }

  /** The findings for the two values read from the file. */
  function Findings(c: Chain, q: Queries, deployer: Address, idText: string, sender: string): seq<Finding> {
    if idText == "" && sender == "" then [Finding("R1-R7", Skip)]
    else if !IsExtensionId(idText) then [R1(c, q), Finding("R2", Fail)]
    else
      var id := ParseHex(idText);
      [R1(c, q)] + R2(c, q, id, sender) + [R3(c, q, id, deployer), R4(c, q, id)] + R7(c, q, sender)
  }

  function FileFindings(c: Chain, q: Queries, deployer: Address, file: Option<string>): seq<Finding> {
    if file.None? then Findings(c, q, deployer, "", "")
    else Findings(c, q, deployer, LastValue(Lines(file.value), EXTENSION_ID).GetOr(""),
                  LastValue(Lines(file.value), INSTRUCTION_SENDER).GetOr(""))
  }

  predicate NoFailure(findings: seq<Finding>) {
    forall f | f in findings :: f.status != Fail
  }

  /** R7's scan for other uses of the sender. */
  method CheckR7(c: Chain, q: Queries, sender: string) returns (report: seq<Finding>)
    ensures report == R7(c, q, sender)
  {
    if !q.counter || c.next == 0 || !IsAddress(sender) {
      return [];
    }
    var expected := AddressOf(sender);
    var matching: seq<nat> := [];
    var i := 0;
    while i < Int64(c.next)
      invariant 0 <= i && (i <= Int64(c.next) || i == 0)
      invariant matching == Matching(c, expected, i, q.failedIds)
    {
      if i !in q.failedIds && SenderOf(c, i) == expected {
        matching := matching + [i];
      }
      i := i + 1;
    }
    report := [Finding("R7", if |matching| > 1 then Warn else Pass)];
  }

  /** R2 to R4 on an id of the right format. */
  method CheckId(c: Chain, q: Queries, deployer: Address, id: nat, sender: string) returns (report: seq<Finding>)
    ensures report == R2(c, q, id, sender) + [R3(c, q, id, deployer), R4(c, q, id)]
  {
    report := [];
    if IsAddress(sender) {
      var matches := q.sender && SenderOf(c, id) == AddressOf(sender);
      report := report + [Finding("R2", if matches then Pass else Fail)];
    }
    var owner := q.owner && (id, deployer) in c.machineOwners;
    report := report + [Finding("R3", if owner then Pass else Fail)];
    var supported := q.key && (id, EVM_TYPE) in c.keyTypes;
    report := report + [Finding("R4", if supported then Pass else Fail)];
  }

  /** RegisterRegistrationChecks on a given config path. */
  method RegisterRegistrationChecks(c: Chain, q: Queries, deployer: Address, file: Option<string>)
    returns (report: seq<Finding>)
    ensures report == FileFindings(c, q, deployer, file)
  {
    var idText, sender := ParseBoth(file);
    report := CheckValues(c, q, deployer, idText, sender);
  }

  method CheckValues(c: Chain, q: Queries, deployer: Address, idText: string, sender: string)
    returns (report: seq<Finding>)
    ensures report == Findings(c, q, deployer, idText, sender)
  {
    if idText == "" && sender == "" {
      return [Finding("R1-R7", Skip)];
    }
    var first := Finding("R1", if !q.counter then Fail else if c.next == 0 then Warn else Pass);
    if !IsExtensionId(idText) {
      return [first, Finding("R2", Fail)];
    }
    var middle := CheckId(c, q, deployer, ParseHex(idText), sender);
    var last := CheckR7(c, q, sender);
    report := [first] + middle + last;
    var id := ParseHex(idText);
    assert [first] + (R2(c, q, id, sender) + [R3(c, q, id, deployer), R4(c, q, id)])
        == [first] + R2(c, q, id, sender) + [R3(c, q, id, deployer), R4(c, q, id)];
  }

  // ---------------------------------------------------------------- the pieces agree

  /** What the two values and the registry must meet for the checks to find no failure. */
  predicate NothingWrong(c: Chain, q: Queries, deployer: Address, idText: string, sender: string) {
    && q.counter && IsExtensionId(idText)
    && (IsAddress(sender) ==> q.sender && SenderOf(c, ParseHex(idText)) == AddressOf(sender))
    && q.owner && (ParseHex(idText), deployer) in c.machineOwners
    && q.key && (ParseHex(idText), EVM_TYPE) in c.keyTypes
  }

  /** For any two values: no check fails exactly if both are missing, or nothing is wrong with them. */
  lemma FailsExactly(c: Chain, q: Queries, deployer: Address, idText: string, sender: string)
    ensures NoFailure(Findings(c, q, deployer, idText, sender))
            <==> (idText == "" && sender == "") || NothingWrong(c, q, deployer, idText, sender)
  {
    var findings := Findings(c, q, deployer, idText, sender);
    if idText == "" && sender == "" {
    } else if !IsExtensionId(idText) {
      assert findings[1] == Finding("R2", Fail);
    } else {
      var id := ParseHex(idText);
      var r2 := R2(c, q, id, sender);
      assert findings == [R1(c, q)] + r2 + [R3(c, q, id, deployer), R4(c, q, id)] + R7(c, q, sender);
      assert findings[0] == R1(c, q) && findings[1 + |r2|] == R3(c, q, id, deployer) && findings[2 + |r2|] == R4(c, q, id);
      assert IsAddress(sender) ==> findings[1] == r2[0];
      assert forall f | f in findings :: f == R1(c, q) || f in r2 || f == R3(c, q, id, deployer) || f == R4(c, q, id) || f in R7(c, q, sender);
    }
  }

  /** R1 warns exactly of an empty registry; R7 exactly of two ids below its bound, both read, with the sender. */
  lemma WarnsExactly(c: Chain, q: Queries, sender: string)
    ensures R1(c, q).status == Warn <==> q.counter && c.next == 0
    ensures (exists f | f in R7(c, q, sender) :: f.status != Pass)
            <==> && q.counter && c.next != 0 && IsAddress(sender)
                 && exists i: nat, j: nat :: i < j < Int64(c.next) && Uses(c, AddressOf(sender), q.failedIds, i) && Uses(c, AddressOf(sender), q.failedIds, j)
    ensures forall f | f in R7(c, q, sender) :: f.status in {Pass, Warn}
  {
    if IsAddress(sender) {
      TwoMatchExactly(c, AddressOf(sender), Int64(c.next), q.failedIds);
    }
  }

  /** The query for the id succeeds and names the sender. */
  predicate Uses(c: Chain, sender: Address, failed: set<nat>, i: nat) {
    i !in failed && SenderOf(c, i) == sender
  }

  lemma {:induction false} OneMatchesExactly(c: Chain, sender: Address, bound: int, failed: set<nat>)
    ensures |Matching(c, sender, bound, failed)| > 0 <==> exists i: nat :: i < bound && Uses(c, sender, failed, i)
  {
    if bound > 0 {
      OneMatchesExactly(c, sender, bound - 1, failed);
      assert Uses(c, sender, failed, bound - 1) ==> exists i: nat :: i < bound && Uses(c, sender, failed, i);
    }
  }

  lemma {:induction false} TwoMatchExactly(c: Chain, sender: Address, bound: int, failed: set<nat>)
    ensures |Matching(c, sender, bound, failed)| > 1
            <==> exists i: nat, j: nat :: i < j < bound && Uses(c, sender, failed, i) && Uses(c, sender, failed, j)
  {
    if bound > 0 {
      TwoMatchExactly(c, sender, bound - 1, failed);
      OneMatchesExactly(c, sender, bound - 1, failed);
      if Uses(c, sender, failed, bound - 1) && exists i: nat :: i < bound - 1 && Uses(c, sender, failed, i) {
        var i: nat :| i < bound - 1 && Uses(c, sender, failed, i);
        assert i < bound - 1 < bound && Uses(c, sender, failed, bound - 1);
      }
    }
  }

  /**
   Pipeline agreement. After a successful setup with the sender pre-build captured, and on any later
   state of the registry, the checks on the file pre-build writes produce no FAIL exactly when the four
   queries they depend on succeed.
   */
  lemma PipelineAgrees(before: Chain, now: Chain, q: Queries, deployer: Address, sender: string)
    requires ValidChain(before) && IsAddress(sender)
    requires Extends(SetUp(before, AddressOf(sender), deployer), now)
    ensures NoFailure(FileFindings(now, q, deployer, Some(PreBuildFile(PrintId(before.next), sender))))
            <==> q.counter && q.sender && q.owner && q.key
  {
    var id := before.next;
    var after := SetUp(before, AddressOf(sender), deployer);
    PrintIdExactly(id);
    PreBuildParsesBack(PrintId(id), sender);
    assert SenderOf(after, id) == AddressOf(sender);
    assert (id, deployer) in after.machineOwners && (id, EVM_TYPE) in after.keyTypes;
    FailsExactly(now, q, deployer, PrintId(id), sender);
  }

  lemma {:induction false} MatchingHasAll(c: Chain, sender: Address, bound: int, i: nat, j: nat)
    requires i < j < bound && SenderOf(c, i) == sender && SenderOf(c, j) == sender
    ensures |Matching(c, sender, bound, {})| > 1
    decreases bound
  {
    if j < bound - 1 {
      MatchingHasAll(c, sender, bound - 1, i, j);
    } else {
      MatchingHasOne(c, sender, j, i);
    }
  }

  lemma {:induction false} MatchingHasOne(c: Chain, sender: Address, bound: int, i: nat)
    requires i < bound && SenderOf(c, i) == sender
    ensures |Matching(c, sender, bound, {})| > 0
    decreases bound
  {
    if i < bound - 1 {
      MatchingHasOne(c, sender, bound - 1, i);
    }
  }

  lemma PassedR2(c: Chain, q: Queries, deployer: Address, idText: string, sender: string)
    requires IsExtensionId(idText) && IsAddress(sender)
    requires Finding("R2", Pass) in Findings(c, q, deployer, idText, sender)
    ensures SenderOf(c, ParseHex(idText)) == AddressOf(sender)
  {
    assert "R1" != "R2" && "R3" != "R2" && "R4" != "R2" && "R7" != "R2";
  }

  /**
   When R2 and R7 pass with no query errors and the id is public and below the bound of R7's loop (the
   counter as a signed 64-bit number), the contract's scan finds that id and no other.
   */
  lemma ScanFindsCheckedId(c: Chain, q: Queries, deployer: Address, idText: string, sender: string)
    requires IsExtensionId(idText) && IsAddress(sender) && q.failedIds == {}
    requires FIRST_PUBLIC_EXTENSION_ID <= ParseHex(idText) < Int64(c.next)
    requires Finding("R2", Pass) in Findings(c, q, deployer, idText, sender)
    requires Finding("R7", Pass) in Findings(c, q, deployer, idText, sender)
    ensures LeastId(c, AddressOf(sender)) == Some(ParseHex(idText))
  {
    var id := ParseHex(idText);
    var address := AddressOf(sender);
    PassedR2(c, q, deployer, idText, sender);
    assert "R1" != "R7" && "R2" != "R7" && "R3" != "R7" && "R4" != "R7";
    assert Int64(c.next) <= c.next;
    assert |Matching(c, address, Int64(c.next), {})| <= 1;
    var least := LeastId(c, address);
    if least.Some? && least.value < id {
      MatchingHasAll(c, address, Int64(c.next), least.value, id);
      assert false;
    }
  }

  /** R2 and R7 pass for the id and sender, and every query R7 makes succeeds. */
  predicate Checked(c: Chain, q: Queries, deployer: Address, idText: string, sender: string) {
    && q.failedIds == {}
    && Finding("R2", Pass) in Findings(c, q, deployer, idText, sender)
    && Finding("R7", Pass) in Findings(c, q, deployer, idText, sender)
  }

  /** A registry of which only the first public id and one other use the sender. */
  function TwoUses(next: nat, id: nat, sender: Address): Chain {
    Chain(next, map[FIRST_PUBLIC_EXTENSION_ID := sender, id := sender], {}, {}, {})
  }

  lemma {:induction false} NoneMatch(c: Chain, sender: Address, bound: int)
    requires forall i: nat | i < bound :: SenderOf(c, i) != sender
    ensures Matching(c, sender, bound, {}) == []
  {
    if bound > 0 {
      NoneMatch(c, sender, bound - 1);
    }
  }

  /** The first public id is the only use of the sender below the other one. */
  lemma {:induction false} OneMatch(next: nat, id: nat, sender: Address, bound: int)
    requires FIRST_PUBLIC_EXTENSION_ID < id && bound <= id && sender != ZERO_ADDRESS
    ensures |Matching(TwoUses(next, id, sender), sender, bound, {})| <= 1
  {
    var c := TwoUses(next, id, sender);
    if bound > FIRST_PUBLIC_EXTENSION_ID + 1 {
      OneMatch(next, id, sender, bound - 1);
    } else if bound > 0 {
      NoneMatch(c, sender, bound - 1);
    }
  }

  /** An id at or beyond the bound of R7's loop can be a duplicate that R7 does not see. */
  lemma HiddenDuplicate(next: nat, id: nat, idText: string, sender: string)
    requires IsExtensionId(idText) && ParseHex(idText) == id && IsAddress(sender) && AddressOf(sender) != ZERO_ADDRESS
    requires FIRST_PUBLIC_EXTENSION_ID < id < next < UINT256_LIMIT && Int64(next) <= id
    ensures var c := TwoUses(next, id, AddressOf(sender));
            && ValidChain(c) && c.next == next
            && Checked(c, Queries(true, true, true, true, {}), 0, idText, sender)
            && LeastId(c, AddressOf(sender)) == Some(FIRST_PUBLIC_EXTENSION_ID)
  {
    var address := AddressOf(sender);
    var c := TwoUses(next, id, address);
    var q := Queries(true, true, true, true, {});
    OneMatch(next, id, address, Int64(next));
    var findings := Findings(c, q, 0, idText, sender);
    assert SenderOf(c, id) == address;
    assert R2(c, q, id, sender) == [Finding("R2", Pass)];
    assert R7(c, q, sender) == [Finding("R7", Pass)];
    assert findings[1] == Finding("R2", Pass) && findings[4] == Finding("R7", Pass);
  }

  /** On every registry with this counter on which R2 and R7 pass, the scan finds the checked id. */
  ghost predicate ScanAgrees(next: nat, idText: string, sender: string)
    requires IsExtensionId(idText) && IsAddress(sender)
  {
    forall c, q, deployer :: ValidChain(c) && c.next == next && Checked(c, q, deployer, idText, sender) ==>
      LeastId(c, AddressOf(sender)) == Some(ParseHex(idText))
  }

  lemma AgreesBelowBound(next: nat, idText: string, sender: string)
    requires IsExtensionId(idText) && IsAddress(sender)
    requires FIRST_PUBLIC_EXTENSION_ID <= ParseHex(idText) < next
    requires ParseHex(idText) < Int64(next) || ParseHex(idText) == FIRST_PUBLIC_EXTENSION_ID
    ensures ScanAgrees(next, idText, sender)
  {
    forall c, q, deployer | ValidChain(c) && c.next == next && Checked(c, q, deployer, idText, sender)
      ensures LeastId(c, AddressOf(sender)) == Some(ParseHex(idText))
    {
      if ParseHex(idText) < Int64(next) {
        ScanFindsCheckedId(c, q, deployer, idText, sender);
      } else {
        PassedR2(c, q, deployer, idText, sender);
      }
    }
  }

  lemma DisagreesBeyondBound(next: nat, idText: string, sender: string)
    requires IsExtensionId(idText) && IsAddress(sender) && AddressOf(sender) != ZERO_ADDRESS
    requires FIRST_PUBLIC_EXTENSION_ID < ParseHex(idText) < next < UINT256_LIMIT && Int64(next) <= ParseHex(idText)
    ensures !ScanAgrees(next, idText, sender)
  {
    var id := ParseHex(idText);
    HiddenDuplicate(next, id, idText, sender);
    var c := TwoUses(next, id, AddressOf(sender));
    assert Checked(c, Queries(true, true, true, true, {}), 0, idText, sender);
  }

  /**
   For a given counter and public id, R2 and R7 guarantee that the contract's scan finds that id exactly when
   the id is below the bound of R7's loop, or is the first public one. The bound is the counter as a signed
   64-bit number, so it covers every id as long as the counter is below 2^63. (No contract has address zero.)
   */
  lemma ScanAgreesExactly(next: nat, idText: string, sender: string)
    requires IsExtensionId(idText) && IsAddress(sender) && AddressOf(sender) != ZERO_ADDRESS
    requires FIRST_PUBLIC_EXTENSION_ID <= ParseHex(idText) < next < UINT256_LIMIT
    ensures ScanAgrees(next, idText, sender)
            <==> ParseHex(idText) < Int64(next) || ParseHex(idText) == FIRST_PUBLIC_EXTENSION_ID
    ensures next < 0x8000_0000_0000_0000 ==> Int64(next) == next
    ensures 0x8000_0000_0000_0000 <= next <= 0x1_0000_0000_0000_0000 ==> Int64(next) <= 0
  {
    if ParseHex(idText) < Int64(next) || ParseHex(idText) == FIRST_PUBLIC_EXTENSION_ID {
      AgreesBelowBound(next, idText, sender);
    } else {
      DisagreesBeyondBound(next, idText, sender);
    }
  }
}

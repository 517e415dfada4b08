/**
 config/extension.env: the file pre-build writes, the two parsers that read it back (one into a map,
 one into two variables), and the verdicts four checks draw from it.
 */
module EnvFile {
  import opened Numerals
  import opened Options
  import opened Report
  import opened Text

  const EXTENSION_ID := "EXTENSION_ID"
  const INSTRUCTION_SENDER := "INSTRUCTION_SENDER"

  /** `0x` and exactly n hexadecimal digits, in either case. */
  predicate IsHexOf(s: string, n: nat) {
    |s| == n + 2 && s[..2] == "0x" && IsNumeral(s[2..], 16)
  }

  predicate IsExtensionId(s: string) {
    IsHexOf(s, 64)
  }

  predicate IsAddress(s: string) {
    IsHexOf(s, 40)
  }

  // ---------------------------------------------------------------- what a file assigns

  /** The assignment a line makes: first `=`, both sides trimmed; blank lines, comments and others make none. */
  function Assignment(line: string): Option<(string, string)> {
    var t := Trim(line);
    if t == "" || t[0] == '#' then None
    else
      var i := IndexOf(t, '=');
      if i == |t| then None else Some((Trim(t[..i]), Trim(t[i + 1..])))
  }

  predicate Assigns(line: string, key: string) {
    Assignment(line).Some? && Assignment(line).value.0 == key
  }

  /** The value a key ends up with: the last assignment wins. */
  function LastValue(lines: seq<string>, key: string): (v: Option<string>)
    ensures v.Some? <==> exists i :: 0 <= i < |lines| && Assigns(lines[i], key)
  {
    if lines == [] then None
    else
      var last := lines[|lines| - 1];
      if Assigns(last, key) then Some(Assignment(last).value.1) else LastValue(lines[..|lines| - 1], key)
  }

  lemma {:induction false} LastAssignmentWins(lines: seq<string>, key: string, i: nat)
    requires i < |lines| && Assigns(lines[i], key)
    requires forall j | i < j < |lines| :: !Assigns(lines[j], key)
    ensures LastValue(lines, key) == Some(Assignment(lines[i]).value.1)
  {
    if i < |lines| - 1 {
      LastAssignmentWins(lines[..|lines| - 1], key, i);
    }
  }

  lemma LastValueSnoc(lines: seq<string>, n: nat, key: string)
    requires n < |lines|
    ensures LastValue(lines[..n + 1], key)
         == if Assigns(lines[n], key) then Some(Assignment(lines[n]).value.1) else LastValue(lines[..n], key)
  {
    assert lines[..n + 1][..n] == lines[..n];
  }

  function Lookup(vars: map<string, string>, key: string): Option<string> {
    if key in vars then Some(vars[key]) else None
  }

  /** The map holds exactly the keys the lines assign, each with its last value. */
  ghost predicate Reflects(vars: map<string, string>, lines: seq<string>) {
    forall key :: LastValue(lines, key) == Lookup(vars, key)
  }

  lemma ReflectsSnoc(vars: map<string, string>, lines: seq<string>, n: nat)
    requires n < |lines| && Reflects(vars, lines[..n])
    ensures var a := Assignment(lines[n]);
            Reflects(if a.Some? then vars[a.value.0 := a.value.1] else vars, lines[..n + 1])
  {
    var a := Assignment(lines[n]);
    var next := if a.Some? then vars[a.value.0 := a.value.1] else vars;
    forall key ensures LastValue(lines[..n + 1], key) == Lookup(next, key) {
      LastValueSnoc(lines, n, key);
      assert LastValue(lines[..n], key) == Lookup(vars, key);
    }
  }

  predicate IsTrimmed(s: string) {
    s == "" || (!IsSpace(s[0]) && !IsSpace(s[|s| - 1]))
  }

  /** White space around key, value and line does not matter; the first `=` separates; the value may hold others. */
  lemma SpacedAssignment(a: string, key: string, b: string, c: string, value: string, d: string)
    requires Blank(IsSpace, a) && Blank(IsSpace, b) && Blank(IsSpace, c) && Blank(IsSpace, d)
    requires key != "" && key[0] != '#' && '=' !in key && IsTrimmed(key) && IsTrimmed(value)
    ensures Assignment(a + key + b + "=" + c + value + d) == Some((key, value))
  {
    GroupKey(a, key, b, "=", c, value, d);
    TrimAround(IsSpace, "", key, b);
    assert "" + key + b == key + b;
    SpacedCore(a, key + b, c, value, d);
  }

  lemma GroupKey(a: string, key: string, b: string, equals: string, c: string, value: string, d: string)
    ensures a + key + b + equals + c + value + d == a + (key + b) + equals + c + value + d
  {
  }

  lemma SpacedCore(a: string, left: string, c: string, value: string, d: string)
    requires Blank(IsSpace, a) && Blank(IsSpace, c) && Blank(IsSpace, d) && IsTrimmed(value)
    requires left != "" && !IsSpace(left[0]) && left[0] != '#' && '=' !in left
    ensures Assignment(a + left + "=" + c + value + d) == Some((Trim(left), value))
  {
    var right, rest := if value == "" then "" else c + value, if value == "" then c + d else d;
    var core := left + "=" + right;
    SpacedLine(a, left, c, value, d);
    TrimAround(IsSpace, a, core, rest);
    TrimRight(c, value);
    CoreAssignment(a + core + rest, left, right);
  }

  lemma SpacedLine(a: string, left: string, c: string, value: string, d: string)
    requires left != "" && !IsSpace(left[0]) && IsTrimmed(value) && Blank(IsSpace, c) && Blank(IsSpace, d)
    ensures var right, rest := if value == "" then "" else c + value, if value == "" then c + d else d;
            var core := left + "=" + right;
            && a + left + "=" + c + value + d == a + core + rest && Blank(IsSpace, rest)
            && core[0] == left[0] && !IsSpace(core[0]) && !IsSpace(core[|core| - 1])
  {
    var right := if value == "" then "" else c + value;
    var core := left + "=" + right;
    assert core[|core| - 1] == (if value == "" then '=' else value[|value| - 1]);
  }

  lemma TrimRight(c: string, value: string)
    requires IsTrimmed(value) && Blank(IsSpace, c)
    ensures Trim(if value == "" then "" else c + value) == value
  {
    if value != "" {
      assert c + value + "" == c + value;
      TrimAround(IsSpace, c, value, "");
    }
  }

  lemma CoreAssignment(line: string, left: string, right: string)
    requires left != "" && left[0] != '#' && '=' !in left && Trim(line) == left + "=" + right
    ensures Assignment(line) == Some((Trim(left), Trim(right)))
  {
    var core := left + "=" + right;
    assert core == left + ['='] + right;
    IndexAfter(left, '=', right);
    assert core[..|left|] == left && core[|left| + 1..] == right && core[0] == left[0];
  }

  /** A line makes no assignment exactly if it is blank, a comment, or without `=`. */
  lemma NoAssignmentExactly(line: string, core: string)
    requires Surrounds(IsSpace, line, core)
    ensures Assignment(line).None? <==> core == "" || core[0] == '#' || '=' !in core
  {
    TrimExactly(IsSpace, line, core);
    var i := IndexOf(core, '=');
    assert i == |core| ==> core[..i] == core;
  }

  // ---------------------------------------------------------------- the two parsers

  /** The parser of CheckExtensionEnvFormat. */
  method ParseAll(file: string) returns (vars: map<string, string>)
    ensures forall key :: LastValue(Lines(file), key) == Lookup(vars, key)
  {
    var lines := Lines(file);
    vars := map[];
    var n := 0;
    while n < |lines|
      invariant 0 <= n <= |lines|
      invariant Reflects(vars, lines[..n])
    {
      ReflectsSnoc(vars, lines, n);
      var line := Trim(lines[n]);
      n := n + 1;
      if line == "" || line[0] == '#' {
        continue;
      }
      var i := IndexOf(line, '=');
      if i < |line| {
        vars := vars[Trim(line[..i]) := Trim(line[i + 1..])];
      }
    }
    assert lines[..n] == lines;
  }

  /** parseExtensionEnv; a missing file yields two empty strings. */
  method ParseBoth(file: Option<string>) returns (extensionId: string, instructionSender: string)
    ensures extensionId == if file.None? then "" else LastValue(Lines(file.value), EXTENSION_ID).GetOr("")
    ensures instructionSender == if file.None? then "" else LastValue(Lines(file.value), INSTRUCTION_SENDER).GetOr("")
  {
    extensionId, instructionSender := "", "";
    if file.None? {
      return;
    }
    var lines := Lines(file.value);
    var n := 0;
    while n < |lines|
      invariant 0 <= n <= |lines|
      invariant extensionId == LastValue(lines[..n], EXTENSION_ID).GetOr("")
      invariant instructionSender == LastValue(lines[..n], INSTRUCTION_SENDER).GetOr("")
    {
      LastValueSnoc(lines, n, EXTENSION_ID);
      LastValueSnoc(lines, n, INSTRUCTION_SENDER);
      var line := Trim(lines[n]);
      n := n + 1;
      if line == "" || line[0] == '#' {
        continue;
      }
      var i := IndexOf(line, '=');
      if i == |line| {
        continue;
      }
      var key, value := Trim(line[..i]), Trim(line[i + 1..]);
      if key == EXTENSION_ID {
        extensionId := value;
      } else if key == INSTRUCTION_SENDER {
        instructionSender := value;
      }
    }
    assert lines[..n] == lines;
  }

  // ---------------------------------------------------------------- the verdicts

  /** Is the key assigned a value of its format, as the last word of the file? */
  predicate WellFormed(file: string, key: string, digits: nat) {
    var v := LastValue(Lines(file), key);
    v.Some? && IsHexOf(v.value, digits)
  }

  function Verdict(file: Option<string>, key: string, digits: nat, whenMissing: Status): Status {
    if file.None? then whenMissing
    else if WellFormed(file.value, key, digits) then Pass
    else Fail
  }

  /** D7: INSTRUCTION_SENDER and EXTENSION_ID as CheckExtensionEnvFormat judges them; Skip when there is no file. */
  method CheckD7(file: Option<string>) returns (sender: Status, id: Status)
    ensures sender == Verdict(file, INSTRUCTION_SENDER, 40, Skip)
    ensures id == Verdict(file, EXTENSION_ID, 64, Skip)
  {
    if file.None? {
      return Skip, Skip;
    }
    var vars := ParseAll(file.value);
    sender := if INSTRUCTION_SENDER !in vars then Fail
              else if !IsAddress(vars[INSTRUCTION_SENDER]) then Fail
              else Pass;
    id := if EXTENSION_ID !in vars then Fail
          else if !IsExtensionId(vars[EXTENSION_ID]) then Fail
          else Pass;
  }

  method CheckS2(file: Option<string>) returns (id: Status)
    ensures id == Verdict(file, EXTENSION_ID, 64, Fail)
  {
    var extensionId, _ := ParseBoth(file);
    id := if extensionId == "" then Fail else if !IsExtensionId(extensionId) then Fail else Pass;
  }

  method CheckV4(file: Option<string>) returns (id: Status)
    ensures id == Verdict(file, EXTENSION_ID, 64, Skip)
  {
    var extensionId, _ := ParseBoth(file);
    if extensionId == "" {
      return if file.None? then Skip else Fail;
    }
    id := if !IsExtensionId(extensionId) then Fail else Pass;
  }

  method CheckE1(file: Option<string>) returns (sender: Status)
    ensures sender == Verdict(file, INSTRUCTION_SENDER, 40, Skip)
  {
    var _, instructionSender := ParseBoth(file);
    if file.None? {
      return Skip;
    }
    sender := if instructionSender == "" then Fail else if !IsAddress(instructionSender) then Fail else Pass;
  }

  /**
   All checks on one file: D7 always agrees with V4 and with E1; D7 and S2 agree exactly when the file
   is there, because S2 alone takes a missing file for a failure.
   */
  method CheckAll(file: Option<string>) returns (d7Sender: Status, d7Id: Status, s2: Status, v4: Status, e1: Status)
    ensures d7Id == v4 && d7Sender == e1
    ensures d7Id == s2 <==> file.Some?
    ensures file.None? ==> d7Sender == d7Id == v4 == e1 == Skip && s2 == Fail
    ensures file.Some? ==> d7Sender in {Pass, Fail} && d7Id in {Pass, Fail} && s2 in {Pass, Fail}
    ensures file.Some? ==> (s2 == Pass <==> WellFormed(file.value, "EXTENSION_ID", 64))
    ensures file.Some? ==> (e1 == Pass <==> WellFormed(file.value, "INSTRUCTION_SENDER", 40))
  {
    d7Sender, d7Id := CheckD7(file);
    s2 := CheckS2(file);
    v4 := CheckV4(file);
    e1 := CheckE1(file);
  }

  // ---------------------------------------------------------------- the file pre-build writes

  const HEADER := "# Auto-generated" + " by pre-build.sh" + " \U{2014} do not edit" + " manually"

  function PreBuildFile(id: string, sender: string): string {
    HEADER + "\n" + (EXTENSION_ID + "=" + id + "\n" + (INSTRUCTION_SENDER + "=" + sender + "\n"))
  }

  /** Letters, digits, `_` and `=` only: nothing to trim, and one line. */
  predicate IsPlain(s: string) {
    s != "" && forall i | 0 <= i < |s| :: '0' <= s[i] <= 'x'
  }

  lemma PlainIsTrimmed(s: string)
    requires IsPlain(s)
    ensures Trim(s) == s && '\n' !in s && s[|s| - 1] != '\r' && s[0] != '#'
  {
    TrimKeeps(s);
  }

  lemma HexIsPlain(s: string, n: nat)
    requires IsHexOf(s, n)
    ensures IsPlain(s) && Trim(s) == s
  {
    forall i | 0 <= i < |s| ensures '0' <= s[i] <= 'x' {
      if i >= 2 {
        assert s[i] == s[2..][i - 2];
      } else {
        assert s[i] == s[..2][i];
      }
    }
    PlainIsTrimmed(s);
  }

  lemma KeyIsPlain(key: string)
    requires key == EXTENSION_ID || key == INSTRUCTION_SENDER
    ensures IsPlain(key) && '=' !in key && |key| < 100
  {
  }

  lemma PlainAssignment(key: string, value: string)
    requires IsPlain(key) && IsPlain(value) && '=' !in key
    ensures IsPlain(key + "=" + value)
    ensures Assignment(key + "=" + value) == Some((key, value))
  {
    var line := key + "=" + value;
    assert forall i | 0 <= i < |line| :: line[i] == if i < |key| then key[i] else if i == |key| then '=' else value[i - |key| - 1];
    PlainIsTrimmed(line);
    PlainIsTrimmed(key);
    PlainIsTrimmed(value);
    assert line == key + ['='] + value;
    IndexAfter(key, '=', value);
    assert line[..|key|] == key && line[|key| + 1..] == value;
  }

  /** A non-empty line the scanner delivers as it is. */
  predicate IsShortLine(line: string) {
    '\n' !in line && line != "" && line[|line| - 1] != '\r' && |line| < 1000
  }

  lemma ShortLine(line: string, rest: string)
    requires IsShortLine(line)
    ensures Lines(line + "\n" + rest) == [line] + Lines(rest)
  {
    BytesAtMost(line);
    LinesCons(line, rest);
  }

  lemma ThreeLines(header: string, first: string, second: string)
    requires IsShortLine(header) && IsShortLine(first) && IsShortLine(second)
    ensures Lines(header + "\n" + (first + "\n" + (second + "\n"))) == [header, first, second]
  {
    ShortLine(second, "");
    assert second + "\n" + "" == second + "\n";
    ShortLine(first, second + "\n");
    ShortLine(header, first + "\n" + (second + "\n"));
  }

  lemma HeaderIsComment()
    ensures IsShortLine(HEADER) && Assignment(HEADER).None?
  {
    var a, b, c, d := "# Auto-generated", " by pre-build.sh", " \U{2014} do not edit", " manually";
    assert '\n' !in a && '\n' !in b && '\n' !in c && '\n' !in d;
    assert HEADER == a + b + c + d;
    assert HEADER[0] == a[0] == '#' && HEADER[|HEADER| - 1] == d[8] == 'y';
    TrimKeeps(HEADER);
  }

  /** A comment and two plain assignments to different keys assign just those. */
  lemma TwoAssignments(header: string, k1: string, v1: string, k2: string, v2: string)
    requires IsShortLine(header) && Assignment(header).None? && k1 != k2
    requires IsPlain(k1) && IsPlain(v1) && '=' !in k1 && |k1| + |v1| < 900
    requires IsPlain(k2) && IsPlain(v2) && '=' !in k2 && |k2| + |v2| < 900
    ensures var file := header + "\n" + (k1 + "=" + v1 + "\n" + (k2 + "=" + v2 + "\n"));
            LastValue(Lines(file), k1) == Some(v1) && LastValue(Lines(file), k2) == Some(v2)
  {
    var first, second := k1 + "=" + v1, k2 + "=" + v2;
    PlainAssignment(k1, v1);
    PlainAssignment(k2, v2);
    PlainIsTrimmed(first);
    PlainIsTrimmed(second);
    ThreeLines(header, first, second);
    var lines := [header, first, second];
    LastAssignmentWins(lines, k1, 1);
    LastAssignmentWins(lines, k2, 2);
  }

  /** What pre-build writes parses back to the values it captured, so every check on the file passes. */
  lemma PreBuildParsesBack(id: string, sender: string)
    requires IsExtensionId(id) && IsAddress(sender)
    ensures LastValue(Lines(PreBuildFile(id, sender)), "EXTENSION_ID") == Some(id)
    ensures LastValue(Lines(PreBuildFile(id, sender)), "INSTRUCTION_SENDER") == Some(sender)
  {
    KeyIsPlain(EXTENSION_ID);
    KeyIsPlain(INSTRUCTION_SENDER);
    HexIsPlain(id, 64);
    HexIsPlain(sender, 40);
    HeaderIsComment();
    assert |EXTENSION_ID| != |INSTRUCTION_SENDER|;
    TwoAssignments(HEADER, EXTENSION_ID, id, INSTRUCTION_SENDER, sender);
  }
}

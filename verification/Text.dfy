/** Go's string helpers as far as the tools use them: trimming, splitting, scanning lines. */
module Text {
  /** unicode.IsSpace. */
  predicate IsSpace(c: char) {
    c in "\t\n\r " || c == '\U{000B}' || c == '\U{000C}' || c == '\U{0085}' || c == '\U{00A0}' || c == '\U{1680}'
    || '\U{2000}' <= c <= '\U{200A}' || c == '\U{2028}' || c == '\U{2029}' || c == '\U{202F}' || c == '\U{205F}' || c == '\U{3000}'
  }

  /** By code point. */
  lemma SpaceCodes(c: char)
    ensures IsSpace(c) <==> c as int in {9, 10, 11, 12, 13, 32, 133, 160, 5760, 8232, 8233, 8239, 8287, 12288}
                            || 8192 <= c as int <= 8202
  {
  }

  /** White space taken off both ends. */
  function TrimOf(space: char -> bool, s: string): (r: string)
    ensures r != "" ==> !space(r[0]) && !space(r[|r| - 1])
    decreases |s|
  {
    if s == "" then ""
    else if space(s[0]) then TrimOf(space, s[1..])
    else if space(s[|s| - 1]) then TrimOf(space, s[..|s| - 1])
    else s
  }

  /** strings.TrimSpace. */
  function Trim(s: string): (r: string)
    ensures r != "" ==> !IsSpace(r[0]) && !IsSpace(r[|r| - 1])
  {
    TrimOf(IsSpace, s)
  }

  lemma TrimKeeps(s: string)
    requires s == "" || (!IsSpace(s[0]) && !IsSpace(s[|s| - 1]))
    ensures Trim(s) == s
  {
  }

  predicate Blank(space: char -> bool, s: string) {
    forall i | 0 <= i < |s| :: space(s[i])
  }

  /** The text is the core between white space, and the core has none at its ends. */
  ghost predicate Surrounds(space: char -> bool, s: string, core: string) {
    && (core != "" ==> !space(core[0]) && !space(core[|core| - 1]))
    && exists left, right :: Blank(space, left) && Blank(space, right) && s == left + core + right
  }

  lemma SurroundsLeft(space: char -> bool, s: string, core: string)
    requires s != "" && space(s[0]) && Surrounds(space, s[1..], core)
    ensures Surrounds(space, s, core)
  {
    var left, right :| Blank(space, left) && Blank(space, right) && s[1..] == left + core + right;
    var wider := [s[0]] + left;
    assert Blank(space, wider) && s == wider + core + right;
  }

  lemma SurroundsRight(space: char -> bool, s: string, core: string)
    requires s != "" && space(s[|s| - 1]) && Surrounds(space, s[..|s| - 1], core)
    ensures Surrounds(space, s, core)
  {
    var left, right :| Blank(space, left) && Blank(space, right) && s[..|s| - 1] == left + core + right;
    var wider := right + [s[|s| - 1]];
    assert Blank(space, wider) && s == left + core + wider;
  }

  lemma {:induction false} TrimSurrounds(space: char -> bool, s: string)
    ensures Surrounds(space, s, TrimOf(space, s))
    decreases |s|
  {
    if s == "" || (!space(s[0]) && !space(s[|s| - 1])) {
      assert Blank(space, "") && s == "" + s + "";
    } else if space(s[0]) {
      TrimSurrounds(space, s[1..]);
      SurroundsLeft(space, s, TrimOf(space, s[1..]));
    } else {
      TrimSurrounds(space, s[..|s| - 1]);
      SurroundsRight(space, s, TrimOf(space, s[..|s| - 1]));
    }
  }

  lemma {:induction false} TrimBlank(space: char -> bool, s: string)
    requires Blank(space, s)
    ensures TrimOf(space, s) == ""
  {
    if s != "" {
      TrimBlank(space, s[1..]);
    }
  }

  lemma {:induction false} TrimAround(space: char -> bool, left: string, core: string, right: string)
    requires Blank(space, left) && Blank(space, right)
    requires core != "" && !space(core[0]) && !space(core[|core| - 1])
    ensures TrimOf(space, left + core + right) == core
    decreases |left| + |right|
  {
    var s := left + core + right;
    if left != "" {
      assert s[1..] == left[1..] + core + right;
      TrimAround(space, left[1..], core, right);
    } else if right != "" {
      assert s[0] == core[0] && s[..|s| - 1] == left + core + right[..|right| - 1];
      TrimAround(space, left, core, right[..|right| - 1]);
    } else {
      assert s == core;
    }
  }

  /** Trimming is exactly taking off the white space around a core. */
  lemma TrimExactly(space: char -> bool, s: string, core: string)
    ensures TrimOf(space, s) == core <==> Surrounds(space, s, core)
  {
    TrimSurrounds(space, s);
    if Surrounds(space, s, core) {
      var left, right :| Blank(space, left) && Blank(space, right) && s == left + core + right;
      if core == "" {
        assert s == left + right;
        TrimBlank(space, s);
      } else {
        TrimAround(space, left, core, right);
      }
    }
  }

  /** The first position of c, or the length. */
  function IndexOf(s: string, c: char): (i: nat)
    ensures i <= |s| && c !in s[..i]
    ensures i < |s| ==> s[i] == c
  {
    if s == "" || s[0] == c then 0 else
      var i := 1 + IndexOf(s[1..], c);
      assert s[..i] == [s[0]] + s[1..][..i - 1];
      i
  }

  lemma {:induction false} IndexAbsent(s: string, c: char)
    requires c !in s
    ensures IndexOf(s, c) == |s|
  {
    if s != "" {
      IndexAbsent(s[1..], c);
    }
  }

  lemma {:induction false} IndexAfter(s: string, c: char, rest: string)
    requires c !in s
    ensures IndexOf(s + [c] + rest, c) == |s|
  {
    if s != "" {
      assert (s + [c] + rest)[1..] == s[1..] + [c] + rest;
      IndexAfter(s[1..], c, rest);
    }
  }

  /** strings.Join with a one-character separator. */
  function Join(parts: seq<string>, c: char): string
    requires parts != []
  {
    if |parts| == 1 then parts[0] else parts[0] + [c] + Join(parts[1..], c)
  }

  /** strings.Split with a one-character separator: the parts hold no separator and join to the text. */
  function Split(s: string, c: char): (parts: seq<string>)
    ensures parts != [] && Join(parts, c) == s
    ensures forall p | p in parts :: c !in p
  {
    var i := IndexOf(s, c);
    if i == |s| then
      assert s[..i] == s;
      [s]
    else
      var rest := Split(s[i + 1..], c);
      assert ([s[..i]] + rest)[1..] == rest && s == s[..i] + [c] + s[i + 1..];
      [s[..i]] + rest
  }

  /** The bytes a character takes in UTF-8. */
  function Utf8Width(c: char): nat {
    if c < '\U{0080}' then 1 else if c < '\U{0800}' then 2 else if c < '\U{10000}' then 3 else 4
  }

  function Bytes(s: string): (n: nat)
    ensures n >= |s|
  {
    if s == "" then 0 else Utf8Width(s[0]) + Bytes(s[1..])
  }

  /** bufio.MaxScanTokenSize: a line this long ends the scan. */
  const MAX_LINE: nat := 65536

  function DropReturn(s: string): string {
    if s != "" && s[|s| - 1] == '\r' then s[..|s| - 1] else s
  }

  /** The lines a bufio.Scanner delivers. */
  function Lines(file: string): seq<string> {
    if file == "" then []
    else
      var i := IndexOf(file, '\n');
      if Bytes(file[..i]) >= MAX_LINE then []
      else [DropReturn(file[..i])] + (if i < |file| then Lines(file[i + 1..]) else [])
  }

  lemma LinesCons(line: string, rest: string)
    requires '\n' !in line && Bytes(line) < MAX_LINE && (line != "" ==> line[|line| - 1] != '\r')
    ensures Lines(line + "\n" + rest) == [line] + Lines(rest)
  {
    IndexAfter(line, '\n', rest);
    Around(line, "\n", rest);
    FirstLine(line + "\n" + rest);
  }

  lemma FirstLine(file: string)
    requires IndexOf(file, '\n') < |file| && Bytes(file[..IndexOf(file, '\n')]) < MAX_LINE
    ensures var i := IndexOf(file, '\n'); Lines(file) == [DropReturn(file[..i])] + Lines(file[i + 1..])
  {
    var i := IndexOf(file, '\n');
    assert file != "" && !(Bytes(file[..i]) >= MAX_LINE);
  }

  lemma Around(a: string, c: string, b: string)
    requires |c| == 1
    ensures var s := a + c + b; s != "" && |a| < |s| && s[..|a|] == a && s[|a| + 1..] == b
  {
  }

  /** A carriage return before the newline is not part of the line. */
  lemma LinesConsReturn(line: string, rest: string)
    requires '\n' !in line && Bytes(line + "\r") < MAX_LINE
    ensures Lines(line + "\r\n" + rest) == [line] + Lines(rest)
  {
    var full := line + "\r";
    assert line + "\r\n" + rest == full + "\n" + rest;
    assert full[|full| - 1] == '\r' && full[..|full| - 1] == line && '\n' !in full;
    IndexAfter(full, '\n', rest);
    Around(full, "\n", rest);
    FirstLine(full + "\n" + rest);
  }

  /** The last line needs no newline, unless it is empty. */
  lemma LastLine(line: string)
    requires '\n' !in line && Bytes(line) < MAX_LINE && (line != "" ==> line[|line| - 1] != '\r')
    ensures Lines(line) == if line == "" then [] else [line]
  {
    assert line[..|line|] == line;
    IndexAbsent(line, '\n');
  }

  /** A line of 65536 bytes or more ends the scan: neither it nor anything after it is delivered. */
  lemma LongLineEndsScan(line: string, rest: string)
    requires '\n' !in line && |line| >= 65536 && (rest == "" || rest[0] == '\n')
    ensures Lines(line + rest) == []
  {
    var file := line + rest;
    if rest == "" {
      assert file == line && file[..|line|] == line;
      IndexAbsent(line, '\n');
    } else {
      assert file == line + ['\n'] + rest[1..];
      IndexAfter(line, '\n', rest[1..]);
      assert file[..|line|] == line;
    }
  }

  /** ASCII takes one byte a character. */
  lemma {:induction false} AsciiBytes(s: string)
    requires forall i | 0 <= i < |s| :: s[i] < '\U{0080}'
    ensures Bytes(s) == |s|
  {
    if s != "" {
      AsciiBytes(s[1..]);
    }
  }

  /** So every text of ASCII lines shorter than 65536 characters, closed by newlines, is scanned into those lines. */
  lemma {:induction false} AsciiLines(lines: seq<string>)
    requires forall line | line in lines :: '\n' !in line && '\r' !in line && |line| < 65536
    requires forall line | line in lines :: forall i | 0 <= i < |line| :: line[i] < '\U{0080}'
    ensures Lines(Closed(lines)) == lines
  {
    if lines != [] {
      var line := lines[0];
      assert line in lines && forall other | other in lines[1..] :: other in lines;
      AsciiBytes(line);
      AsciiLines(lines[1..]);
      assert line != "" ==> line[|line| - 1] in line;
      LinesCons(line, Closed(lines[1..]));
      assert lines == [line] + lines[1..];
    }
  }

  function Closed(lines: seq<string>): string {
    if lines == [] then "" else lines[0] + "\n" + Closed(lines[1..])
  }

  lemma {:induction false} BytesAtMost(s: string)
    ensures Bytes(s) <= 4 * |s|
  {
    if s != "" {
      BytesAtMost(s[1..]);
    }
  }
}

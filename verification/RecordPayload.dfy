/**
 The incident record as the two writers serialise it before hashing: the bot with Python's json.dumps
 (sorted keys, ASCII escapes, `: ` and `, `), the TEE extension with a format string that escapes
 nothing. `ParseObject` is a reader for such objects after section 7 of RFC 8259.
 */
module RecordPayload {
  import opened Numerals
  import opened Options

  datatype Record = Record(drivingFactor: string, justification: string, severity: string, summary: string)

  type Pair = (string, string)

  function Pairs(r: Record): seq<Pair> {
    [("driving_factor", r.drivingFactor), ("justification", r.justification), ("severity", r.severity), ("summary", r.summary)]
  }

  // ---------------------------------------------------------------- writing

  function Hex4(n: nat): (s: string)
    requires n < 0x10000
    ensures |s| == 4 && IsNumeral(s, 16) && Parse(s, 16) == n
  {
    assert Power(16, 4) == 0x10000;
    PrintLength(n, 16, 4);
    ZeroPadKeepsValue(Print(n, 16), 4, 16);
    PrintThenParse(n, 16);
    ZeroPad(Print(n, 16), 4)
  }

  /** Printable ASCII other than the quote and the backslash. */
  predicate IsLiteral(c: char) {
    ' ' <= c <= '~' && c != '"' && c != '\\'
  }

  function HighSurrogate(c: char): (h: nat)
    requires c as int >= 0x10000
    ensures 0xD800 <= h < 0xDC00
  {
    0xD800 + (c as int - 0x10000) / 0x400 % 0x400
  }

  function LowSurrogate(c: char): (l: nat)
    requires c as int >= 0x10000
    ensures 0xDC00 <= l < 0xE000
  {
    0xDC00 + (c as int - 0x10000) % 0x400
  }

  /** json.dumps with ensure_ascii. */
  function Escape(c: char): (e: string)
    ensures |e| >= 1 && (|e| == 1 <==> IsLiteral(c)) && (|e| == 1 ==> e == [c])
  {
    if IsLiteral(c) then [c]
    else if c == '"' || c == '\\' then ['\\', c]
    else if c == '\n' then "\\n"
    else if c == '\r' then "\\r"
    else if c == '\t' then "\\t"
    else if c == '\U{0008}' then "\\b"
    else if c == '\U{000C}' then "\\f"
    else if c as int < 0x10000 then "\\u" + Hex4(c as int)
    else
      "\\u" + Hex4(HighSurrogate(c)) + "\\u" + Hex4(LowSurrogate(c))
  }

  function EscapeAll(s: string): string {
    if s == "" then "" else Escape(s[0]) + EscapeAll(s[1..])
  }

  function Encode(escaped: bool, s: string): string {
    if escaped then EscapeAll(s) else s
  }

  function Member(p: Pair, escaped: bool, colon: string): string {
    "\"" + p.0 + "\"" + colon + "\"" + Encode(escaped, p.1) + "\""
  }

  function Members(pairs: seq<Pair>, escaped: bool, colon: string, comma: string): string
    requires pairs != []
  {
    if |pairs| == 1 then Member(pairs[0], escaped, colon)
    else Member(pairs[0], escaped, colon) + comma + Members(pairs[1..], escaped, colon, comma)
  }

  /** The bot's hash input. */
  function PythonPayload(r: Record): string {
    "{" + Members(Pairs(r), true, ": ", ", ") + "}"
  }

  /** A `"key":"%s"` of the TEE extension's format string. */
  function GoMember(key: string, value: string): string {
    "\"" + key + "\":\"" + value + "\""
  }

  /** The TEE extension's hash input. */
  function GoPayload(r: Record): string {
    "{" + GoMember("driving_factor", r.drivingFactor) + "," + GoMember("justification", r.justification)
      + "," + GoMember("severity", r.severity) + "," + GoMember("summary", r.summary) + "}"
  }

  // ---------------------------------------------------------------- reading

  function SkipSpace(s: string): (r: string)
    ensures |r| <= |s|
  {
    if s != "" && s[0] in " \t\n\r" then SkipSpace(s[1..]) else s
  }

  /** Four hexadecimal digits at the head of the text. */
  function Unit(s: string): (u: Option<nat>)
    ensures u.Some? ==> |s| >= 4 && u.value < 0x10000
  {
    if |s| >= 4 && IsNumeral(s[..4], 16) then
      ParseBound(s[..4], 16);
      assert Power(16, 4) == 0x10000;
      Some(Parse(s[..4], 16))
    else None
  }

  /** An escape sequence: the character it denotes and the text after it; surrogates only in pairs. */
  function ParseEscape(s: string): (r: Option<(char, string)>)
    requires s != "" && s[0] == '\\'
    ensures r.Some? ==> |r.value.1| < |s|
  {
    if |s| < 2 then None
    else if s[1] == '"' || s[1] == '\\' || s[1] == '/' then Some((s[1], s[2..]))
    else if s[1] == 'b' then Some(('\U{0008}', s[2..]))
    else if s[1] == 'f' then Some(('\U{000C}', s[2..]))
    else if s[1] == 'n' then Some(('\n', s[2..]))
    else if s[1] == 'r' then Some(('\r', s[2..]))
    else if s[1] == 't' then Some(('\t', s[2..]))
    else if s[1] != 'u' || Unit(s[2..]).None? then None
    else
      var high := Unit(s[2..]).value;
      if high < 0xD800 || 0xE000 <= high then Some((high as char, s[6..]))
      else if high >= 0xDC00 || |s| < 8 || s[6] != '\\' || s[7] != 'u' || Unit(s[8..]).None? then None
      else
        var low := Unit(s[8..]).value;
        if 0xDC00 <= low < 0xE000 then Some(((0x10000 + (high - 0xD800) * 0x400 + (low - 0xDC00)) as char, s[12..])) else None
  }

  function Prepend(c: char, r: Option<(string, string)>): Option<(string, string)> {
    if r.None? then None else Some(([c] + r.value.0, r.value.1))
  }

  /** The characters of a string up to its closing quote, and the text after it. */
  function ParseChars(s: string): (r: Option<(string, string)>)
    ensures r.Some? ==> |r.value.1| < |s|
    decreases |s|
  {
    if s == "" then None
    else if s[0] == '"' then Some(("", s[1..]))
    else if s[0] == '\\' then
      var e := ParseEscape(s);
      if e.None? then None else Prepend(e.value.0, ParseChars(e.value.1))
    else if s[0] < ' ' then None
    else Prepend(s[0], ParseChars(s[1..]))
  }

  function ParseString(s: string): (r: Option<(string, string)>)
    ensures r.Some? ==> |r.value.1| < |s|
  {
    if s == "" || s[0] != '"' then None else ParseChars(s[1..])
  }

  /** One `key: value` member and the text after it, leading space skipped throughout. */
  function ParseMember(s: string): (r: Option<(Pair, string)>)
    ensures r.Some? ==> |r.value.1| < |s|
  {
    var key := ParseString(SkipSpace(s));
    if key.None? then None else
    var t := SkipSpace(key.value.1);
    if t == "" || t[0] != ':' then None else
    var value := ParseString(SkipSpace(t[1..]));
    if value.None? then None
    else Some(((key.value.0, value.value.0), SkipSpace(value.value.1)))
  }

  /** The members after `{` or `,`, up to and including `}`. */
  function ParseMembers(s: string): (r: Option<(seq<Pair>, string)>)
    ensures r.Some? ==> r.value.0 != []
    decreases |s|
  {
    var m := ParseMember(s);
    if m.None? || m.value.1 == "" then None
    else if m.value.1[0] == '}' then Some(([m.value.0], m.value.1[1..]))
    else if m.value.1[0] != ',' then None
    else
      var rest := ParseMembers(m.value.1[1..]);
      if rest.None? then None else Some(([m.value.0] + rest.value.0, rest.value.1))
  }

  /** A whole text holding one non-empty object whose values are strings. */
  function ParseObject(s: string): Option<seq<Pair>> {
    var t := SkipSpace(s);
    if t == "" || t[0] != '{' then None
    else
      var m := ParseMembers(t[1..]);
      if m.Some? && SkipSpace(m.value.1) == "" then Some(m.value.0) else None
  }

  // ---------------------------------------------------------------- reading undoes writing

  lemma UnitOfHex4(n: nat, rest: string)
    requires n < 0x10000
    ensures Unit(Hex4(n) + rest) == Some(n)
  {
    assert (Hex4(n) + rest)[..4] == Hex4(n);
  }

  lemma SurrogatesParse(c: char, rest: string)
    requires c as int >= 0x10000
    ensures ParseEscape(Escape(c) + rest) == Some((c, rest))
  {
    SurrogateHalves(c);
    PairParses(HighSurrogate(c), LowSurrogate(c), rest);
  }

  lemma SurrogateHalves(c: char)
    requires c as int >= 0x10000
    ensures 0x10000 + (HighSurrogate(c) - 0xD800) * 0x400 + (LowSurrogate(c) - 0xDC00) == c as int
  {
  }

  lemma PairParses(high: nat, low: nat, rest: string)
    requires 0xD800 <= high < 0xDC00 <= low < 0xE000
    ensures ParseEscape("\\u" + Hex4(high) + "\\u" + Hex4(low) + rest)
         == Some(((0x10000 + (high - 0xD800) * 0x400 + (low - 0xDC00)) as char, rest))
  {
    var h, l := Hex4(high), Hex4(low);
    PairLayout(h, l, rest);
    UnitOfHex4(high, "\\u" + l + rest);
    UnitOfHex4(low, rest);
  }

  lemma PairLayout(h: string, l: string, rest: string)
    requires |h| == 4 && |l| == 4
    ensures var s := "\\u" + h + "\\u" + l + rest;
            && |s| >= 12 && s[0] == '\\' && s[1] == 'u' && s[6] == '\\' && s[7] == 'u'
            && s[2..] == h + ("\\u" + l + rest) && s[8..] == l + rest && s[12..] == rest
  {
  }

  lemma UnitEscapeParses(c: char, rest: string)
    requires c as int < 0x10000 && Escape(c) == "\\u" + Hex4(c as int)
    ensures ParseEscape(Escape(c) + rest) == Some((c, rest))
  {
    var s := Escape(c) + rest;
    assert s[2..] == Hex4(c as int) + rest;
    UnitOfHex4(c as int, rest);
    assert s[6..] == rest;
  }

  lemma EscapeParses(c: char, rest: string)
    requires !IsLiteral(c)
    ensures Escape(c)[0] == '\\' && ParseEscape(Escape(c) + rest) == Some((c, rest))
  {
    var s := Escape(c) + rest;
    if c as int >= 0x10000 {
      SurrogatesParse(c, rest);
    } else if c == '"' || c == '\\' || c == '\n' || c == '\r' || c == '\t' || c == '\U{0008}' || c == '\U{000C}' {
      assert |Escape(c)| == 2 && s[2..] == rest;
    } else {
      UnitEscapeParses(c, rest);
    }
  }

  /** What a JSON string may contain unescaped. */
  predicate IsPlain(s: string) {
    forall i | 0 <= i < |s| :: s[i] >= ' ' && s[i] != '"' && s[i] != '\\'
  }

  /** What a single character is written as. */
  function EncodeChar(escaped: bool, c: char): string {
    if escaped then Escape(c) else [c]
  }

  lemma EncodedCharParses(escaped: bool, c: char, tail: string)
    requires escaped || (c >= ' ' && c != '"' && c != '\\')
    ensures ParseChars(EncodeChar(escaped, c) + tail) == Prepend(c, ParseChars(tail))
  {
    var t := EncodeChar(escaped, c) + tail;
    if escaped && !IsLiteral(c) {
      EscapeParses(c, tail);
      assert t[0] == '\\';
    } else {
      assert t[0] == c && t[1..] == tail;
    }
  }

  lemma EncodeCons(escaped: bool, s: string, q: string, rest: string)
    requires s != ""
    ensures Encode(escaped, s) + q + rest == EncodeChar(escaped, s[0]) + (Encode(escaped, s[1..]) + q + rest)
  {
    if !escaped {
      assert s == [s[0]] + s[1..];
    }
  }

  /** An encoded string is read back if it was escaped, or if it needed no escapes. */
  lemma {:induction false} EncodedParses(escaped: bool, s: string, rest: string)
    requires escaped || IsPlain(s)
    ensures ParseChars(Encode(escaped, s) + "\"" + rest) == Some((s, rest))
  {
    if s == "" {
      var t := "\"" + rest;
      assert Encode(escaped, s) + "\"" + rest == t && t[1..] == rest;
    } else {
      EncodedParses(escaped, s[1..], rest);
      EncodeCons(escaped, s, "\"", rest);
      EncodedCharParses(escaped, s[0], Encode(escaped, s[1..]) + "\"" + rest);
      assert s == [s[0]] + s[1..];
    }
  }

  /** The writers put at most one space before a token. */
  lemma SkipGap(gap: string, token: string)
    requires gap == "" || gap == " "
    requires token != "" && token[0] !in " \t\n\r"
    ensures SkipSpace(gap + token) == token
  {
    if gap == "" {
      assert gap + token == token;
    } else {
      assert (gap + token)[1..] == token;
    }
  }

  lemma QuoteParses(gap: string, encoded: string, rest: string)
    requires gap == "" || gap == " "
    ensures ParseString(SkipSpace(gap + ("\"" + encoded + "\"" + rest))) == ParseChars(encoded + "\"" + rest)
  {
    var q := "\"" + encoded + "\"" + rest;
    SkipGap(gap, q);
    assert q[1..] == encoded + "\"" + rest;
  }

  /** The separators of either writer: the mark, then at most one space. */
  predicate Separators(colon: string, comma: string) {
    (colon == ":" || colon == ": ") && (comma == "," || comma == ", ")
  }

  function Gap(separator: string): string
    requires separator != ""
  {
    separator[1..]
  }

  lemma Regroup(gap: string, q: string, key: string, colon: string, value: string, rest: string)
    ensures gap + (q + key + q + colon + q + value + q) + rest == gap + (q + key + q + (colon + (q + value + q + rest)))
  {
  }

  /** A member's key is read back; its value is whatever its encoding reads as. */
  lemma MemberParses(gap: string, p: Pair, escaped: bool, colon: string, rest: string)
    requires (gap == "" || gap == " ") && (colon == ":" || colon == ": ") && IsPlain(p.0)
    ensures var v := ParseChars(Encode(escaped, p.1) + "\"" + rest);
            ParseMember(gap + Member(p, escaped, colon) + rest)
              == if v.None? then None else Some(((p.0, v.value.0), SkipSpace(v.value.1)))
  {
    var value := Encode(escaped, p.1);
    var q := "\"" + value + "\"" + rest;
    var after := colon + q;
    Regroup(gap, "\"", p.0, colon, value, rest);
    QuoteParses(gap, p.0, after);
    EncodedParses(false, p.0, after);
    ColonParses(colon, value, rest);
  }

  lemma ColonParses(colon: string, value: string, rest: string)
    requires colon == ":" || colon == ": "
    ensures var after := colon + ("\"" + value + "\"" + rest);
            && after != "" && after[0] == ':' && SkipSpace(after) == after
            && ParseString(SkipSpace(after[1..])) == ParseChars(value + "\"" + rest)
  {
    var q := "\"" + value + "\"" + rest;
    var after := colon + q;
    SkipGap("", after);
    assert "" + after == after;
    assert after[1..] == Gap(colon) + q;
    QuoteParses(Gap(colon), value, rest);
  }

  lemma LastMember(gap: string, p: Pair, escaped: bool, colon: string, rest: string)
    requires (gap == "" || gap == " ") && (colon == ":" || colon == ": ")
    requires IsPlain(p.0) && (escaped || IsPlain(p.1))
    ensures ParseMembers(gap + Member(p, escaped, colon) + ("}" + rest)) == Some(([p], rest))
  {
    var tail := "}" + rest;
    MemberParses(gap, p, escaped, colon, tail);
    EncodedParses(escaped, p.1, tail);
    SkipGap("", tail);
    assert "" + tail == tail && tail[1..] == rest;
  }

  lemma NextMember(gap: string, p: Pair, escaped: bool, colon: string, more: string)
    requires (gap == "" || gap == " ") && (colon == ":" || colon == ": ")
    requires IsPlain(p.0) && (escaped || IsPlain(p.1))
    ensures ParseMembers(gap + Member(p, escaped, colon) + ("," + more))
            == if ParseMembers(more).None? then None
               else Some(([p] + ParseMembers(more).value.0, ParseMembers(more).value.1))
  {
    var tail := "," + more;
    MemberParses(gap, p, escaped, colon, tail);
    EncodedParses(escaped, p.1, tail);
    SkipGap("", tail);
    assert "" + tail == tail && tail[1..] == more;
  }

  lemma RegroupMembers(gap: string, first: string, gap': string, others: string, end: string)
    ensures gap + (first + ("," + gap') + others) + end == gap + first + ("," + (gap' + others + end))
  {
  }

  lemma UnfoldMembers(gap: string, pairs: seq<Pair>, escaped: bool, colon: string, comma: string, end: string)
    requires |pairs| > 1 && (comma == "," || comma == ", ")
    ensures gap + Members(pairs, escaped, colon, comma) + end
         == gap + Member(pairs[0], escaped, colon) + ("," + (Gap(comma) + Members(pairs[1..], escaped, colon, comma) + end))
  {
    assert comma == "," + Gap(comma);
    RegroupMembers(gap, Member(pairs[0], escaped, colon), Gap(comma), Members(pairs[1..], escaped, colon, comma), end);
  }

  predicate Readable(pairs: seq<Pair>, escaped: bool) {
    forall p | p in pairs :: IsPlain(p.0) && (escaped || IsPlain(p.1))
  }

  lemma {:induction false} MembersParse(gap: string, pairs: seq<Pair>, escaped: bool, colon: string, comma: string, rest: string)
    requires pairs != [] && Separators(colon, comma) && (gap == "" || gap == " ") && Readable(pairs, escaped)
    ensures ParseMembers(gap + Members(pairs, escaped, colon, comma) + ("}" + rest)) == Some((pairs, rest))
    decreases |pairs|
  {
    assert pairs[0] in pairs;
    if |pairs| == 1 {
      OnlyMember(gap, pairs[0], escaped, colon, comma, rest);
      assert pairs == [pairs[0]];
    } else {
      assert forall p | p in pairs[1..] :: p in pairs;
      GapIsShort(comma);
      MembersParse(Gap(comma), pairs[1..], escaped, colon, comma, rest);
      MoreMembers(gap, pairs, escaped, colon, comma, rest);
    }
  }

  lemma GapIsShort(comma: string)
    requires comma == "," || comma == ", "
    ensures Gap(comma) == "" || Gap(comma) == " "
  {
  }

  lemma MoreMembers(gap: string, pairs: seq<Pair>, escaped: bool, colon: string, comma: string, rest: string)
    requires |pairs| > 1 && Separators(colon, comma) && (gap == "" || gap == " ") && Readable(pairs, escaped)
    requires ParseMembers(Gap(comma) + Members(pairs[1..], escaped, colon, comma) + ("}" + rest)) == Some((pairs[1..], rest))
    ensures ParseMembers(gap + Members(pairs, escaped, colon, comma) + ("}" + rest)) == Some((pairs, rest))
  {
    assert pairs[0] in pairs && pairs == [pairs[0]] + pairs[1..];
    var more := Gap(comma) + Members(pairs[1..], escaped, colon, comma) + ("}" + rest);
    UnfoldMembers(gap, pairs, escaped, colon, comma, "}" + rest);
    NextMember(gap, pairs[0], escaped, colon, more);
  }

  lemma OnlyMember(gap: string, p: Pair, escaped: bool, colon: string, comma: string, rest: string)
    requires Separators(colon, comma) && (gap == "" || gap == " ") && Readable([p], escaped)
    ensures ParseMembers(gap + Members([p], escaped, colon, comma) + ("}" + rest)) == Some(([p], rest))
  {
    assert p in [p];
    LastMember(gap, p, escaped, colon, rest);
    OneMember(p, escaped, colon, comma);
  }

  lemma OneMember(p: Pair, escaped: bool, colon: string, comma: string)
    ensures Members([p], escaped, colon, comma) == Member(p, escaped, colon)
  {
  }

  lemma KeysArePlain(r: Record)
    ensures forall p | p in Pairs(r) :: IsPlain(p.0)
  {
  }

  lemma ObjectParses(pairs: seq<Pair>, escaped: bool, colon: string, comma: string)
    requires pairs != [] && Separators(colon, comma)
    requires forall p | p in pairs :: IsPlain(p.0) && (escaped || IsPlain(p.1))
    ensures ParseObject("{" + Members(pairs, escaped, colon, comma) + "}") == Some(pairs)
  {
    MembersParse("", pairs, escaped, colon, comma, "");
    ObjectIsMembers(Members(pairs, escaped, colon, comma));
  }

  /** Between its braces an object is read as its members. */
  lemma ObjectIsMembers(members: string)
    ensures var m := ParseMembers("" + members + ("}" + ""));
            ParseObject("{" + members + "}") == if m.Some? && SkipSpace(m.value.1) == "" then Some(m.value.0) else None
  {
    var s := "{" + members + "}";
    SkipGap("", s);
    assert "" + s == s;
    assert s[1..] == "" + members + ("}" + "");
  }

  /** The bot's payload is undone by a JSON parser, for every record. */
  lemma PythonRoundTrip(r: Record)
    ensures ParseObject(PythonPayload(r)) == Some(Pairs(r))
  {
    KeysArePlain(r);
    ObjectParses(Pairs(r), true, ": ", ", ");
  }

  /** A quoted key, a colon and a space, and the opening quote of the value. */
  function Opening(key: string): string {
    "\"" + key + "\": \""
  }

  /** The bot's hash input, laid out: sorted keys, `": "` after each and `", "` between members. */
  lemma PythonLayout(r: Record)
    ensures PythonPayload(r)
         == "{" + (Opening("driving_factor") + (EscapeAll(r.drivingFactor) + ("\", "
              + (Opening("justification") + (EscapeAll(r.justification) + ("\", "
              + (Opening("severity") + (EscapeAll(r.severity) + ("\", "
              + (Opening("summary") + (EscapeAll(r.summary) + "\"}")))))))))))
  {
    var p := Pairs(r);
    MembersOfFour(p[0], p[1], p[2], p[3], true, ": ", ", ");
    MemberText(p[0]);
    MemberText(p[1]);
    MemberText(p[2]);
    MemberText(p[3]);
    NestFour(Opening("driving_factor"), EscapeAll(r.drivingFactor), Opening("justification"), EscapeAll(r.justification),
             Opening("severity"), EscapeAll(r.severity), Opening("summary"), EscapeAll(r.summary));
  }

  lemma MemberText(p: Pair)
    ensures Member(p, true, ": ") == Opening(p.0) + (EscapeAll(p.1) + "\"")
  {
    var q := "\"";
    assert "\": \"" == q + ": " + q;
    JoinSix(q, p.0, ": ", EscapeAll(p.1));
  }

  lemma JoinSix(q: string, key: string, colon: string, value: string)
    ensures q + key + q + colon + q + value + q == (q + key + (q + colon + q)) + (value + q)
  {
  }

  lemma NestOne(a: string, v: string, q: string, comma: string, rest: string, end: string)
    ensures ((a + (v + q)) + comma + rest) + end == a + (v + ((q + comma) + (rest + end)))
  {
  }

  lemma NestFour(a1: string, v1: string, a2: string, v2: string, a3: string, v3: string, a4: string, v4: string)
    ensures "{" + ((a1 + (v1 + "\"")) + ", " + ((a2 + (v2 + "\"")) + ", " + ((a3 + (v3 + "\"")) + ", " + (a4 + (v4 + "\""))))) + "}"
         == "{" + (a1 + (v1 + ("\", " + (a2 + (v2 + ("\", " + (a3 + (v3 + ("\", " + (a4 + (v4 + "\"}")))))))))))
  {
    var q := "\"";
    assert "\", " == q + ", " && "\"}" == q + "}";
    var m4 := a4 + (v4 + q);
    var m3 := (a3 + (v3 + q)) + ", " + m4;
    var m2 := (a2 + (v2 + q)) + ", " + m3;
    assert m4 + "}" == a4 + (v4 + (q + "}"));
    NestOne(a3, v3, q, ", ", m4, "}");
    NestOne(a2, v2, q, ", ", m3, "}");
    NestOne(a1, v1, q, ", ", m2, "}");
    var m1 := (a1 + (v1 + q)) + ", " + m2;
    assert "{" + m1 + "}" == "{" + (m1 + "}");
  }

  predicate LowerHex(s: string) {
    forall i | 0 <= i < |s| :: '0' <= s[i] <= '9' || 'a' <= s[i] <= 'f'
  }

  /**
   Among the texts JSON allows for a character the bot takes the character itself if it is printable ASCII other
   than quote and backslash; otherwise the two-character escape if there is one (never `\/`); otherwise `\u` and
   four lower-case digits, twice for characters beyond the first plane.
   */
  lemma EscapeIsCanonical(c: char)
    ensures ' ' <= c <= '~' && c != '"' && c != '\\' ==> Escape(c) == [c]
    ensures !(' ' <= c <= '~' && c != '"' && c != '\\') ==>
              forall e | e != '/' && e != 'u' :: ParseEscape(['\\', e]) == Some((c, "")) <==> Escape(c) == ['\\', e]
    ensures |Escape(c)| in {1, 2, 6, 12} && (|Escape(c)| == 12 <==> c as int >= 0x10000)
    ensures |Escape(c)| >= 6 ==> Escape(c)[..2] == "\\u" && LowerHex(Escape(c)[2..6])
    ensures |Escape(c)| == 12 ==> Escape(c)[6..8] == "\\u" && LowerHex(Escape(c)[8..])
  {
    LongEscapes(c);
    if !IsLiteral(c) {
      forall e | e != '/' && e != 'u' ensures ParseEscape(['\\', e]) == Some((c, "")) <==> Escape(c) == ['\\', e] {
        TwoCharacterEscape(c, e);
      }
    }
  }

  lemma LongEscapes(c: char)
    ensures |Escape(c)| in {1, 2, 6, 12} && (|Escape(c)| == 12 <==> c as int >= 0x10000)
    ensures |Escape(c)| >= 6 ==> Escape(c)[..2] == "\\u" && LowerHex(Escape(c)[2..6])
    ensures |Escape(c)| == 12 ==> Escape(c)[6..8] == "\\u" && LowerHex(Escape(c)[8..])
  {
    if c as int >= 0x10000 {
      PairEscape(c);
    } else if |Escape(c)| > 2 {
      HexIsLower(c as int);
      assert Escape(c)[2..6] == Hex4(c as int);
    }
  }

  lemma PairEscape(c: char)
    requires c as int >= 0x10000
    ensures |Escape(c)| == 12 && Escape(c)[..2] == "\\u" && LowerHex(Escape(c)[2..6])
    ensures Escape(c)[6..8] == "\\u" && LowerHex(Escape(c)[8..])
  {
    HexIsLower(HighSurrogate(c));
    HexIsLower(LowSurrogate(c));
    TwoUnitsApart("\\u", Hex4(HighSurrogate(c)), Hex4(LowSurrogate(c)));
  }

  lemma TwoUnitsApart(u: string, high: string, low: string)
    requires |u| == 2 && |high| == 4 && |low| == 4
    ensures var e := u + high + u + low;
            |e| == 12 && e[..2] == u && e[2..6] == high && e[6..8] == u && e[8..] == low
  {
  }

  lemma TwoCharacterEscape(c: char, e: char)
    requires !IsLiteral(c) && e != '/' && e != 'u'
    ensures ParseEscape(['\\', e]) == Some((c, "")) <==> Escape(c) == ['\\', e]
  {
    assert ['\\', e][2..] == "";
  }

  lemma {:induction false} PrintIsLower(n: nat)
    ensures LowerHex(Print(n, 16))
    decreases n
  {
    if n >= 16 {
      SmallerQuotient(n, 16);
      PrintIsLower(n / 16);
    }
  }

  lemma {:induction false} PadIsLower(s: string, width: nat)
    requires LowerHex(s)
    ensures LowerHex(ZeroPad(s, width))
    decreases width - |s|
  {
    if |s| < width {
      PadIsLower("0" + s, width);
    }
  }

  lemma HexIsLower(n: nat)
    requires n < 0x10000
    ensures LowerHex(Hex4(n))
  {
    PrintIsLower(n);
    PadIsLower(Print(n, 16), 4);
  }

  /** Hence different records give the bot different hash inputs. */
  lemma PythonInjective(r: Record, q: Record)
    requires PythonPayload(r) == PythonPayload(q)
    ensures r == q
  {
    PythonRoundTrip(r);
    PythonRoundTrip(q);
    assert Pairs(r)[0] == Pairs(q)[0] && Pairs(r)[1] == Pairs(q)[1] && Pairs(r)[2] == Pairs(q)[2] && Pairs(r)[3] == Pairs(q)[3];
  }

  /** The bot's payload is pure ASCII, so its characters are the bytes that are hashed. */
  lemma PythonIsAscii(r: Record)
    ensures forall i | 0 <= i < |PythonPayload(r)| :: PythonPayload(r)[i] < '\U{0080}'
  {
    MembersAscii(Pairs(r), ": ", ", ");
  }

  predicate IsAscii(s: string) {
    forall i | 0 <= i < |s| :: s[i] < '\U{0080}'
  }

  lemma {:induction false} EscapedAscii(s: string)
    ensures IsAscii(EscapeAll(s))
  {
    if s != "" {
      EscapedAscii(s[1..]);
      AsciiConcat(Escape(s[0]), EscapeAll(s[1..]));
    }
  }

  lemma AsciiConcat(a: string, b: string)
    requires IsAscii(a) && IsAscii(b)
    ensures IsAscii(a + b)
  {
  }

  lemma MemberAscii(p: Pair, colon: string)
    requires IsAscii(p.0) && IsAscii(colon)
    ensures IsAscii(Member(p, true, colon))
  {
    var q := "\"";
    EscapedAscii(p.1);
    AsciiConcat(q, p.0);
    AsciiConcat(q + p.0, q);
    AsciiConcat(q + p.0 + q, colon);
    AsciiConcat(q + p.0 + q + colon, q);
    AsciiConcat(q + p.0 + q + colon + q, EscapeAll(p.1));
    AsciiConcat(q + p.0 + q + colon + q + EscapeAll(p.1), q);
  }

  lemma {:induction false} MembersAscii(pairs: seq<Pair>, colon: string, comma: string)
    requires pairs != [] && IsAscii(colon) && IsAscii(comma)
    requires forall p | p in pairs :: IsAscii(p.0)
    ensures IsAscii(Members(pairs, true, colon, comma))
    decreases |pairs|
  {
    var first := Member(pairs[0], true, colon);
    MemberAscii(pairs[0], colon);
    if |pairs| > 1 {
      MembersAscii(pairs[1..], colon, comma);
      AsciiConcat(first, comma);
      AsciiConcat(first + comma, Members(pairs[1..], true, colon, comma));
    }
  }

  // ---------------------------------------------------------------- the TEE extension's payload

  lemma MembersOfFour(a: Pair, b: Pair, c: Pair, d: Pair, escaped: bool, colon: string, comma: string)
    ensures Members([a, b, c, d], escaped, colon, comma)
         == Member(a, escaped, colon) + comma
            + (Member(b, escaped, colon) + comma + (Member(c, escaped, colon) + comma + Member(d, escaped, colon)))
  {
    assert [a, b, c, d][1..] == [b, c, d] && [b, c, d][1..] == [c, d] && [c, d][1..] == [d];
    assert Members([d], escaped, colon, comma) == Member(d, escaped, colon);
    assert Members([c, d], escaped, colon, comma) == Member(c, escaped, colon) + comma + Members([d], escaped, colon, comma);
    assert Members([b, c, d], escaped, colon, comma) == Member(b, escaped, colon) + comma + Members([c, d], escaped, colon, comma);
  }

  lemma GoMemberIsMember(key: string, value: string)
    ensures GoMember(key, value) == Member((key, value), false, ":")
  {
  }

  lemma FourInBraces(a: string, b: string, c: string, d: string)
    ensures "{" + a + "," + b + "," + c + "," + d + "}" == "{" + (a + "," + (b + "," + (c + "," + d))) + "}"
  {
  }

  /** The format string is the same layout without spaces and escapes. */
  lemma GoIsMembers(r: Record)
    ensures GoPayload(r) == "{" + Members(Pairs(r), false, ":", ",") + "}"
  {
    var p := Pairs(r);
    MembersOfFour(p[0], p[1], p[2], p[3], false, ":", ",");
    GoMemberIsMember(p[0].0, p[0].1);
    GoMemberIsMember(p[1].0, p[1].1);
    GoMemberIsMember(p[2].0, p[2].1);
    GoMemberIsMember(p[3].0, p[3].1);
    FourInBraces(Member(p[0], false, ":"), Member(p[1], false, ":"), Member(p[2], false, ":"), Member(p[3], false, ":"));
  }

  /** An escape sequence starting before the first quote ends before it too, or takes the quote as its character. */
  lemma EscapeBeforeQuote(u: string, rest: string) returns (length: nat)
    requires u != "" && u[0] == '\\' && '"' !in u
    ensures var e := ParseEscape(u + "\"" + rest);
            e.Some? ==>
              || (u == "\\" && e.value.0 == '"')
              || (2 <= length <= |u| && e.value.1 == u[length..] + "\"" + rest)
  {
    var s := u + "\"" + rest;
    assert s[|u|] == '"';
    length := 0;
    if |u| == 1 || s[1] != 'u' {
      length := 2;
    } else if Unit(s[2..]).Some? {
      NoQuoteInUnit(s, 2, |u|);
      var high := Unit(s[2..]).value;
      if high < 0xD800 || 0xE000 <= high {
        length := 6;
      } else {
        length := 12;
        if ParseEscape(s).Some? {
          NoQuoteInUnit(s, 8, |u|);
        }
      }
    }
  }

  lemma NoQuoteInUnit(s: string, at: nat, quote: nat)
    requires at <= |s| && quote < |s| && s[quote] == '"' && Unit(s[at..]).Some?
    ensures !(at <= quote < at + 4)
  {
    assert forall k | at <= k < at + 4 :: s[k] == s[at..][..4][k - at] && IsHexDigit(s[k]);
    assert !IsHexDigit(s[quote]);
  }

  /** Reading up to the first quote gives the text itself, or something shorter, or a value with a quote in it. */
  lemma {:induction false} ReadToFirstQuote(u: string, rest: string)
    requires '"' !in u
    ensures var r := ParseChars(u + "\"" + rest);
            r.Some? ==>
              || (exists j | 0 <= j < |r.value.0| && j < |u| :: r.value.0[j] == '"')
              || |r.value.0| < |u|
              || (r.value.0 == u && IsPlain(u))
    decreases |u|
  {
    var s := u + "\"" + rest;
    var r := ParseChars(s);
    if u == "" {
    } else if r.Some? && u[0] == '\\' {
      var length := EscapeBeforeQuote(u, rest);
      if u == "\\" && ParseEscape(s).value.0 == '"' {
        assert r.value.0[0] == '"';
      } else {
        ReadToFirstQuote(u[length..], rest);
        ShiftWitness(ParseEscape(s).value.0, ParseChars(u[length..] + "\"" + rest).value.0, |u[length..]|, |u|);
      }
    } else if r.Some? {
      assert s[1..] == u[1..] + "\"" + rest;
      ReadToFirstQuote(u[1..], rest);
      ShiftWitness(s[0], ParseChars(u[1..] + "\"" + rest).value.0, |u[1..]|, |u|);
    }
  }

  lemma ShiftWitness(c: char, value: string, before: nat, now: nat)
    requires before < now
    ensures (exists j | 0 <= j < |value| && j < before :: value[j] == '"') ==>
            exists j | 0 <= j < |[c] + value| && j < now :: ([c] + value)[j] == '"'
  {
    if exists j | 0 <= j < |value| && j < before :: value[j] == '"' {
      var j :| 0 <= j < |value| && j < before && value[j] == '"';
      assert ([c] + value)[j + 1] == '"';
    }
  }

  /** An unescaped value is read back as itself only if it is plain. */
  lemma UnplainNeverMatches(v: string, rest: string)
    requires !IsPlain(v)
    ensures var r := ParseChars(v + "\"" + rest); r.None? || r.value.0 != v
  {
    var m := FirstQuote(v);
    var u := v[..m];
    var rest' := if m == |v| then rest else v[m + 1..] + "\"" + rest;
    assert v + "\"" + rest == u + "\"" + rest' by {
      if m == |v| {
        assert u == v;
      } else {
        assert v == u + ['"'] + v[m + 1..];
      }
    }
    ReadToFirstQuote(u, rest');
  }

  function FirstQuote(v: string): (m: nat)
    ensures m <= |v| && '"' !in v[..m] && (m < |v| ==> v[m] == '"')
  {
    if v == "" || v[0] == '"' then 0
    else
      var m := 1 + FirstQuote(v[1..]);
      assert v[..m] == [v[0]] + v[1..][..m - 1];
      m
  }

  /** Keys are plain in both writers. */
  predicate PlainKeys(pairs: seq<Pair>) {
    forall p | p in pairs :: IsPlain(p.0)
  }

  /** If the unescaped members read as the pairs they were written from, every value was plain. */
  lemma {:induction false} MembersReadOnlyIfPlain(gap: string, pairs: seq<Pair>, rest: string)
    requires pairs != [] && PlainKeys(pairs) && (gap == "" || gap == " ")
    requires var m := ParseMembers(gap + Members(pairs, false, ":", ",") + ("}" + rest)); m.Some? && m.value.0 == pairs
    ensures Readable(pairs, false)
    decreases |pairs|
  {
    var first := pairs[0];
    assert first in pairs;
    var tail := if |pairs| == 1 then "}" + rest else "," + (Gap(",") + Members(pairs[1..], false, ":", ",") + ("}" + rest));
    if |pairs| > 1 {
      UnfoldMembers(gap, pairs, false, ":", ",", "}" + rest);
    }
    assert gap + Members(pairs, false, ":", ",") + ("}" + rest) == gap + Member(first, false, ":") + tail;
    MemberParses(gap, first, false, ":", tail);
    if !IsPlain(first.1) {
      UnplainNeverMatches(first.1, tail);
    }
    if |pairs| > 1 {
      var others := pairs[1..];
      var more := Gap(",") + Members(others, false, ":", ",") + ("}" + rest);
      NextMember(gap, first, false, ":", more);
      assert pairs == [first] + others;
      assert PlainKeys(others);
      MembersReadOnlyIfPlain(Gap(","), others, rest);
    }
  }

  predicate PlainRecord(r: Record) {
    IsPlain(r.drivingFactor) && IsPlain(r.justification) && IsPlain(r.severity) && IsPlain(r.summary)
  }

  lemma GoReadOnlyIfPlain(pairs: seq<Pair>)
    requires pairs != [] && PlainKeys(pairs)
    requires ParseObject("{" + Members(pairs, false, ":", ",") + "}") == Some(pairs)
    ensures Readable(pairs, false)
  {
    var members := Members(pairs, false, ":", ",");
    ObjectIsMembers(members);
    MembersReadOnlyIfPlain("", pairs, "");
  }

  lemma PlainPairs(r: Record)
    ensures Readable(Pairs(r), false) <==> PlainRecord(r)
  {
    KeysArePlain(r);
    var pairs := Pairs(r);
    assert pairs[0] in pairs && pairs[1] in pairs && pairs[2] in pairs && pairs[3] in pairs;
  }

  /** The TEE extension's payload reads back as the record exactly when no field needed an escape. */
  lemma GoRoundTripExactly(r: Record)
    ensures ParseObject(GoPayload(r)) == Some(Pairs(r)) <==> PlainRecord(r)
  {
    GoIsMembers(r);
    KeysArePlain(r);
    PlainPairs(r);
    if PlainRecord(r) {
      ObjectParses(Pairs(r), false, ":", ",");
    } else if ParseObject(GoPayload(r)) == Some(Pairs(r)) {
      GoReadOnlyIfPlain(Pairs(r));
    }
  }

  // ---------------------------------------------------------------- when the TEE payload determines the record

  lemma {:induction false} FirstQuoteAfter(a: string, s: string)
    requires '"' !in a
    ensures FirstQuote(a + "\"" + s) == |a|
  {
    if a != "" {
      assert (a + "\"" + s)[1..] == a[1..] + "\"" + s;
      FirstQuoteAfter(a[1..], s);
    }
  }

  lemma SplitAtQuote(a: string, s: string, b: string, t: string)
    requires '"' !in a && '"' !in b && a + "\"" + s == b + "\"" + t
    ensures a == b && s == t
  {
    FirstQuoteAfter(a, s);
    FirstQuoteAfter(b, t);
    var x, y := a + "\"" + s, b + "\"" + t;
    assert a == x[..|a|] == y[..|b|] == b;
    assert s == x[|a| + 1..] == y[|b| + 1..] == t;
  }

  /** The payload after the opening of the first value. */
  function GoTail(r: Record): string {
    r.drivingFactor + "\"" + (",\"justification\":\"" + (r.justification + "\"" + (",\"severity\":\""
      + (r.severity + "\"" + (",\"summary\":\"" + (r.summary + "\"}"))))))
  }

  lemma GoSplit(r: Record)
    ensures GoPayload(r) == "{\"driving_factor\":\"" + GoTail(r)
  {
    SplitFour("driving_factor", r.drivingFactor, "justification", r.justification, "severity", r.severity, "summary", r.summary);
    assert "{\"" + "driving_factor" + "\":\"" == "{\"driving_factor\":\"";
    assert ",\"" + "justification" + "\":\"" == ",\"justification\":\"";
    assert ",\"" + "severity" + "\":\"" == ",\"severity\":\"";
    assert ",\"" + "summary" + "\":\"" == ",\"summary\":\"";
  }

  lemma SplitFour(k1: string, v1: string, k2: string, v2: string, k3: string, v3: string, k4: string, v4: string)
    ensures "{" + GoMember(k1, v1) + "," + GoMember(k2, v2) + "," + GoMember(k3, v3) + "," + GoMember(k4, v4) + "}"
         == ("{\"" + k1 + "\":\"") + (v1 + "\"" + ((",\"" + k2 + "\":\"") + (v2 + "\"" + ((",\"" + k3 + "\":\"")
              + (v3 + "\"" + ((",\"" + k4 + "\":\"") + (v4 + "\"}")))))))
  {
    var t4 := (",\"" + k4 + "\":\"") + (v4 + "\"}");
    assert "," + GoMember(k4, v4) + "}" == t4;
    var t3 := (",\"" + k3 + "\":\"") + (v3 + "\"" + t4);
    assert "," + GoMember(k3, v3) + t4 == t3;
    var t2 := (",\"" + k2 + "\":\"") + (v2 + "\"" + t3);
    assert "," + GoMember(k2, v2) + t3 == t2;
    assert "{" + GoMember(k1, v1) + t2 == ("{\"" + k1 + "\":\"") + (v1 + "\"" + t2);
    JoinFour("{" + GoMember(k1, v1), "," + GoMember(k2, v2), "," + GoMember(k3, v3), "," + GoMember(k4, v4) + "}");
    JoinRaw("{" + GoMember(k1, v1), GoMember(k2, v2), GoMember(k3, v3), GoMember(k4, v4));
  }

  lemma JoinFour(a: string, b: string, c: string, d: string)
    ensures a + (b + (c + d)) == a + b + c + d
  {
  }

  lemma JoinRaw(a: string, b: string, c: string, d: string)
    ensures a + "," + b + "," + c + "," + d + "}" == a + ("," + b) + ("," + c) + ("," + d + "}")
  {
  }

  /**
   The TEE payload determines the record when the first three fields contain no quote; the summary, being
   last, may contain anything.
   */
  lemma GoInjective(r: Record, q: Record)
    requires '"' !in r.drivingFactor && '"' !in r.justification && '"' !in r.severity
    requires '"' !in q.drivingFactor && '"' !in q.justification && '"' !in q.severity
    requires GoPayload(r) == GoPayload(q)
    ensures r == q
  {
    GoSplit(r);
    GoSplit(q);
    var open := "{\"driving_factor\":\"";
    DropPrefix(open, GoTail(r), GoTail(q));
    var t2, u2 := AfterFirst(r), AfterFirst(q);
    SplitAtQuote(r.drivingFactor, ",\"justification\":\"" + t2, q.drivingFactor, ",\"justification\":\"" + u2);
    DropPrefix(",\"justification\":\"", t2, u2);
    var t3, u3 := AfterSecond(r), AfterSecond(q);
    SplitAtQuote(r.justification, ",\"severity\":\"" + t3, q.justification, ",\"severity\":\"" + u3);
    DropPrefix(",\"severity\":\"", t3, u3);
    SplitAtQuote(r.severity, ",\"summary\":\"" + (r.summary + "\"}"), q.severity, ",\"summary\":\"" + (q.summary + "\"}"));
    DropPrefix(",\"summary\":\"", r.summary + "\"}", q.summary + "\"}");
    DropSuffix(r.summary, q.summary, "\"}");
  }

  function AfterFirst(r: Record): string {
    r.justification + "\"" + (",\"severity\":\"" + AfterSecond(r))
  }

  function AfterSecond(r: Record): string {
    r.severity + "\"" + (",\"summary\":\"" + (r.summary + "\"}"))
  }

  lemma DropPrefix(p: string, s: string, t: string)
    requires p + s == p + t
    ensures s == t
  {
    assert s == (p + s)[|p|..] == (p + t)[|p|..] == t;
  }

  lemma DropSuffix(s: string, t: string, e: string)
    requires s + e == t + e
    ensures s == t
  {
    assert |s| == |t|;
    assert s == (s + e)[..|s|] == (t + e)[..|t|] == t;
  }

  // ---------------------------------------------------------------- the two payloads compared

  /** Drops the spaces outside strings. */
  function Compact(s: string, inside: bool): string {
    if s == "" then ""
    else if !inside then
      if s[0] in " \t\n\r" then Compact(s[1..], false) else [s[0]] + Compact(s[1..], s[0] == '"')
    else if s[0] == '\\' && |s| > 1 then s[..2] + Compact(s[2..], true)
    else [s[0]] + Compact(s[1..], s[0] != '"')
  }

  lemma CompactSurrogates(c: char, rest: string)
    requires c as int >= 0x10000
    ensures Compact(Escape(c) + rest, true) == Escape(c) + Compact(rest, true)
  {
    var high, low := Hex4(HighSurrogate(c)), Hex4(LowSurrogate(c));
    TwoUnits("\\u", high, low, rest);
    CompactUnit(high, "\\u" + (low + rest));
    CompactUnit(low, rest);
    TwoUnits("\\u", high, low, Compact(rest, true));
  }

  lemma TwoUnits(u: string, high: string, low: string, rest: string)
    ensures (u + high + u + low) + rest == u + (high + (u + (low + rest)))
  {
  }

  /** Inside a string an escaped text is kept as it is. */
  lemma CompactEscape(c: char, rest: string)
    ensures Compact(Escape(c) + rest, true) == Escape(c) + Compact(rest, true)
  {
    var e := Escape(c);
    if IsLiteral(c) {
      CompactLiteral(c, rest);
    } else if c as int >= 0x10000 {
      CompactSurrogates(c, rest);
    } else if |e| == 2 {
      EscapeParses(c, rest);
      CompactTwo(e, rest);
    } else {
      CompactUnit(Hex4(c as int), rest);
      ThreeWays("\\u", Hex4(c as int), rest, Compact(rest, true));
    }
  }

  lemma CompactLiteral(c: char, rest: string)
    requires IsLiteral(c)
    ensures Compact([c] + rest, true) == [c] + Compact(rest, true)
  {
    assert ([c] + rest)[1..] == rest;
  }

  lemma CompactTwo(e: string, rest: string)
    requires |e| == 2 && e[0] == '\\'
    ensures Compact(e + rest, true) == e + Compact(rest, true)
  {
    var s := e + rest;
    assert s[2..] == rest && s[..2] == e;
  }

  lemma ThreeWays(u: string, digits: string, rest: string, rest': string)
    ensures (u + digits) + rest == u + (digits + rest)
    ensures (u + digits) + rest' == u + (digits + rest')
  {
  }

  lemma CompactUnit(digits: string, rest: string)
    requires IsNumeral(digits, 16)
    ensures Compact("\\u" + (digits + rest), true) == "\\u" + (digits + Compact(rest, true))
  {
    var s := "\\u" + (digits + rest);
    assert s[..2] == "\\u" && s[2..] == digits + rest;
    CompactDigits(digits, rest);
  }

  lemma {:induction false} CompactDigits(digits: string, rest: string)
    requires IsNumeral(digits, 16)
    ensures Compact(digits + rest, true) == digits + Compact(rest, true)
  {
    if digits == "" {
      assert digits + rest == rest;
    } else {
      assert IsDigitIn(digits[0], 16);
      var others := digits[1..];
      CompactDigits(others, rest);
      CompactLiteral(digits[0], others + rest);
      ThreeWays([digits[0]], others, rest, Compact(rest, true));
      assert digits == [digits[0]] + others;
    }
  }

  lemma {:induction false} CompactEscaped(v: string, rest: string)
    ensures Compact(EscapeAll(v) + "\"" + rest, true) == EscapeAll(v) + "\"" + Compact(rest, false)
  {
    if v == "" {
      var t := "\"" + rest;
      assert EscapeAll(v) + "\"" + rest == t && t[0] == '"' && t[1..] == rest;
    } else {
      CompactEscaped(v[1..], rest);
      EncodeCons(true, v, "\"", rest);
      CompactEscape(v[0], EscapeAll(v[1..]) + "\"" + rest);
      EncodeCons(true, v, "\"", Compact(rest, false));
    }
  }

  /** A text of literal characters needs no escapes. */
  predicate AllLiteral(s: string) {
    forall i | 0 <= i < |s| :: IsLiteral(s[i])
  }

  lemma AllLiteralCons(s: string)
    requires s != ""
    ensures AllLiteral(s) <==> IsLiteral(s[0]) && AllLiteral(s[1..])
  {
    assert forall i | 1 <= i < |s| :: s[i] == s[1..][i - 1];
  }

  lemma {:induction false} EscapeLength(s: string)
    ensures |EscapeAll(s)| >= |s|
    ensures |EscapeAll(s)| == |s| <==> AllLiteral(s)
    ensures AllLiteral(s) ==> EscapeAll(s) == s
  {
    if s != "" {
      EscapeLength(s[1..]);
      AllLiteralCons(s);
      assert s == [s[0]] + s[1..];
    }
  }

  /** A quoted and escaped text passes through unchanged. */
  lemma CompactQuoted(v: string, rest: string)
    ensures Compact("\"" + (EscapeAll(v) + "\"" + rest), false) == "\"" + (EscapeAll(v) + "\"" + Compact(rest, false))
  {
    var s := "\"" + (EscapeAll(v) + "\"" + rest);
    assert s[1..] == EscapeAll(v) + "\"" + rest;
    CompactEscaped(v, rest);
  }

  lemma CompactSeparator(mark: string, rest: string)
    requires mark == ":" || mark == ","
    ensures Compact(mark + " " + rest, false) == mark + Compact(rest, false)
  {
    var s := mark + " " + rest;
    assert s[1..] == " " + rest;
    assert s[1..][1..] == rest;
  }

  lemma MemberLayout(q: string, key: string, colon: string, value: string, rest: string)
    ensures (q + key + q + colon + q + value + q) + rest == q + (key + q + (colon + (q + (value + q + rest))))
  {
  }

  lemma CompactMember(p: Pair, rest: string)
    requires AllLiteral(p.0)
    ensures Compact(Member(p, true, ": ") + rest, false) == Member(p, true, ":") + Compact(rest, false)
  {
    EscapeLength(p.0);
    var value := EscapeAll(p.1);
    var valueText := "\"" + (value + "\"" + rest);
    MemberLayout("\"", p.0, ": ", value, rest);
    CompactQuoted(p.0, ": " + valueText);
    assert ": " + valueText == ":" + " " + valueText;
    CompactSeparator(":", valueText);
    CompactQuoted(p.1, rest);
    MemberLayout("\"", p.0, ":", value, Compact(rest, false));
  }

  predicate LiteralKeys(pairs: seq<Pair>) {
    forall p | p in pairs :: AllLiteral(p.0)
  }

  lemma ThreeParts(a: string, b: string, c: string, d: string)
    ensures (a + b + c) + d == a + (b + (c + d))
  {
  }

  lemma {:induction false} CompactMembers(pairs: seq<Pair>, rest: string)
    requires pairs != [] && LiteralKeys(pairs)
    ensures Compact(Members(pairs, true, ": ", ", ") + rest, false) == Members(pairs, true, ":", ",") + Compact(rest, false)
    decreases |pairs|
  {
    var first := pairs[0];
    assert first in pairs;
    if |pairs| == 1 {
      CompactMember(first, rest);
    } else {
      var others := pairs[1..];
      assert LiteralKeys(others);
      var spaced := Members(others, true, ": ", ", ");
      ThreeParts(Member(first, true, ": "), ", ", spaced, rest);
      CompactMember(first, ", " + (spaced + rest));
      assert ", " + (spaced + rest) == "," + " " + (spaced + rest);
      CompactSeparator(",", spaced + rest);
      CompactMembers(others, rest);
      ThreeParts(Member(first, true, ":"), ",", Members(others, true, ":", ","), Compact(rest, false));
    }
  }

  lemma KeysAreLiteral(r: Record)
    ensures LiteralKeys(Pairs(r))
  {
  }

  lemma CompactPython(r: Record)
    ensures Compact(PythonPayload(r), false) == "{" + Members(Pairs(r), true, ":", ",") + "}"
  {
    KeysAreLiteral(r);
    var members := Members(Pairs(r), true, ": ", ", ");
    CompactMembers(Pairs(r), "}");
    CompactBraces(members);
  }

  lemma CompactBraces(members: string)
    ensures Compact("{" + members + "}", false) == "{" + Compact(members + "}", false)
    ensures Compact("}", false) == "}"
  {
    var s := "{" + members + "}";
    assert s[0] == '{' && s[1..] == members + "}";
    assert "}"[1..] == "";
  }

  predicate LiteralRecord(r: Record) {
    AllLiteral(r.drivingFactor) && AllLiteral(r.justification) && AllLiteral(r.severity) && AllLiteral(r.summary)
  }

  lemma MemberLength(p: Pair, escaped: bool)
    ensures |Member(p, escaped, ":")| == |p.0| + |Encode(escaped, p.1)| + 5
  {
  }

  /**
   The bot's payload without its structural spaces is the TEE extension's payload exactly when every field
   is printable ASCII free of quotes and backslashes.
   */
  lemma CompactPythonIsGoExactly(r: Record)
    ensures Compact(PythonPayload(r), false) == GoPayload(r) <==> LiteralRecord(r)
  {
    CompactPython(r);
    GoIsMembers(r);
    var p := Pairs(r);
    MembersOfFour(p[0], p[1], p[2], p[3], true, ":", ",");
    MembersOfFour(p[0], p[1], p[2], p[3], false, ":", ",");
    EscapeLength(r.drivingFactor);
    EscapeLength(r.justification);
    EscapeLength(r.severity);
    EscapeLength(r.summary);
    FieldsByLength(p[0]);
    FieldsByLength(p[1]);
    FieldsByLength(p[2]);
    FieldsByLength(p[3]);
    assert p == [p[0], p[1], p[2], p[3]];
  }

  lemma FieldsByLength(p: Pair)
    ensures |Member(p, true, ":")| - |Member(p, false, ":")| == |EscapeAll(p.1)| - |p.1|
    ensures AllLiteral(p.1) ==> Member(p, true, ":") == Member(p, false, ":")
  {
    EscapeLength(p.1);
    MemberLength(p, true);
    MemberLength(p, false);
  }

  /**
   The two writers never feed the hash the same text, for any two records: a hash made by the TEE extension
   is not comparable with one made by the bot.
   */
  lemma PayloadsNeverEqual(r: Record, q: Record)
    ensures PythonPayload(r) != GoPayload(q)
  {
    var p := Pairs(r);
    MembersOfFour(p[0], p[1], p[2], p[3], true, ": ", ", ");
    GoSplit(q);
    assert PythonPayload(r)[0] == '{' && |PythonPayload(r)| > 20;
    assert PythonPayload(r)[1 + 14 + 3] == ' ' by {
      assert |"driving_factor"| == 14;
      assert Member(p[0], true, ": ")[14 + 3] == ' ';
    }
    assert GoPayload(q)[1 + 14 + 3] == '"' by {
      var open := "{\"driving_factor\":\"";
      assert |open| == 19 && open[18] == '"';
    }
  }
}

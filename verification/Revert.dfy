/** Revert data: the hexadecimal fallback of the reason decoder, and the custom error it is matched to. */
module Revert {
  import opened Numerals
  import opened Options

  type Byte = b: nat | b < 256

  // ---------------------------------------------------------------- encoding/hex

  function HexByte(b: Byte): (s: string)
    ensures |s| == 2 && IsNumeral(s, 16)
  {
    [Digit(b / 16), Digit(b % 16)]
  }

  function HexEncode(data: seq<Byte>): (s: string)
    ensures |s| == 2 * |data| && IsNumeral(s, 16)
  {
    if data == [] then "" else HexByte(data[0]) + HexEncode(data[1..])
  }

  /** hex.DecodeString: an even number of digits in either case, or an error. */
  function HexDecode(s: string): Option<seq<Byte>> {
    if s == "" then Some([])
    else if |s| == 1 || !IsHexDigit(s[0]) || !IsHexDigit(s[1]) then None
    else
      var rest := HexDecode(s[2..]);
      if rest.None? then None else Some([16 * HexValue(s[0]) + HexValue(s[1])] + rest.value)
  }

  lemma {:induction false} DecodeEncoded(data: seq<Byte>)
    ensures HexDecode(HexEncode(data)) == Some(data)
  {
    if data != [] {
      DecodeEncoded(data[1..]);
      var s := HexEncode(data);
      assert s[2..] == HexEncode(data[1..]);
      assert data == [data[0]] + data[1..];
    }
  }

  /** Decoding accepts exactly the even-length digit strings. */
  lemma {:induction false} DecodesExactly(s: string)
    ensures HexDecode(s).Some? <==> |s| % 2 == 0 && IsNumeral(s, 16)
    ensures HexDecode(s).Some? ==> |HexDecode(s).value| == |s| / 2
  {
    if |s| >= 2 {
      DecodesExactly(s[2..]);
      assert forall i | 2 <= i < |s| :: s[i] == s[2..][i - 2];
    }
  }

  /** strings.TrimPrefix(s, "0x"). */
  function TrimPrefix(s: string): string {
    if |s| >= 2 && s[0] == '0' && s[1] == 'x' then s[2..] else s
  }

  /** One leading `0x` is taken off, no other. */
  lemma TrimPrefixExactly(s: string)
    ensures TrimPrefix("0x" + s) == s
    ensures !("0x" <= s) ==> TrimPrefix(s) == s
  {
    assert ("0x" + s)[2..] == s;
    assert |s| >= 2 && s[0] == '0' && s[1] == 'x' ==> s[..2] == "0x";
  }

  lemma NumeralHasNoPrefix(s: string)
    requires IsNumeral(s, 16)
    ensures TrimPrefix(s) == s && TrimPrefix("0x" + s) == s
  {
    assert ("0x" + s)[2..] == s;
    assert |s| >= 2 ==> IsDigitIn(s[1], 16);
  }

  // ---------------------------------------------------------------- the fallback and the match

  /** abi.UnpackRevert: some reason texts, for some data. */
  type ReasonDecoder = seq<Byte> -> Option<string>

  function DecodeRevertHex(text: string, reason: ReasonDecoder): (r: string)
    ensures SelectorOf(text).None? ==> r == ""
  {
    var data := HexDecode(TrimPrefix(text));
    if data.None? || |data.value| < 4 then ""
    else if reason(data.value).Some? then reason(data.value).value
    else "0x" + TrimPrefix(text)
  }

  /** Custom errors by name, with their four-byte selectors. */
  type Errors = e: map<string, seq<Byte>> | forall name | name in e :: |e[name]| == 4 witness map[]

  /** The four bytes a text is matched by: those of an even number of digits, at least eight, in either case. */
  function SelectorOf(text: string): (selector: Option<seq<Byte>>)
    ensures selector.Some? ==> |selector.value| == 4
    ensures selector.Some? <==> |TrimPrefix(text)| % 2 == 0 && |TrimPrefix(text)| >= 8 && IsNumeral(TrimPrefix(text), 16)
  {
    DecodesExactly(TrimPrefix(text));
    var data := HexDecode(TrimPrefix(text));
    if data.None? || |data.value| < 4 then None else Some(data.value[..4])
  }

  /** The name is one MatchCustomError may answer for the text. */
  predicate Selects(errors: Errors, text: string, name: string) {
    name in errors && SelectorOf(text) == Some(errors[name])
  }

  /** abi.Error.Unpack and its formatting: the arguments found in the data, if any. */
  type Unpacker = (string, seq<Byte>) -> Option<string>

  /** The name with its arguments appended, unless there are none. */
  function Describe(unpack: Unpacker, name: string, data: seq<Byte>): (r: string)
    ensures name <= r
    ensures r == name <==> unpack(name, data).GetOr("") in {"", "[]", "<nil>"}
    ensures r != name ==> unpack(name, data) == Some(r[|name|..])
  {
    var arguments := unpack(name, data);
    if arguments.Some? && arguments.value != "[]" && arguments.value != "<nil>" then name + arguments.value else name
  }

  /** MatchCustomError: Go ranges over the map in any order. */
  method MatchCustomError(errors: Errors, unpack: Unpacker, text: string) returns (found: Option<string>)
    ensures found.Some? ==> exists name :: Selects(errors, text, name)
                                           && found.value == Describe(unpack, name, HexDecode(TrimPrefix(text)).GetOr([]))
    ensures found.None? ==> forall name :: !Selects(errors, text, name)
  {
    var data := HexDecode(TrimPrefix(text));
    if data.None? || |data.value| < 4 {
      return None;
    }
    var selector := data.value[..4];
    var pending := errors.Keys;
    while pending != {}
      invariant pending <= errors.Keys
      invariant forall name | name in errors && name !in pending :: errors[name] != selector
      decreases |pending|
    {
      var name :| name in pending;
      if errors[name] == selector {
        assert Selects(errors, text, name);
        var arguments := unpack(name, data.value);
        if arguments.Some? && arguments.value != "[]" && arguments.value != "<nil>" {
          return Some(name + arguments.value);
        }
        return Some(name);
      }
      pending := pending - {name};
    }
    return None;
  }

  /** Whatever the order of the map, the text has one answer at most. */
  ghost predicate OrderIrrelevant(errors: Errors) {
    forall text, a, b :: Selects(errors, text, a) && Selects(errors, text, b) ==> a == b
  }

  predicate DistinctSelectors(errors: Errors) {
    forall x, y | x in errors && y in errors && x != y :: errors[x] != errors[y]
  }

  /** The encoded selector of an error selects that error. */
  lemma SelectorSelects(errors: Errors, name: string)
    requires name in errors
    ensures Selects(errors, HexEncode(errors[name]), name)
  {
    DecodeEncoded(errors[name]);
    NumeralHasNoPrefix(HexEncode(errors[name]));
    assert errors[name][..4] == errors[name];
  }

  /** The answer never depends on the order of the map exactly when the selectors are pairwise distinct. */
  lemma OrderIrrelevantExactly(errors: Errors)
    ensures OrderIrrelevant(errors) <==> DistinctSelectors(errors)
  {
    if !DistinctSelectors(errors) {
      var x, y :| x in errors && y in errors && x != y && errors[x] == errors[y];
      SelectorSelects(errors, x);
      SelectorSelects(errors, y);
      assert Selects(errors, HexEncode(errors[x]), x) && Selects(errors, HexEncode(errors[x]), y);
    }
  }

  /**
   For revert data the reason decoder does not accept, the fallback keeps the data: an error is selected
   exactly when it has the data's selector, with or without the `0x` prefix on either text.
   */
  lemma FallbackSelectsBySelector(errors: Errors, data: seq<Byte>, reason: ReasonDecoder, prefixed: bool, name: string)
    requires |data| >= 4 && reason(data).None? && name in errors
    ensures var text := (if prefixed then "0x" else "") + HexEncode(data);
            var fallback := DecodeRevertHex(text, reason);
            && fallback == "0x" + HexEncode(data)
            && (Selects(errors, fallback, name) <==> errors[name] == data[..4])
            && (Selects(errors, TrimPrefix(fallback), name) <==> errors[name] == data[..4])
  {
    var hex := HexEncode(data);
    DecodeEncoded(data);
    NumeralHasNoPrefix(hex);
    assert "" + hex == hex;
  }

  /** For the data of a text, an error is selected exactly when it has the data's selector. */
  predicate SelectsByData(errors: Errors, text: string, reason: ReasonDecoder) {
    forall name | name in errors ::
      Selects(errors, DecodeRevertHex(text, reason), name) <==> Some(errors[name]) == SelectorOf(text)
  }

  predicate IsSelector(errors: Errors, selector: Option<seq<Byte>>) {
    exists name | name in errors :: Some(errors[name]) == selector
  }

  /**
   For every text of at least four bytes and every reason decoder: decoding and matching select by the data
   exactly when the decoder does not accept the data, or the reason it gives is itself hexadecimal data with the
   same selector, or no error has either selector.
   */
  lemma SelectsByDataExactly(errors: Errors, text: string, reason: ReasonDecoder)
    requires SelectorOf(text).Some?
    ensures var decoded := reason(HexDecode(TrimPrefix(text)).value);
            SelectsByData(errors, text, reason) <==>
              || decoded.None?
              || SelectorOf(decoded.value) == SelectorOf(text)
              || (!IsSelector(errors, SelectorOf(text)) && !IsSelector(errors, SelectorOf(decoded.value)))
  {
    var decoded := reason(HexDecode(TrimPrefix(text)).value);
    if decoded.None? {
      NumeralHasNoPrefix(TrimPrefix(text));
      assert SelectorOf("0x" + TrimPrefix(text)) == SelectorOf(text);
    } else {
      assert DecodeRevertHex(text, reason) == decoded.value;
      if IsSelector(errors, SelectorOf(text)) && SelectorOf(decoded.value) != SelectorOf(text) {
        var name :| name in errors && Some(errors[name]) == SelectorOf(text);
        assert !Selects(errors, decoded.value, name);
      } else if IsSelector(errors, SelectorOf(decoded.value)) && SelectorOf(decoded.value) != SelectorOf(text) {
        var name :| name in errors && Some(errors[name]) == SelectorOf(decoded.value);
        assert Selects(errors, decoded.value, name);
      }
    }
  }

  /** For instance, a reason that spells other data: the error of those data is selected instead. */
  lemma HexReasonIsMatchedAsData(errors: Errors, text: string, reason: ReasonDecoder, inner: seq<Byte>, prefixed: bool, name: string)
    requires SelectorOf(text).Some? && |inner| >= 4 && name in errors
    requires reason(HexDecode(TrimPrefix(text)).value) == Some((if prefixed then "0x" else "") + HexEncode(inner))
    ensures Selects(errors, DecodeRevertHex(text, reason), name) <==> errors[name] == inner[..4]
    ensures errors[name] == inner[..4] && SelectorOf(text) != Some(inner[..4]) ==> !SelectsByData(errors, text, reason)
  {
    DecodeEncoded(inner);
    NumeralHasNoPrefix(HexEncode(inner));
    assert "" + HexEncode(inner) == HexEncode(inner);
  }
}

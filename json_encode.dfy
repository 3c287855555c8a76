/**
 * The JSON writer of Main.java (toJson / valueToJson): compact text for maps,
 * lists, strings, numbers, booleans and null. Strings are escaped for the
 * backslash and the double quote only; map keys are written as they are.
 */
module JsonEncode {
  import opened JavaText

  /**
   * The values the writer accepts. An object lists its members in the
   * iteration order of the Java map it came from; JOther stands for any other
   * object, which is written as its String.valueOf text between quotes.
   * JNumber holds the integral numbers (Integer, Long) only.
   */
  datatype JsonValue =
    | JNull
    | JBool(b: bool)
    | JNumber(n: int)
    | JString(s: string)
    | JObject(members: seq<(string, JsonValue)>)
    | JArray(items: seq<JsonValue>)
    | JOther(text: string)

  /** String.replace(target, replacement) for a one-character target. */
  function ReplaceChar(s: string, target: char, replacement: string): string
  {
    if s == [] then []
    else (if s[0] == target then replacement else [s[0]]) + ReplaceChar(s[1..], target, replacement)
  }

  /** The escaping of valueToJson: backslashes are doubled first, then each quote gets a backslash. */
  function Escape(s: string): string
  {
    ReplaceChar(ReplaceChar(s, '\\', "\\\\"), '"', "\\\"")
  }

  /** Reference definition: every character escaped on its own. */
  function EscapeChar(c: char): string
  {
    if c == '\\' then "\\\\" else if c == '"' then "\\\"" else [c]
  }

  function EscapeEach(s: string): string
  {
    if s == [] then [] else EscapeChar(s[0]) + EscapeEach(s[1..])
  }

  /** The reading a JSON parser gives to the escapes Escape produces. */
  function Unescape(s: string): string
  {
    if s == [] then []
    else if s[0] == '\\' && |s| >= 2 then [s[1]] + Unescape(s[2..])
    else [s[0]] + Unescape(s[1..])
  }

  lemma {:induction false} ReplaceCharAppend(a: string, b: string, target: char, replacement: string)
    ensures ReplaceChar(a + b, target, replacement) == ReplaceChar(a, target, replacement) + ReplaceChar(b, target, replacement)
  {
    if a == [] {
      assert a + b == b;
    } else {
      assert (a + b)[0] == a[0] && (a + b)[1..] == a[1..] + b;
      ReplaceCharAppend(a[1..], b, target, replacement);
    }
  }

  /** The two whole-string replacements do not interfere: together they escape each character separately. */
  lemma {:induction false} EscapeIsEscapeEach(s: string)
    ensures Escape(s) == EscapeEach(s)
  {
    if s != [] {
      var first := if s[0] == '\\' then "\\\\" else [s[0]];
      var rest := ReplaceChar(s[1..], '\\', "\\\\");
      assert ReplaceChar(s, '\\', "\\\\") == first + rest;
      ReplaceCharAppend(first, rest, '"', "\\\"");
      EscapeIsEscapeEach(s[1..]);
    }
  }

  lemma {:induction false} UnescapeEscapeEach(s: string)
    ensures Unescape(EscapeEach(s)) == s
  {
    if s != [] {
      var e := EscapeEach(s);
      UnescapeEscapeEach(s[1..]);
      if s[0] == '\\' || s[0] == '"' {
        assert e[2..] == EscapeEach(s[1..]);
      } else {
        assert e[1..] == EscapeEach(s[1..]);
      }
      assert s == [s[0]] + s[1..];
    }
  }

  /** Escaping loses nothing: the escaped text reads back as the original. */
  lemma UnescapeEscape(s: string)
    ensures Unescape(Escape(s)) == s
  {
    EscapeIsEscapeEach(s);
    UnescapeEscapeEach(s);
  }

  /** Text without backslashes or quotes is written unchanged. */
  lemma {:induction false} EscapeSafe(s: string)
    requires '"' !in s && '\\' !in s
    ensures Escape(s) == s
  {
    EscapeIsEscapeEach(s);
    EscapeEachSafe(s);
  }

  lemma {:induction false} EscapeEachSafe(s: string)
    requires '"' !in s && '\\' !in s
    ensures EscapeEach(s) == s
  {
    if s != [] {
      EscapeEachSafe(s[1..]);
      assert s == [s[0]] + s[1..];
    }
  }

  /** Text without quotes is escaped without quotes, and each backslash makes it longer. */
  lemma {:induction false} EscapeQuoteFree(s: string)
    requires '"' !in s
    ensures '"' !in Escape(s)
    ensures '\\' in s ==> |Escape(s)| > |s|
  {
    EscapeIsEscapeEach(s);
    EscapeEachQuoteFree(s);
  }

  lemma {:induction false} EscapeEachQuoteFree(s: string)
    requires '"' !in s
    ensures '"' !in EscapeEach(s) && |EscapeEach(s)| >= |s|
    ensures '\\' in s ==> |EscapeEach(s)| > |s|
  {
    if s != [] {
      assert s == [s[0]] + s[1..];
      EscapeEachQuoteFree(s[1..]);
    }
  }

  /** Escaping never shortens a text, and lengthens every text holding a quote or a backslash. */
  lemma EscapeGrows(s: string)
    ensures |Escape(s)| >= |s|
    ensures '"' in s || '\\' in s ==> |Escape(s)| > |s|
  {
    EscapeIsEscapeEach(s);
    EscapeEachGrows(s);
  }

  lemma {:induction false} EscapeEachGrows(s: string)
    ensures |EscapeEach(s)| >= |s|
    ensures '"' in s || '\\' in s ==> |EscapeEach(s)| > |s|
  {
    if s != [] {
      assert s == [s[0]] + s[1..];
      EscapeEachGrows(s[1..]);
    }
  }

  /** Escaping works character by character, so piecewise over a concatenation. */
  lemma {:induction false} EscapeEachAppend(a: string, b: string)
    ensures EscapeEach(a + b) == EscapeEach(a) + EscapeEach(b)
    decreases |a|
  {
    if a != [] {
      assert (a + b)[1..] == a[1..] + b;
      assert (a + b)[0] == a[0];
      EscapeEachAppend(a[1..], b);
      calc {
        EscapeEach(a + b);
        EscapeChar(a[0]) + EscapeEach(a[1..] + b);
        EscapeChar(a[0]) + (EscapeEach(a[1..]) + EscapeEach(b));
        (EscapeChar(a[0]) + EscapeEach(a[1..])) + EscapeEach(b);
        EscapeEach(a) + EscapeEach(b);
      }
    } else {
      assert a + b == b;
    }
  }

  /** `"key":value`, one object member; the key is not escaped. */
  function MemberToJson(key: string, text: string): string
  {
    "\"" + key + "\":" + text
  }

  /** valueToJson, together with the toJson it calls for nested maps and lists. */
  function ValueToJson(v: JsonValue): string
  {
    match v
    case JNull => "null"
    case JBool(b) => if b then "true" else "false"
    case JNumber(n) => IntToString(n)
    case JString(s) => "\"" + Escape(s) + "\""
    case JObject(ms) =>
      "{" + Join(",", seq(|ms|, i requires 0 <= i < |ms| => MemberToJson(ms[i].0, ValueToJson(ms[i].1)))) + "}"
    case JArray(items) =>
      "[" + Join(",", seq(|items|, i requires 0 <= i < |items| => ValueToJson(items[i]))) + "]"
    case JOther(text) => "\"" + text + "\""
  }

  function MemberTexts(ms: seq<(string, JsonValue)>): (r: seq<string>)
    ensures |r| == |ms|
    ensures forall i :: 0 <= i < |ms| ==> r[i] == MemberToJson(ms[i].0, ValueToJson(ms[i].1))
  {
    seq(|ms|, i requires 0 <= i < |ms| => MemberToJson(ms[i].0, ValueToJson(ms[i].1)))
  }

  function ItemTexts(items: seq<JsonValue>): (r: seq<string>)
    ensures |r| == |items|
    ensures forall i :: 0 <= i < |items| ==> r[i] == ValueToJson(items[i])
  {
    seq(|items|, i requires 0 <= i < |items| => ValueToJson(items[i]))
  }

  /** A map is written as its members' texts joined by commas, between braces. */
  lemma ObjectText(ms: seq<(string, JsonValue)>)
    ensures ValueToJson(JObject(ms)) == "{" + Join(",", MemberTexts(ms)) + "}"
  {
  }

  /** One more part on a joined prefix: the separator, unless it is the first, then the part. */
  lemma JoinStep(open: string, sep: string, parts: seq<string>, i: nat)
    requires i < |parts|
    ensures open + Join(sep, parts[..i + 1]) == open + Join(sep, parts[..i]) + (if i == 0 then "" else sep) + parts[i]
  {
    assert parts[..i + 1] == parts[..i] + [parts[i]];
    JoinSnoc(sep, parts[..i], parts[i]);
  }

  /** The object branch of toJson: members in iteration order, a comma before all but the first. */
  method ObjectToJson(ms: seq<(string, JsonValue)>) returns (text: string)
    ensures text == ValueToJson(JObject(ms))
  {
    var sb := "{";
    var first := true;
    var i := 0;
    while i < |ms|
      invariant 0 <= i <= |ms|
      invariant first <==> i == 0
      invariant sb == "{" + Join(",", MemberTexts(ms)[..i])
    {
      JoinStep("{", ",", MemberTexts(ms), i);
      var piece := "\"" + ms[i].0 + "\":" + ValueToJson(ms[i].1);
      assert piece == MemberTexts(ms)[i];
      if !first {
        sb := sb + ",";
      }
      first := false;
      sb := sb + piece;
      i := i + 1;
    }
    assert MemberTexts(ms)[..|ms|] == MemberTexts(ms);
    text := sb + "}";
  }

  /** The list branch of toJson: items in order, a comma before all but the first. */
  method ArrayToJson(items: seq<JsonValue>) returns (text: string)
    ensures text == ValueToJson(JArray(items))
  {
    var sb := "[";
    var first := true;
    var i := 0;
    while i < |items|
      invariant 0 <= i <= |items|
      invariant first <==> i == 0
      invariant sb == "[" + Join(",", ItemTexts(items)[..i])
    {
      JoinStep("[", ",", ItemTexts(items), i);
      var piece := ValueToJson(items[i]);
      assert piece == ItemTexts(items)[i];
      if !first {
        sb := sb + ",";
      }
      first := false;
      sb := sb + piece;
      i := i + 1;
    }
    assert ItemTexts(items)[..|items|] == ItemTexts(items);
    text := sb + "]";
  }

  /** toJson: maps and lists through their loops, anything else as valueToJson writes it. */
  method ToJson(v: JsonValue) returns (text: string)
    ensures text == ValueToJson(v)
  {
    match v {
      case JObject(ms) => text := ObjectToJson(ms);
      case JArray(items) => text := ArrayToJson(items);
      case _ => text := ValueToJson(v);
    }
  }
}

/**
 * What the reader gives back from the writer's text. For a flat object whose
 * values are strings, whose keys and values hold no double quote and no
 * backslash, and whose keys hold no colon, parseJsonObject(toJson(m)) is m.
 * The bearer token depends on this for its claims (Main.java createToken and
 * authenticate). Outside those conditions the two disagree, because the
 * writer escapes and the reader does not unescape.
 */
module JsonRoundTrip {
  import opened Wrappers
  import opened JavaText
  import opened JsonEncode
  import opened JsonDecode

  /** Text the writer leaves as it is and the reader does not cut: no quote, no backslash. */
  predicate Plain(s: string) {
    '"' !in s && '\\' !in s
  }

  /** Members that survive the round trip: plain string values under plain, colon-free keys. */
  predicate FlatPlain(ms: seq<(string, JsonValue)>) {
    forall i :: 0 <= i < |ms| ==> Plain(ms[i].0) && ':' !in ms[i].0 && ms[i].1.JString? && Plain(ms[i].1.s)
  }

  /** The map a list of string members denotes when put one after another: a later key overrides. */
  function MapOf(ms: seq<(string, JsonValue)>): map<string, string>
    requires forall i :: 0 <= i < |ms| ==> ms[i].1.JString?
  {
    if ms == [] then map[]
    else MapOf(ms[..|ms| - 1])[ms[|ms| - 1].0 := ms[|ms| - 1].1.s]
  }

  function Quoted(x: string): string {
    "\"" + x + "\""
  }

  /** The text of a plain member is its quoted key, a colon and its quoted value. */
  lemma MemberShape(ms: seq<(string, JsonValue)>, i: nat)
    requires FlatPlain(ms) && i < |ms|
    ensures MemberTexts(ms)[i] == Quoted(ms[i].0) + ":" + Quoted(ms[i].1.s)
  {
    EscapeSafe(ms[i].1.s);
  }

  /** Inside quotes, text without a quote goes into the current piece whole. */
  lemma {:induction false} RunInside(pairs: seq<string>, token: string, x: string)
    requires '"' !in x
    ensures Run(ScanState(pairs, token, true), x) == ScanState(pairs, token + x, true)
    decreases |x|
  {
    if x != [] {
      var init := x[..|x| - 1];
      RunInside(pairs, token, init);
      assert token + init + [x[|x| - 1]] == token + x;
    }
  }

  /** A quoted text without inner quotes is read into the current piece, and the flag is off again after it. */
  lemma RunQuoted(pairs: seq<string>, token: string, x: string)
    requires '"' !in x
    ensures Run(ScanState(pairs, token, false), Quoted(x)) == ScanState(pairs, token + Quoted(x), false)
  {
    var st := ScanState(pairs, token, false);
    assert Run(st, "\"") == ScanState(pairs, token + "\"", true);
    RunAppend(st, "\"", x);
    RunInside(pairs, token + "\"", x);
    RunAppend(st, "\"" + x, "\"");
    assert Quoted(x) == "\"" + x + "\"";
    assert token + "\"" + x + "\"" == token + Quoted(x);
  }

  /** One plain member is read as one piece. */
  lemma RunMember(pairs: seq<string>, k: string, v: string)
    requires '"' !in k && '"' !in v
    ensures Run(ScanState(pairs, "", false), Quoted(k) + ":" + Quoted(v))
            == ScanState(pairs, Quoted(k) + ":" + Quoted(v), false)
  {
    var st := ScanState(pairs, "", false);
    RunQuoted(pairs, "", k);
    assert "" + Quoted(k) == Quoted(k);
    RunAppend(st, Quoted(k), ":");
    RunAppend(st, Quoted(k) + ":", Quoted(v));
    RunQuoted(pairs, Quoted(k) + ":", v);
  }

  /** The members joined by commas are read as one piece each; the last is still open. */
  lemma {:induction false} RunMembers(ms: seq<(string, JsonValue)>, n: nat)
    requires FlatPlain(ms) && 1 <= n <= |ms|
    ensures var ts := MemberTexts(ms);
            Run(Start, Join(",", ts[..n])) == ScanState(ts[..n - 1], ts[n - 1], false)
  {
    var ts := MemberTexts(ms);
    MemberShape(ms, n - 1);
    if n == 1 {
      assert Join(",", ts[..1]) == ts[0];
      RunMember([], ms[0].0, ms[0].1.s);
    } else {
      RunMembers(ms, n - 1);
      RunTextsStep(ts, n, ms[n - 1].0, ms[n - 1].1.s);
    }
  }

  /** The run over n joined texts, from the run over the first n - 1 and the shape of the last. */
  lemma RunTextsStep(ts: seq<string>, n: nat, k: string, v: string)
    requires 2 <= n <= |ts| && '"' !in k && '"' !in v
    requires ts[n - 1] == Quoted(k) + ":" + Quoted(v)
    requires Run(Start, Join(",", ts[..n - 1])) == ScanState(ts[..n - 2], ts[n - 2], false)
    ensures Run(Start, Join(",", ts[..n])) == ScanState(ts[..n - 1], ts[n - 1], false)
  {
    var prev := Join(",", ts[..n - 1]);
    assert ts[..n] == ts[..n - 1] + [ts[n - 1]];
    JoinSnoc(",", ts[..n - 1], ts[n - 1]);
    RunAfterComma(prev, ts[..n - 2], ts[n - 2], k, v);
    assert ts[..n - 2] + [ts[n - 2]] == ts[..n - 1];
  }

  /** A comma closes the open piece, and the next member opens a new one. */
  lemma RunAfterComma(prev: string, pairs: seq<string>, last: string, k: string, v: string)
    requires Run(Start, prev) == ScanState(pairs, last, false) && '"' !in k && '"' !in v
    ensures Run(Start, prev + "," + (Quoted(k) + ":" + Quoted(v)))
            == ScanState(pairs + [last], Quoted(k) + ":" + Quoted(v), false)
  {
    RunAppend(Start, prev, ",");
    RunAppend(Start, prev + ",", Quoted(k) + ":" + Quoted(v));
    RunMember(pairs + [last], k, v);
  }

  /** Each member's piece gives back its key and value. */
  lemma MemberEntry(ms: seq<(string, JsonValue)>, i: nat)
    requires FlatPlain(ms) && i < |ms|
    ensures FieldEntry(MemberTexts(ms)[i]) == Pair(ms[i].0, ms[i].1.s)
  {
    var k, v := ms[i].0, ms[i].1.s;
    MemberShape(ms, i);
    assert ':' !in Quoted(k);
    SplitFirstColonValue(Quoted(k), Quoted(v));
    StripQuotesQuoted(k);
    StripQuotesQuoted(v);
  }

  lemma {:induction false} BuildMapMembers(ms: seq<(string, JsonValue)>)
    requires FlatPlain(ms)
    ensures BuildMap(Entries(MemberTexts(ms))) == Some(MapOf(ms))
    decreases |ms|
  {
    if ms != [] {
      var init := ms[..|ms| - 1];
      assert FlatPlain(init);
      BuildMapMembers(init);
      assert Entries(MemberTexts(ms))[..|ms| - 1] == Entries(MemberTexts(init));
      MemberEntry(ms, |ms| - 1);
    }
  }

  /** The reader looks only between the braces the writer puts around a map. */
  lemma InnerBraced(body: string)
    ensures Inner("{" + body + "}") == body
  {
    var text := "{" + body + "}";
    assert text[0] == '{' && text[|text| - 1] == '}';
    assert Trim(text) == text;
  }

  lemma InnerOfObject(ms: seq<(string, JsonValue)>)
    ensures Inner(ValueToJson(JObject(ms))) == Join(",", MemberTexts(ms))
  {
    ObjectText(ms);
    InnerBraced(Join(",", MemberTexts(ms)));
  }

  /** The pieces of the joined member texts are the member texts. */
  lemma FieldsOfMembers(ms: seq<(string, JsonValue)>)
    requires FlatPlain(ms)
    ensures Fields(Join(",", MemberTexts(ms))) == MemberTexts(ms)
  {
    var ts := MemberTexts(ms);
    if ms != [] {
      RunMembers(ms, |ms|);
      assert ts[..|ms|] == ts;
      MemberShape(ms, |ms| - 1);
      assert ts[..|ms| - 1] + [ts[|ms| - 1]] == ts;
    }
  }

  /** parseJsonObject(toJson(m)) == m for a flat object of plain strings. */
  lemma DecodeEncodeFlat(ms: seq<(string, JsonValue)>)
    requires FlatPlain(ms)
    ensures DecodeObject(Some(ValueToJson(JObject(ms)))) == Some(MapOf(ms))
  {
    InnerOfObject(ms);
    FieldsOfMembers(ms);
    BuildMapMembers(ms);
  }

  /** With distinct keys every member can be looked up by its key. */
  lemma {:induction false} MapOfDistinct(ms: seq<(string, JsonValue)>)
    requires forall i :: 0 <= i < |ms| ==> ms[i].1.JString?
    requires forall i, j :: 0 <= i < j < |ms| ==> ms[i].0 != ms[j].0
    ensures forall i :: 0 <= i < |ms| ==> ms[i].0 in MapOf(ms) && MapOf(ms)[ms[i].0] == ms[i].1.s
    ensures forall k :: k in MapOf(ms) ==> exists i :: 0 <= i < |ms| && ms[i].0 == k
    decreases |ms|
  {
    if ms != [] {
      var init := ms[..|ms| - 1];
      MapOfDistinct(init);
      forall k | k in MapOf(ms) ensures exists i :: 0 <= i < |ms| && ms[i].0 == k {
        if k != ms[|ms| - 1].0 {
          var i :| 0 <= i < |init| && init[i].0 == k;
          assert ms[i].0 == k;
        }
      }
    }
  }

  /**
   * Keys are written as they are, between quotes, while the same text as a
   * string value would be escaped: for a key holding a quote or a backslash
   * the two writings differ.
   */
  lemma KeyNotEscaped(k: string, v: JsonValue)
    ensures ValueToJson(JObject([(k, v)])) == "{" + Quoted(k) + ":" + ValueToJson(v) + "}"
    ensures '"' in k || '\\' in k ==> Quoted(k) != ValueToJson(JString(k))
  {
    var ms := [(k, v)];
    var member := Quoted(k) + ":" + ValueToJson(v);
    assert MemberTexts(ms)[0] == member;
    assert MemberTexts(ms) == [member];
    assert Join(",", [member]) == member;
    ObjectText(ms);
    EscapeGrows(k);
  }

  /** A backslash in a string value is written doubled, the text around it escaped as usual. */
  lemma BackslashWrittenDoubled(a: string, b: string)
    ensures ValueToJson(JString(a + "\\" + b)) == "\"" + Escape(a) + "\\\\" + Escape(b) + "\""
  {
    EscapeIsEscapeEach(a + "\\" + b);
    EscapeIsEscapeEach(a);
    EscapeIsEscapeEach(b);
    EscapeEachAppend(a + "\\", b);
    EscapeEachAppend(a, "\\");
    assert EscapeEach("\\") == "\\\\" by {
      assert "\\"[1..] == [];
    }
  }

  /** The piece of one member with quote-free key and value is that key and value. */
  lemma QuotedEntry(k: string, v: string)
    requires '"' !in k && ':' !in k
    ensures FieldEntry(Quoted(k) + ":" + Quoted(v)) == Pair(k, v)
  {
    assert ':' !in Quoted(k);
    SplitFirstColonValue(Quoted(k), Quoted(v));
    StripQuotesQuoted(k);
    StripQuotesQuoted(v);
  }

  /** One member with quote-free key and value is read back as it stands, backslashes included. */
  lemma DecodeOneMember(k: string, v: string)
    requires '"' !in k && ':' !in k && '"' !in v
    ensures DecodeObject(Some("{" + Quoted(k) + ":" + Quoted(v) + "}")) == Some(map[k := v])
  {
    var body := Quoted(k) + ":" + Quoted(v);
    assert "{" + Quoted(k) + ":" + Quoted(v) + "}" == "{" + body + "}";
    InnerBraced(body);
    RunMember([], k, v);
    QuotedEntry(k, v);
    OneEntry(body, k, v);
  }

  lemma OneEntry(body: string, k: string, v: string)
    requires Run(Start, body) == ScanState([], body, false) && body != []
    requires FieldEntry(body) == Pair(k, v)
    ensures BuildMap(Entries(Fields(body))) == Some(map[k := v])
  {
    assert Fields(body) == [body];
    var es := Entries([body]);
    assert es == [Pair(k, v)];
    assert es[..0] == [];
  }

  /**
   * The reader does not undo the writer's escape: a quote-free string value
   * comes back in its escaped form, so any backslash in it (written doubled)
   * is read back doubled and the round trip fails.
   */
  lemma BackslashReadDoubled(k: string, v: string)
    requires '"' !in k && ':' !in k && '"' !in v
    ensures DecodeObject(Some(ValueToJson(JObject([(k, JString(v))])))) == Some(map[k := Escape(v)])
    ensures '\\' in v ==> DecodeObject(Some(ValueToJson(JObject([(k, JString(v))])))) != Some(map[k := v])
  {
    var ms := [(k, JString(v))];
    var e := Escape(v);
    EscapeQuoteFree(v);
    var member := Quoted(k) + ":" + Quoted(e);
    assert MemberTexts(ms)[0] == member;
    assert MemberTexts(ms) == [member];
    assert Join(",", [member]) == member;
    ObjectText(ms);
    assert "{" + member + "}" == "{" + Quoted(k) + ":" + Quoted(e) + "}";
    DecodeOneMember(k, e);
    if '\\' in v {
      assert map[k := e][k] != map[k := v][k];
    }
  }
}

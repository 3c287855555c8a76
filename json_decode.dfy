/**
 * The lenient JSON reader of Main.java (parseJsonObject / stripQuotes). It
 * is not a JSON parser: it cuts the text between the braces at every comma
 * met while an even number of double quotes has been seen, cuts each piece at
 * its first colon and strips one pair of surrounding quotes from both halves.
 * Nothing is unescaped. A piece whose trimmed key or value is a single `"`
 * makes stripQuotes call substring(1, 0), which throws; that is None here.
 */
module JsonDecode {
  import opened Wrappers
  import opened JavaText

  /**
   * stripQuotes: the trimmed text, without its first and last character when
   * both are double quotes; None for the lone quote that makes it throw.
   */
  function StripQuotes(s: string): (r: Option<string>)
    ensures r.None? <==> Trim(s) == "\""
    ensures r.Some? ==> Trim(s) == r.value || Trim(s) == "\"" + r.value + "\""
  {
    var t := Trim(s);
    if t != [] && t[0] == '"' && t[|t| - 1] == '"' then
      if |t| == 1 then None
      else assert t == "\"" + t[1..|t| - 1] + "\""; Some(t[1..|t| - 1])
    else Some(t)
  }

  /** Quoting is undone by stripQuotes, whatever the quoted text holds. */
  lemma StripQuotesQuoted(x: string)
    ensures StripQuotes("\"" + x + "\"") == Some(x)
  {
    var q := "\"" + x + "\"";
    assert Trim(q) == q;
    assert q[1..|q| - 1] == x;
  }

  /** Surrounding blanks do not matter: text that trims to a quoted x gives back x. */
  lemma StripQuotesTrimmedQuoted(s: string, x: string)
    requires Trim(s) == "\"" + x + "\""
    ensures StripQuotes(s) == Some(x)
  {
    var q := "\"" + x + "\"";
    assert q[0] == '"' && q[|q| - 1] == '"' && |q| >= 2;
    assert q[1..|q| - 1] == x;
  }

  /** Text that, once trimmed, neither starts nor ends with a quote comes back trimmed. */
  lemma StripQuotesUnquoted(s: string)
    requires Trim(s) == [] || Trim(s)[0] != '"' || Trim(s)[|Trim(s)| - 1] != '"'
    ensures StripQuotes(s) == Some(Trim(s))
  {
  }

  /** The scanner's variables: the finished pieces, the piece being read and the quote flag. */
  datatype ScanState = ScanState(pairs: seq<string>, token: string, inString: bool)

  const Start := ScanState([], "", false)

  /** One turn of the scanning loop: a quote flips the flag; a comma outside quotes ends the piece. */
  function Step(st: ScanState, c: char): ScanState
  {
    var inString := if c == '"' then !st.inString else st.inString;
    if c == ',' && !inString then ScanState(st.pairs + [st.token], "", inString)
    else ScanState(st.pairs, st.token + [c], inString)
  }

  /** The scanning loop run over s from state st. */
  function Run(st: ScanState, s: string): ScanState
    decreases |s|
  {
    if s == [] then st else Step(Run(st, s[..|s| - 1]), s[|s| - 1])
  }

  /** The pieces of the text: those the loop finished, and the last one when it is not empty. */
  function Fields(s: string): seq<string>
  {
    var st := Run(Start, s);
    if st.token != [] then st.pairs + [st.token] else st.pairs
  }

  lemma {:induction false} RunAppend(st: ScanState, a: string, b: string)
    ensures Run(st, a + b) == Run(Run(st, a), b)
    decreases |b|
  {
    if b == [] {
      assert a + b == a;
    } else {
      assert (a + b)[..|a + b| - 1] == a + b[..|b| - 1];
      RunAppend(st, a, b[..|b| - 1]);
    }
  }

  function QuoteCount(s: string): nat
  {
    if s == [] then 0 else QuoteCount(s[..|s| - 1]) + (if s[|s| - 1] == '"' then 1 else 0)
  }

  /** The flag is on exactly when an odd number of quotes has been read. */
  lemma {:induction false} RunInString(s: string)
    ensures Run(Start, s).inString <==> QuoteCount(s) % 2 == 1
    decreases |s|
  {
    if s != [] {
      RunInString(s[..|s| - 1]);
    }
  }

  /**
   * Nothing is lost or reordered: the pieces read so far and the current
   * piece, joined by commas, are the text read so far.
   */
  lemma {:induction false} RunJoin(s: string)
    ensures Join(",", Run(Start, s).pairs + [Run(Start, s).token]) == s
    decreases |s|
  {
    if s != [] {
      var init, c := s[..|s| - 1], s[|s| - 1];
      var st := Run(Start, init);
      RunJoin(init);
      assert s == init + [c];
      var next := Step(st, c);
      assert Run(Start, s) == next;
      if c == ',' && !next.inString {
        JoinCommaStep(st.pairs, st.token);
      } else {
        JoinCharStep(st.pairs, st.token, c);
      }
    }
  }

  /** Closing the current piece at a comma adds the comma to the joined text. */
  lemma JoinCommaStep(pairs: seq<string>, token: string)
    ensures Join(",", pairs + [token] + [""]) == Join(",", pairs + [token]) + ","
  {
    JoinSnoc(",", pairs + [token], "");
  }

  /** Appending a character to the current piece appends it to the joined text. */
  lemma JoinCharStep(pairs: seq<string>, token: string, c: char)
    ensures Join(",", pairs + [token + [c]]) == Join(",", pairs + [token]) + [c]
  {
    JoinSnoc(",", pairs, token + [c]);
    JoinSnoc(",", pairs, token);
    if pairs != [] {
      var j := Join(",", pairs);
      assert j + "," + (token + [c]) == (j + "," + token) + [c];
    }
  }

  /** A comma read after an even number of quotes ends the current piece. */
  lemma CommaOutsideQuotes(a: string, b: string)
    requires QuoteCount(a) % 2 == 0
    ensures var st := Run(Start, a);
            Run(Start, a + "," + b) == Run(ScanState(st.pairs + [st.token], "", false), b)
  {
    RunInString(a);
    RunAppend(Start, a + ",", b);
    RunAppend(Start, a, ",");
  }

  /** A comma read after an odd number of quotes stays in the current piece. */
  lemma CommaInsideQuotes(a: string, b: string)
    requires QuoteCount(a) % 2 == 1
    ensures var st := Run(Start, a);
            Run(Start, a + "," + b) == Run(ScanState(st.pairs, st.token + ",", true), b)
  {
    RunInString(a);
    RunAppend(Start, a + ",", b);
    RunAppend(Start, a, ",");
  }

  /** p.split(":", 2) with two parts: the text before the first colon and everything after it. */
  function SplitFirstColon(p: string): (r: Option<(string, string)>)
    ensures r.None? <==> ':' !in p
    ensures r.Some? ==> p == r.value.0 + ":" + r.value.1 && ':' !in r.value.0
  {
    match IndexOf(p, ':')
    case None => None
    case Some(i) => assert p == p[..i] + ":" + p[i + 1..]; Some((p[..i], p[i + 1..]))
  }

  /** The key never holds a colon, so the value keeps every later colon. */
  lemma SplitFirstColonValue(key: string, value: string)
    requires ':' !in key
    ensures SplitFirstColon(key + ":" + value) == Some((key, value))
  {
    var p := key + ":" + value;
    var r := SplitFirstColon(p);
    assert p[..|key|] == key;
    IndexOfFirst(p, ':', |key|);
    assert r.value.1 == p[|key| + 1..] == value;
  }

  /** What one piece contributes: nothing without a colon, a key and value, or an exception. */
  datatype Entry = NoColon | Pair(key: string, value: string) | Throws

  function FieldEntry(p: string): (e: Entry)
    ensures e.NoColon? <==> ':' !in p
  {
    match SplitFirstColon(p)
    case None => NoColon
    case Some((k, v)) =>
      match StripQuotes(Trim(k))
      case None => Throws
      case Some(key) =>
        match StripQuotes(Trim(v))
        case None => Throws
        case Some(value) => Pair(key, value)
  }

  function Entries(fields: seq<string>): (es: seq<Entry>)
    ensures |es| == |fields|
    ensures forall i :: 0 <= i < |fields| ==> es[i] == FieldEntry(fields[i])
  {
    seq(|fields|, i requires 0 <= i < |fields| => FieldEntry(fields[i]))
  }

  /** The map.put loop over the pieces' entries: a later key overrides an earlier one; None once one throws. */
  function BuildMap(es: seq<Entry>): Option<map<string, string>>
  {
    if es == [] then Some(map[])
    else match BuildMap(es[..|es| - 1])
      case None => None
      case Some(m) =>
        match es[|es| - 1]
        case NoColon => Some(m)
        case Throws => None
        case Pair(k, v) => Some(m[k := v])
  }

  /** The whole parse throws exactly when one of its pieces does. */
  lemma {:induction false} BuildMapThrows(es: seq<Entry>)
    ensures BuildMap(es).None? <==> Throws in es
    decreases |es|
  {
    if es != [] {
      var init := es[..|es| - 1];
      BuildMapThrows(init);
      assert es == init + [es[|es| - 1]];
    }
  }

  /** A key is in the result exactly when some entry holds it. */
  lemma {:induction false} BuildMapKeys(es: seq<Entry>, m: map<string, string>, k: string)
    requires BuildMap(es) == Some(m)
    ensures k in m <==> exists i :: 0 <= i < |es| && es[i].Pair? && es[i].key == k
    decreases |es|
  {
    if es != [] {
      var init := es[..|es| - 1];
      BuildMapKeys(init, BuildMap(init).value, k);
      if exists i :: 0 <= i < |es| && es[i].Pair? && es[i].key == k {
        var i :| 0 <= i < |es| && es[i].Pair? && es[i].key == k;
        if i < |init| {
          assert init[i] == es[i];
        }
      }
    }
  }

  /** The value of a key is the one of the last entry that holds it. */
  lemma {:induction false} BuildMapLastWins(es: seq<Entry>, m: map<string, string>, i: nat, k: string, v: string)
    requires BuildMap(es) == Some(m)
    requires i < |es| && es[i] == Pair(k, v)
    requires forall j :: i < j < |es| ==> !(es[j].Pair? && es[j].key == k)
    ensures k in m && m[k] == v
    decreases |es|
  {
    var init := es[..|es| - 1];
    if i < |es| - 1 {
      assert init[i] == es[i];
      BuildMapLastWins(init, BuildMap(init).value, i, k, v);
    }
  }

  lemma BuildMapPrefixThrows(es: seq<Entry>, n: nat)
    requires n <= |es| && BuildMap(es[..n]).None?
    ensures BuildMap(es).None?
  {
    BuildMapThrows(es[..n]);
    BuildMapThrows(es);
  }

  /** The text the scanner works on: the trimmed input, less its braces when it has both. */
  function Inner(json: string): (r: string)
    ensures |r| <= |json|
  {
    var s := Trim(json);
    if s != [] && s[0] == '{' && s[|s| - 1] == '}' then s[1..|s| - 1] else s
  }

  /** parseJsonObject: null gives the empty map; None when stripQuotes throws. */
  function DecodeObject(json: Option<string>): (r: Option<map<string, string>>)
    ensures json.None? ==> r == Some(map[])
  {
    match json
    case None => Some(map[])
    case Some(text) => BuildMap(Entries(Fields(Inner(text))))
  }

  /** Text that holds no colon yields no field at all. */
  lemma {:induction false} BuildMapNoColon(es: seq<Entry>)
    requires forall i :: 0 <= i < |es| ==> es[i].NoColon?
    ensures BuildMap(es) == Some(map[])
    decreases |es|
  {
    if es != [] {
      BuildMapNoColon(es[..|es| - 1]);
    }
  }

  lemma {:induction false} RunNoColon(st: ScanState, s: string)
    requires ':' !in st.token && (forall i :: 0 <= i < |st.pairs| ==> ':' !in st.pairs[i])
    requires ':' !in s
    ensures var r := Run(st, s);
            ':' !in r.token && forall i :: 0 <= i < |r.pairs| ==> ':' !in r.pairs[i]
    decreases |s|
  {
    if s != [] {
      RunNoColon(st, s[..|s| - 1]);
    }
  }

  /** Input without any colon, such as "{not json}", decodes to the empty map. */
  lemma DecodeWithoutColon(json: string)
    requires ':' !in json
    ensures DecodeObject(Some(json)) == Some(map[])
  {
    var s := Inner(json);
    TrimKeeps(json, ':');
    assert ':' !in s;
    RunNoColon(Start, s);
    var fs := Fields(s);
    assert forall i :: 0 <= i < |fs| ==> ':' !in fs[i];
    var es := Entries(fs);
    assert forall i :: 0 <= i < |es| ==> es[i].NoColon?;
    BuildMapNoColon(es);
  }

  /** One more character read. */
  lemma RunStep(s: string, i: nat)
    requires i < |s|
    ensures Run(Start, s[..i + 1]) == Step(Run(Start, s[..i]), s[i])
  {
    assert s[..i + 1][..i] == s[..i];
  }

  /** One more entry put into the map. */
  lemma BuildMapStep(es: seq<Entry>, j: nat, m: map<string, string>)
    requires j < |es| && BuildMap(es[..j]) == Some(m)
    ensures BuildMap(es[..j + 1]) == match es[j]
                                      case NoColon => Some(m)
                                      case Throws => None
                                      case Pair(k, v) => Some(m[k := v])
  {
    assert es[..j + 1][..j] == es[..j];
  }

  /** The scanning loop of parseJsonObject, with the last piece added when it is not empty. */
  method ScanFields(s: string) returns (pairs: seq<string>)
    ensures pairs == Fields(s)
  {
    var i := 0;
    var token := "";
    var inString := false;
    pairs := [];
    while i < |s|
      invariant 0 <= i <= |s|
      invariant Run(Start, s[..i]) == ScanState(pairs, token, inString)
    {
      var c := s[i];
      RunStep(s, i);
      if c == '"' {
        inString := !inString;
      }
      if c == ',' && !inString {
        pairs := pairs + [token];
        token := "";
      } else {
        token := token + [c];
      }
      i := i + 1;
    }
    assert s[..i] == s;
    if |token| > 0 {
      pairs := pairs + [token];
    }
  }

  /** The loop that splits each piece at its first colon and puts the stripped key and value into the map. */
  method FillMap(pairs: seq<string>) returns (r: Option<map<string, string>>)
    ensures r == BuildMap(Entries(pairs))
  {
    ghost var es := Entries(pairs);
    var m: map<string, string> := map[];
    var j := 0;
    while j < |pairs|
      invariant 0 <= j <= |pairs|
      invariant BuildMap(es[..j]) == Some(m)
    {
      BuildMapStep(es, j, m);
      assert es[j] == FieldEntry(pairs[j]);
      var kv := SplitFirstColon(pairs[j]);
      if kv.Some? {
        var key := StripQuotes(Trim(kv.value.0));
        if key.None? {
          BuildMapPrefixThrows(es, j + 1);
          return None;
        }
        var val := StripQuotes(Trim(kv.value.1));
        if val.None? {
          BuildMapPrefixThrows(es, j + 1);
          return None;
        }
        m := m[key.value := val.value];
      }
      j := j + 1;
    }
    assert es[..j] == es;
    r := Some(m);
  }

  /** parseJsonObject itself: null gives the empty map; otherwise the two loops over the inner text. */
  method ParseJsonObject(json: Option<string>) returns (r: Option<map<string, string>>)
    ensures r == DecodeObject(json)
  {
    if json.None? {
      return Some(map[]);
    }
    var pairs := ScanFields(Inner(json.value));
    r := FillMap(pairs);
  }
}

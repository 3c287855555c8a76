/**
 * The java.lang.String operations that the authentication core relies on:
 * trim, isBlank, ASCII lower-casing, equalsIgnoreCase against ASCII literals,
 * indexOf, split on a single character and decimal rendering of integers.
 */
module JavaText {
  import opened Wrappers

  /** String.trim() removes every leading and trailing character at or below U+0020. */
  predicate IsTrimmable(c: char) {
    c <= ' '
  }

  /** The first position at or after i whose character String.trim() keeps, or |s|. */
  function TrimFrom(s: string, i: nat): (n: nat)
    requires i <= |s|
    ensures i <= n <= |s|
    ensures forall k :: i <= k < n ==> IsTrimmable(s[k])
    ensures n < |s| ==> !IsTrimmable(s[n])
    decreases |s| - i
  {
    if i < |s| && IsTrimmable(s[i]) then TrimFrom(s, i + 1) else i
  }

  /** The end of the kept text: j moved down past trimmable characters, but not below lo. */
  function TrimUntil(s: string, lo: nat, j: nat): (n: nat)
    requires lo <= j <= |s|
    ensures lo <= n <= j
    ensures forall k :: n <= k < j ==> IsTrimmable(s[k])
    ensures n > lo ==> !IsTrimmable(s[n - 1])
  {
    if j > lo && IsTrimmable(s[j - 1]) then TrimUntil(s, lo, j - 1) else j
  }

  /** Where the text kept by String.trim() starts. */
  function TrimOffset(s: string): (i: nat)
    ensures i <= |s|
  {
    TrimFrom(s, 0)
  }

  /**
   * String.trim(): the slice of s that neither starts nor ends with a
   * character at or below U+0020.
   */
  function Trim(s: string): (r: string)
    ensures r == [] || (!IsTrimmable(r[0]) && !IsTrimmable(r[|r| - 1]))
    ensures TrimOffset(s) + |r| <= |s| && r == s[TrimOffset(s)..TrimOffset(s) + |r|]
    ensures s == [] || (!IsTrimmable(s[0]) && !IsTrimmable(s[|s| - 1])) ==> r == s
  {
    var a := TrimFrom(s, 0);
    var b := TrimUntil(s, a, |s|);
    assert s != [] && !IsTrimmable(s[0]) && !IsTrimmable(s[|s| - 1]) ==> a == 0 && b == |s| && s[a..b] == s;
    s[a..b]
  }

  /** Only characters at or below U+0020 are removed, and only at the ends. */
  lemma TrimRemovesOnlyTrimmable(s: string)
    ensures forall k :: 0 <= k < TrimOffset(s) ==> IsTrimmable(s[k])
    ensures forall k :: TrimOffset(s) + |Trim(s)| <= k < |s| ==> IsTrimmable(s[k])
  {
  }

  /** A character of the trimmed text is a character of the original. */
  lemma TrimKeeps(s: string, c: char)
    requires c !in s
    ensures c !in Trim(s)
  {
  }

  /** Character.isWhitespace, the test behind String.isBlank(). */
  predicate IsJavaWhitespace(c: char) {
    || c == ' ' || ('\t' <= c <= '\r') || ('\U{1C}' <= c <= '\U{1F}')
    || c == '\U{1680}' || ('\U{2000}' <= c <= '\U{2006}') || ('\U{2008}' <= c <= '\U{200A}')
    || c == '\U{2028}' || c == '\U{2029}' || c == '\U{205F}' || c == '\U{3000}'
  }

  /** String.isBlank(): empty, or whitespace only. */
  predicate IsBlank(s: string) {
    forall i :: 0 <= i < |s| ==> IsJavaWhitespace(s[i])
  }

  function ToLowerChar(c: char): char {
    if 'A' <= c <= 'Z' then (c as int + 32) as char else c
  }

  /** String.toLowerCase(), restricted to the ASCII letters. */
  function ToLower(s: string): (r: string)
    ensures |r| == |s|
    ensures forall i :: 0 <= i < |s| ==> r[i] == ToLowerChar(s[i])
  {
    seq(|s|, i requires 0 <= i < |s| => ToLowerChar(s[i]))
  }

  /**
   * The case folding under which String.equalsIgnoreCase relates a character
   * to an ASCII letter: the ASCII capitals, and the four non-ASCII characters
   * whose upper or lower case is an ASCII letter (dotless i, dotted capital I,
   * long s and the Kelvin sign).
   */
  function FoldCase(c: char): char {
    if 'A' <= c <= 'Z' then (c as int + 32) as char
    else if c == '\U{131}' || c == '\U{130}' then 'i'
    else if c == '\U{17F}' then 's'
    else if c == '\U{212A}' then 'k'
    else c
  }

  /** String.equalsIgnoreCase, exact whenever `ascii` holds only ASCII characters (every use here). */
  predicate EqualsIgnoreCase(s: string, ascii: string) {
    |s| == |ascii| && forall i :: 0 <= i < |s| ==> FoldCase(s[i]) == FoldCase(ascii[i])
  }

  /** String.indexOf(c): the first position of c. */
  function IndexOf(s: string, c: char): (r: Option<nat>)
    ensures r.None? <==> c !in s
    ensures r.Some? ==> r.value < |s| && s[r.value] == c && c !in s[..r.value]
  {
    if s == [] then None
    else if s[0] == c then Some(0)
    else match IndexOf(s[1..], c)
      case None => None
      case Some(i) => assert s[1..][..i] == s[1..i + 1]; Some(i + 1)
  }

  /** The first occurrence is the one indexOf reports. */
  lemma {:induction false} IndexOfFirst(s: string, c: char, k: nat)
    requires k < |s| && s[k] == c && c !in s[..k]
    ensures IndexOf(s, c) == Some(k)
  {
    if k > 0 {
      assert s[0] == s[..k][0];
      assert s[1..][..k - 1] == s[1..k];
      IndexOfFirst(s[1..], c, k - 1);
    }
  }

  /** The parts joined with the separator between consecutive parts. */
  function Join(sep: string, parts: seq<string>): string
  {
    if |parts| == 0 then ""
    else if |parts| == 1 then parts[0]
    else Join(sep, parts[..|parts| - 1]) + sep + parts[|parts| - 1]
  }

  lemma JoinSnoc(sep: string, parts: seq<string>, x: string)
    ensures Join(sep, parts + [x]) == if parts == [] then x else Join(sep, parts) + sep + x
  {
    assert (parts + [x])[..|parts|] == parts;
  }

  /** All the pieces between occurrences of d, empty pieces included. */
  function SplitOn(s: string, d: char): (parts: seq<string>)
    ensures |parts| >= 1
    ensures forall i :: 0 <= i < |parts| ==> d !in parts[i]
    decreases |s|
  {
    match IndexOf(s, d)
    case None => [s]
    case Some(i) => [s[..i]] + SplitOn(s[i + 1..], d)
  }

  function DropTrailingEmpty(parts: seq<string>): (r: seq<string>)
    ensures |r| <= |parts| && r == parts[..|r|]
    ensures r == [] || r[|r| - 1] != ""
    ensures forall i :: |r| <= i < |parts| ==> parts[i] == ""
  {
    if parts != [] && parts[|parts| - 1] == "" then DropTrailingEmpty(parts[..|parts| - 1]) else parts
  }

  /**
   * String.split on a one-character pattern with limit 0: the whole string
   * when d does not occur, otherwise the pieces with trailing empty pieces removed.
   */
  function JavaSplit(s: string, d: char): (parts: seq<string>)
    ensures forall i :: 0 <= i < |parts| ==> d !in parts[i]
  {
    if d !in s then [s] else DropTrailingEmpty(SplitOn(s, d))
  }

  /** The separator joins the pieces back into the original string. */
  lemma {:induction false} JoinSplitOn(s: string, d: char)
    ensures Join([d], SplitOn(s, d)) == s
    decreases |s|
  {
    match IndexOf(s, d)
    case None =>
    case Some(i) =>
      var tail := s[i + 1..];
      var rest := SplitOn(tail, d);
      assert SplitOn(s, d) == [s[..i]] + rest;
      JoinSplitOn(tail, d);
      JoinCons([d], s[..i], rest);
      Reassemble(s, i);
  }

  lemma Reassemble(s: string, i: nat)
    requires i < |s|
    ensures s[..i] + [s[i]] + s[i + 1..] == s
  {
  }

  lemma {:induction false} JoinCons(sep: string, first: string, rest: seq<string>)
    requires |rest| >= 1
    ensures Join(sep, [first] + rest) == first + sep + Join(sep, rest)
    decreases |rest|
  {
    if |rest| == 1 {
      assert [first] + rest == [first, rest[0]];
    } else {
      var init := rest[..|rest| - 1];
      assert ([first] + rest)[..|rest|] == [first] + init;
      JoinCons(sep, first, init);
    }
  }

  /** Splitting pieces that do not contain the separator, joined by it, gives them back. */
  lemma {:induction false} SplitOnJoin(parts: seq<string>, d: char)
    requires |parts| >= 1
    requires forall i :: 0 <= i < |parts| ==> d !in parts[i]
    ensures SplitOn(Join([d], parts), d) == parts
    decreases |parts|
  {
    if |parts| == 1 {
      assert IndexOf(parts[0], d).None?;
    } else {
      var rest := parts[1..];
      assert parts == [parts[0]] + rest;
      JoinCons([d], parts[0], rest);
      var s := Join([d], parts);
      assert s == parts[0] + [d] + Join([d], rest);
      var i := |parts[0]|;
      assert s[i] == d && s[..i] == parts[0];
      assert IndexOf(s, d) == Some(i);
      assert s[i + 1..] == Join([d], rest);
      SplitOnJoin(rest, d);
    }
  }

  /** Three pieces without the separator, the last one not empty, split back into those three. */
  lemma SplitThree(a: string, b: string, c: string, d: char)
    requires d !in a && d !in b && d !in c && c != []
    ensures JavaSplit(a + [d] + b + [d] + c, d) == [a, b, c]
  {
    var parts := [a, b, c];
    JoinSnoc([d], [a], b);
    assert [a] + [b] == [a, b];
    JoinSnoc([d], [a, b], c);
    assert [a, b] + [c] == parts;
    assert Join([d], parts) == a + [d] + b + [d] + c;
    SplitOnJoin(parts, d);
    assert (a + [d] + b + [d] + c)[|a|] == d;
  }

  /** One more separator at the end of a non-empty string changes nothing: the empty last piece is dropped. */
  lemma JavaSplitTrailing(t: string, d: char)
    requires t != []
    ensures JavaSplit(t + [d], d) == JavaSplit(t, d)
  {
    var parts := SplitOn(t, d);
    SplitOnTrailing(t, d);
    assert (t + [d])[|t|] == d;
    assert (parts + [""])[..|parts|] == parts;
    assert DropTrailingEmpty(parts + [""]) == DropTrailingEmpty(parts);
    if d !in t {
      assert parts == [t];
      assert DropTrailingEmpty([t]) == [t];
    }
  }

  lemma SplitOnTrailing(t: string, d: char)
    ensures SplitOn(t + [d], d) == SplitOn(t, d) + [""]
  {
    var parts := SplitOn(t, d);
    JoinSplitOn(t, d);
    JoinSnoc([d], parts, "");
    assert t + [d] == Join([d], parts + [""]);
    assert forall i :: 0 <= i < |parts + [""]| ==> d !in (parts + [""])[i];
    SplitOnJoin(parts + [""], d);
  }

  function DigitChar(d: nat): char
    requires d < 10
  {
    "0123456789"[d]
  }

  function DigitValue(c: char): nat {
    if '0' <= c <= '9' then c as int - '0' as int else 0
  }

  predicate IsDigit(c: char) {
    '0' <= c <= '9'
  }

  /** Decimal rendering of a natural number, most significant digit first. */
  function NatToString(n: nat): (r: string)
    ensures |r| >= 1
    ensures forall i :: 0 <= i < |r| ==> IsDigit(r[i])
  {
    if n < 10 then [DigitChar(n)] else NatToString(n / 10) + [DigitChar(n % 10)]
  }

  /** Long.toString / String.valueOf(long): an optional minus sign, then the digits. */
  function IntToString(n: int): (r: string)
    ensures forall i :: 0 <= i < |r| ==> IsDigit(r[i]) || r[i] == '-'
  {
    if n < 0 then "-" + NatToString(-n) else NatToString(n)
  }

  /** Reading digits back, most significant first. */
  function ParseDigits(s: string): nat
  {
    if s == [] then 0 else ParseDigits(s[..|s| - 1]) * 10 + DigitValue(s[|s| - 1])
  }

  function ParseInt(s: string): int
  {
    if s != [] && s[0] == '-' then -(ParseDigits(s[1..]) as int) else ParseDigits(s)
  }

  lemma {:induction false} NatToStringRoundTrip(n: nat)
    ensures ParseDigits(NatToString(n)) == n
  {
    if n >= 10 {
      var r := NatToString(n);
      NatToStringRoundTrip(n / 10);
      assert r[..|r| - 1] == NatToString(n / 10);
    }
  }

  /** Decimal rendering is injective: the number can be read back from its text. */
  lemma IntToStringRoundTrip(n: int)
    ensures ParseInt(IntToString(n)) == n
  {
    if n < 0 {
      NatToStringRoundTrip(-n);
      assert IntToString(n)[1..] == NatToString(-n);
    } else {
      NatToStringRoundTrip(n);
    }
  }
}

/**
 * The "base64url" encoding of section 5 of RFC 4648, as java.util.Base64
 * provides it: getUrlEncoder().withoutPadding() for encoding and
 * getUrlDecoder() for decoding.
 */
module Base64Url {
  import opened Wrappers
  import opened Bytes

  type Sextet = x: int | 0 <= x < 64

  /** The URL- and filename-safe alphabet: A-Z, a-z, 0-9, '-' and '_'. */
  function CharOf(v: Sextet): char {
    if v < 26 then ('A' as int + v) as char
    else if v < 52 then ('a' as int + (v - 26)) as char
    else if v < 62 then ('0' as int + (v - 52)) as char
    else if v == 62 then '-'
    else '_'
  }

  /** The value of an alphabet character; None for every other character, '=' included. */
  function ValueOf(c: char): (r: Option<Sextet>)
    ensures r.Some? ==> CharOf(r.value) == c
  {
    if 'A' <= c <= 'Z' then Some(c as int - 'A' as int)
    else if 'a' <= c <= 'z' then Some(c as int - 'a' as int + 26)
    else if '0' <= c <= '9' then Some(c as int - '0' as int + 52)
    else if c == '-' then Some(62)
    else if c == '_' then Some(63)
    else None
  }

  predicate InAlphabet(c: char) {
    ValueOf(c).Some?
  }

  lemma ValueOfCharOf(v: Sextet)
    ensures ValueOf(CharOf(v)) == Some(v)
  {
  }

  /** Four characters for three octets; two or three for a final one or two; never padding. */
  function Encode(b: seq<Byte>): (r: string)
    ensures |r| % 4 != 1
    ensures forall i :: 0 <= i < |r| ==> InAlphabet(r[i])
  {
    if |b| == 0 then ""
    else
      var c0: Sextet := b[0] / 4;
      var hi0: int := (b[0] % 4) * 16;
      if |b| == 1 then
        ValueOfCharOf(c0); ValueOfCharOf(hi0);
        [CharOf(c0), CharOf(hi0)]
      else
        var c1: Sextet := hi0 + b[1] / 16;
        var hi1: int := (b[1] % 16) * 4;
        if |b| == 2 then
          ValueOfCharOf(c0); ValueOfCharOf(c1); ValueOfCharOf(hi1);
          [CharOf(c0), CharOf(c1), CharOf(hi1)]
        else
          var c2: Sextet := hi1 + b[2] / 64;
          var c3: Sextet := b[2] % 64;
          ValueOfCharOf(c0); ValueOfCharOf(c1); ValueOfCharOf(c2); ValueOfCharOf(c3);
          [CharOf(c0), CharOf(c1), CharOf(c2), CharOf(c3)] + Encode(b[3..])
  }

  /**
   * The characters before any padding, four at a time: three octets per full
   * unit, one octet for a final pair, two for a final triple (the unused low
   * bits are ignored, as the JDK decoder does). A lone final character or a
   * character outside the alphabet is an error.
   */
  function DecodeUnits(s: string): Option<seq<Byte>>
  {
    if s == [] then Some([])
    else if |s| == 1 then None
    else if !InAlphabet(s[0]) || !InAlphabet(s[1]) then None
    else
      var v0, v1 := ValueOf(s[0]).value, ValueOf(s[1]).value;
      var o0: Byte := v0 * 4 + v1 / 16;
      if |s| == 2 then Some([o0])
      else if !InAlphabet(s[2]) then None
      else
        var v2 := ValueOf(s[2]).value;
        var o1: Byte := (v1 % 16) * 16 + v2 / 4;
        if |s| == 3 then Some([o0, o1])
        else if !InAlphabet(s[3]) then None
        else
          var o2: Byte := (v2 % 4) * 64 + ValueOf(s[3]).value;
          match DecodeUnits(s[4..])
          case None => None
          case Some(rest) => Some([o0, o1, o2] + rest)
  }

  /**
   * Base64.getUrlDecoder().decode(String): IllegalArgumentException becomes
   * None. Padding is optional; when present it must be "==" after a final
   * pair or "=" after a final triple, and nothing may follow it.
   */
  function Decode(s: string): Option<seq<Byte>>
  {
    var k := FirstPad(s);
    var body, pad := s[..k], s[k..];
    if pad == "" then DecodeUnits(body)
    else if (|body| % 4 == 2 && pad == "==") || (|body| % 4 == 3 && pad == "=") then DecodeUnits(body)
    else None
  }

  /** The position of the first '=' (the length when there is none). */
  function FirstPad(s: string): (k: nat)
    ensures k <= |s| && '=' !in s[..k]
    ensures k < |s| ==> s[k] == '='
  {
    if s == [] then 0
    else if s[0] == '=' then 0
    else assert s[1..][..FirstPad(s[1..])] == s[1..FirstPad(s[1..]) + 1]; FirstPad(s[1..]) + 1
  }

  lemma FirstPadNone(s: string)
    requires '=' !in s
    ensures FirstPad(s) == |s|
  {
  }

  /** The octet groupings of one unit undo the sextet groupings. */
  lemma UnitRoundTrip(b0: Byte, b1: Byte, b2: Byte)
    ensures var c1, c2 := (b0 % 4) * 16 + b1 / 16, (b1 % 16) * 4 + b2 / 64;
            (b0 / 4) * 4 + c1 / 16 == b0 && (c1 % 16) * 16 + c2 / 4 == b1 && (c2 % 4) * 64 + b2 % 64 == b2
  {
    var c1, c2 := (b0 % 4) * 16 + b1 / 16, (b1 % 16) * 4 + b2 / 64;
    assert c1 / 16 == b0 % 4 && c1 % 16 == b1 / 16;
    assert c2 / 4 == b1 % 16 && c2 % 4 == b2 / 64;
  }

  /** One full unit at the front is decoded independently of what follows. */
  lemma DecodeUnitsFront(c0: Sextet, c1: Sextet, c2: Sextet, c3: Sextet, tail: string)
    ensures var s := [CharOf(c0), CharOf(c1), CharOf(c2), CharOf(c3)] + tail;
            DecodeUnits(s) == match DecodeUnits(tail)
                              case None => None
                              case Some(rest) => Some([c0 * 4 + c1 / 16, (c1 % 16) * 16 + c2 / 4, (c2 % 4) * 64 + c3] + rest)
  {
    var s := [CharOf(c0), CharOf(c1), CharOf(c2), CharOf(c3)] + tail;
    ValueOfCharOf(c0); ValueOfCharOf(c1); ValueOfCharOf(c2); ValueOfCharOf(c3);
    assert s[4..] == tail;
  }

  lemma DecodeUnitsEncodeOne(b0: Byte)
    ensures DecodeUnits(Encode([b0])) == Some([b0])
  {
    var c0: Sextet, c1: Sextet := b0 / 4, (b0 % 4) * 16;
    ValueOfCharOf(c0); ValueOfCharOf(c1);
    assert Encode([b0]) == [CharOf(c0), CharOf(c1)];
    assert c1 / 16 == b0 % 4;
  }

  lemma DecodeUnitsEncodeTwo(b0: Byte, b1: Byte)
    ensures DecodeUnits(Encode([b0, b1])) == Some([b0, b1])
  {
    var c0: Sextet, c1: Sextet, c2: Sextet := b0 / 4, (b0 % 4) * 16 + b1 / 16, (b1 % 16) * 4;
    ValueOfCharOf(c0); ValueOfCharOf(c1); ValueOfCharOf(c2);
    assert Encode([b0, b1]) == [CharOf(c0), CharOf(c1), CharOf(c2)];
    UnitRoundTrip(b0, b1, 0);
    assert c2 / 4 == b1 % 16;
  }

  lemma {:induction false} DecodeUnitsEncode(b: seq<Byte>)
    ensures DecodeUnits(Encode(b)) == Some(b)
  {
    if |b| == 1 {
      DecodeUnitsEncodeOne(b[0]);
      assert b == [b[0]];
    } else if |b| == 2 {
      DecodeUnitsEncodeTwo(b[0], b[1]);
      assert b == [b[0], b[1]];
    } else if |b| >= 3 {
      var c0: Sextet, c1: Sextet := b[0] / 4, (b[0] % 4) * 16 + b[1] / 16;
      var c2: Sextet, c3: Sextet := (b[1] % 16) * 4 + b[2] / 64, b[2] % 64;
      UnitRoundTrip(b[0], b[1], b[2]);
      assert Encode(b) == [CharOf(c0), CharOf(c1), CharOf(c2), CharOf(c3)] + Encode(b[3..]);
      DecodeUnitsFront(c0, c1, c2, c3, Encode(b[3..]));
      DecodeUnitsEncode(b[3..]);
      assert b == [b[0], b[1], b[2]] + b[3..];
    }
  }

  /** Decoding what the encoder produced gives the octets back. */
  lemma DecodeEncode(b: seq<Byte>)
    ensures Decode(Encode(b)) == Some(b)
  {
    var e := Encode(b);
    assert forall i :: 0 <= i < |e| ==> e[i] != '=';
    FirstPadNone(e);
    assert e[..|e|] == e;
    DecodeUnitsEncode(b);
  }

  /** Encoded text never contains the '.' that separates token segments. */
  lemma EncodeHasNoDot(b: seq<Byte>)
    ensures '.' !in Encode(b)
  {
    var e := Encode(b);
    forall i | 0 <= i < |e| ensures e[i] != '.' {
      assert InAlphabet(e[i]);
    }
  }

  /** Four characters for every three octets, rounded up, with no padding. */
  lemma {:induction false} EncodeLength(b: seq<Byte>)
    ensures |Encode(b)| == (4 * |b| + 2) / 3
  {
    if |b| >= 3 {
      EncodeLength(b[3..]);
    }
  }

  /** Only the empty input encodes to the empty text. */
  lemma EncodeEmpty(b: seq<Byte>)
    ensures Encode(b) == "" <==> b == []
  {
  }
}
